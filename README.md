# Towel warmer plug: a Dafny model of the control loop

This project models the core of the Home Assistant "Towel Warmer Plug"
integration. That core is three pieces.

- **The coordinator's tick.** The coordinator holds three persistent fields: the time of the last automatic turn-on, the start of the current low-power streak, and the manual-override flag. On every tick it:
  - validates the switch and power-sensor readings;
  - tests a daily schedule, which may wrap past midnight;
  - latches the manual override with a 5-second heuristic;
  - runs a 60-second low-power malfunction timer;
  - issues at most one turn-on or turn-off command;
  - saves its fields and returns a snapshot.
- **Save and load.** The three fields are written to, and read back from, the integration's storage.
- **The status sensor and the slug builder.** The sensor derives its displayed status from the snapshot. `slugify` builds entity ids and the storage key.

Modules:

- `Wrappers` (`wrappers.dfy`) holds `Option` and `Result`.
- `Utils` (`utils.dfy`) holds `slugify` as a pipeline of string stages. It carries the lemmas on the slug alphabet, outer whitespace, separator runs, letter order and idempotence.
- `Coordinator` (`coordinator.dfy`) holds the data model and the tick's specification.
  - `Tick` states one tick as a function of the stored fields and the readings, and its contract lists the rules the tick follows.
  - The class `TowelWarmerCoordinator` mutates its fields step by step, as `coordinator.py` does. It saves into a `Disk` object. Its method `UpdateData` is proved to agree with `Tick`, including what ends up on disk.
- `TickRuns` (`tick_runs.dfy`) folds `Tick` over a sequence of readings. It proves properties that span many ticks.
- `Sensor` (`sensor.dfy`) holds the status mapping and its links to the tick.

How the model represents what the integration reads:

- **Time.** Timestamps are whole seconds. The time of day is seconds since midnight.
- **Readings.** The readings a tick takes from Home Assistant are one `Readings` value. It holds the switch state and its `last_changed`, the power state, the auto-control switch state, the current time, and whether the switch command completes.
- **Power state.** It is `Unavailable`, `Unknown`, a number, or text that `float()` rejects.

Behaviours of the code that are easy to miss:

- **Override detection.** Within a tick, the override is raised only by the 5-second heuristic (coordinator.py:68-72); across restarts, `load_persistent_data` also restores a raised flag (coordinator.py:131-132). `manual_max_duration` is never read, so there is no override timeout. It is cleared only by an automatic command. In particular, switching the warmer off does not clear it.
- **The snapshot's `is_on`.** The snapshot reports the switch as read before any command. So on the tick that turns the warmer on, `is_on` is false and the sensor reads "Idle" (`Sensor.TurnOnTickReadsIdle`).
- **Saving.** The low-power timer step saves on every tick where power is not low, even when nothing changed. So saving is not limited to state transitions.
- **Override before any automatic turn-on.** No automatic turn-on has been recorded yet, so a manual turn-on outside the schedule is switched off at once (`Coordinator.ManualTurnOnBeforeAnyAutoOn`).

## Model

| member | source | states |
|---|---|---|
| Utils.DropNonAscii | custom_components/towel_warmer_plug/utils.py:7 | encoding to ASCII while ignoring errors leaves only characters below 128, and never lengthens the string |
| Utils.DropNonAsciiDrops | custom_components/towel_warmer_plug/utils.py:7 | a character at or above U+0080 is deleted, not replaced: removing it from the input does not change the output |
| Utils.DropNonAsciiKeepsAscii | custom_components/towel_warmer_plug/utils.py:7 | an all-ASCII string passes the encoding stage unchanged |
| Utils.DropPunctuation | custom_components/towel_warmer_plug/utils.py:8 | removing `[^\w\s-]` leaves only word characters, whitespace and dashes |
| Utils.DropPunctuationDrops | custom_components/towel_warmer_plug/utils.py:8 | a character outside `[\w\s-]` is deleted, not replaced: removing it from the input does not change the output |
| Utils.DropPunctuationKeepsCleaned | custom_components/towel_warmer_plug/utils.py:8 | a string of word characters, whitespace and dashes passes the punctuation stage unchanged, dashes included |
| Utils.Strip | custom_components/towel_warmer_plug/utils.py:8 | `strip()` leaves no whitespace at either end |
| Utils.StripOfTrimmed | custom_components/towel_warmer_plug/utils.py:8 | a string with no whitespace at either end is its own strip |
| Utils.StripKeepsCleaned | custom_components/towel_warmer_plug/utils.py:8 | stripping only removes characters, so a cleaned string stays cleaned |
| Utils.Lower | custom_components/towel_warmer_plug/utils.py:8 | `lower()` maps each character to its lower-case form and keeps the length |
| Utils.ToLowerChar | custom_components/towel_warmer_plug/utils.py:8 | each ASCII capital maps to the lower-case letter at the same place in the alphabet; every other character is kept |
| Utils.Collapse | custom_components/towel_warmer_plug/utils.py:9 | after the substitution no whitespace or dash is left |
| Utils.CollapseMakesSlug | custom_components/towel_warmer_plug/utils.py:9 | collapsing a lower-cased cleaned string leaves only slug characters |
| Utils.Slugify | custom_components/towel_warmer_plug/utils.py:4-10 | the output holds only lower-case ASCII letters, digits and '_' |
| Utils.SlugHasNoSeparators | custom_components/towel_warmer_plug/utils.py:8-9 | the slug contains no whitespace and no dash |
| Utils.SlugifyIgnoresOuterSpace | custom_components/towel_warmer_plug/utils.py:8 | leading and trailing whitespace in the input does not change the slug |
| Utils.CollapseRun | custom_components/towel_warmer_plug/utils.py:9 | a maximal run of whitespace and dashes between two other characters becomes exactly one '_' |
| Utils.CollapseAppend | custom_components/towel_warmer_plug/utils.py:9 | the substitution distributes over a split point that does not end in a separator |
| Utils.SlugifyJoinsWords | custom_components/towel_warmer_plug/utils.py:4-10 | two slugs joined by a run of whitespace and dashes slugify to the two slugs joined by one '_' |
| Utils.SlugifyKeepsAlnums | custom_components/towel_warmer_plug/utils.py:4-10 | the letters and digits of the slug are those of the input, in the same order, lower-cased |
| Utils.SlugifyIdempotent | custom_components/towel_warmer_plug/utils.py:4-10 | slugifying a slug gives the same slug |
| Utils.DropNonAsciiKeepsSlug | custom_components/towel_warmer_plug/utils.py:7 | the ASCII stage leaves a slug unchanged |
| Utils.DropPunctuationKeepsSlug | custom_components/towel_warmer_plug/utils.py:8 | the punctuation stage leaves a slug unchanged |
| Utils.LowerKeepsSlug | custom_components/towel_warmer_plug/utils.py:8 | lower-casing leaves a slug unchanged |
| Utils.CollapseKeepsSlug | custom_components/towel_warmer_plug/utils.py:9 | the substitution leaves a slug unchanged |
| Utils.StripSurrounded | custom_components/towel_warmer_plug/utils.py:8 | `strip()` removes any all-whitespace prefix and suffix |
| Coordinator.InsideSchedule | custom_components/towel_warmer_plug/coordinator.py:65 | the start and end times are always inside the schedule, and equal start and end times make every time inside |
| Coordinator.IsMalfunction | custom_components/towel_warmer_plug/coordinator.py:91-94 | a malfunction needs a running low-power streak, and a streak that has only just started is never one |
| Coordinator.ScheduleIsArc | custom_components/towel_warmer_plug/coordinator.py:65 | the schedule test holds exactly on the clockwise arc of the clock from start to end time, ends included; equal start and end times make the whole day the schedule |
| Coordinator.Tick | custom_components/towel_warmer_plug/coordinator.py:33-122 | a tick fails with no command and no change when a reading is missing, unavailable, unknown or not a number; with usable readings it fails exactly when an issued command does not complete, and otherwise returns a snapshot; the turn-on and turn-off conditions in both directions; a failed command fails the tick; `lastAutoOn` changes only through a turn-on that completes; a switch that is on and changed more than 5 s after the last automatic turn-on raises the override, and nothing else raises it; only a completed turn-on clears it; the low-power timer is cleared, kept or started; the snapshot holds the switch as read and the override after the step; a streak that starts now is no malfunction |
| Coordinator.TickIdempotent | custom_components/towel_warmer_plug/coordinator.py:33-122 | a second tick on the same readings gives the same result, command and fields |
| Coordinator.SteadyStateIsQuiet | custom_components/towel_warmer_plug/coordinator.py:79-111 | with the warmer on, drawing enough power inside the schedule, no command is issued; a later tick at another time still inside the schedule, with the same device readings, issues none either and leaves the fields as they were |
| Coordinator.ManualTurnOnBeforeAnyAutoOn | custom_components/towel_warmer_plug/coordinator.py:68-111 | without a recorded automatic turn-on, a switch that is on outside the schedule is turned off and no override is raised |
| Coordinator.SlugNameSharesKey | custom_components/towel_warmer_plug/coordinator.py:19 | a coordinator named with the slug of another's name gets the same storage key |
| Coordinator.RestoreIntoInitial | custom_components/towel_warmer_plug/coordinator.py:124-139 | loading a saved record into a freshly constructed coordinator reproduces all three fields |
| Coordinator.TowelWarmerCoordinator.constructor | custom_components/towel_warmer_plug/coordinator.py:16-22 | the storage key is the domain plus the slug of the name, and the fields start empty with no override |
| Coordinator.TowelWarmerCoordinator.SavePersistentData | custom_components/towel_warmer_plug/coordinator.py:134-139 | the three fields are written under the coordinator's key, and the rest of the storage is untouched |
| Coordinator.TowelWarmerCoordinator.LoadPersistentData | custom_components/towel_warmer_plug/coordinator.py:124-132 | with a stored record, present timestamps replace the fields, absent ones leave them, and the override flag is always taken; without one, nothing changes |
| Coordinator.TowelWarmerCoordinator.LatchOverride | custom_components/towel_warmer_plug/coordinator.py:68-72 | the flag is raised, and saved, exactly when the switch is on and changed more than 5 s after the last automatic turn-on; otherwise nothing changes |
| Coordinator.TowelWarmerCoordinator.TrackLowPower | custom_components/towel_warmer_plug/coordinator.py:79-94 | the timer is started, kept or cleared; it saves unless a streak continues; the malfunction flag holds exactly when a streak has lasted 60 s |
| Coordinator.TowelWarmerCoordinator.Control | custom_components/towel_warmer_plug/coordinator.py:100-111 | the command is the one the schedule, switch and override call for; a completed command updates the fields and saves; a failed one changes nothing |
| Coordinator.TowelWarmerCoordinator.UpdateData | custom_components/towel_warmer_plug/coordinator.py:33-122 | the in-place tick returns the result and command `Tick` gives, leaves the fields `Tick` gives, saves exactly when `Tick` says, and keeps storage in step with memory |
| Coordinator.Restart | custom_components/towel_warmer_plug/coordinator.py:16-139 | saving, then constructing a new coordinator with the same name over the same storage and loading, reproduces the fields exactly; the store then holds the saved record under the storage key and nothing else changed, and the new coordinator is in step with it |
| TickRuns.TurnOnIgnoresFields | custom_components/towel_warmer_plug/coordinator.py:100-106 | whether a tick turns the warmer on depends on the readings only, not on the stored fields |
| TickRuns.LowStreakOrigin | custom_components/towel_warmer_plug/coordinator.py:80-84 | through consecutive low-power ticks the streak keeps its start, or starts at the first of them |
| TickRuns.MalfunctionAfterDwell | custom_components/towel_warmer_plug/coordinator.py:79-94 | from no streak, consecutive low-power ticks report a malfunction on the last one exactly when it comes 60 s or more after the first |
| TickRuns.OverrideHolds | custom_components/towel_warmer_plug/coordinator.py:68-111 | once raised, the override survives every tick that does not complete an automatic turn-on |
| TickRuns.NoOverrideWhileOff | custom_components/towel_warmer_plug/coordinator.py:68-72 | while the switch is never read as on, no override is raised |
| TickRuns.LastAutoOnIsLastTurnOn | custom_components/towel_warmer_plug/coordinator.py:100-106 | after many ticks, `lastAutoOn` is the time of the last completed turn-on, or what it was before |
| Sensor.NativeValue | custom_components/towel_warmer_plug/sensor.py:44-57 | no data gives no value; in each direction: malfunction exactly when flagged; warming exactly when not flagged and overridden or on; outside warming hours exactly when none of those and outside the schedule; idle otherwise |
| Sensor.LabelsDistinct | custom_components/towel_warmer_plug/sensor.py:50-57 | the four status texts are distinct |
| Sensor.MalfunctionMeansLowPower | custom_components/towel_warmer_plug/sensor.py:49-50 | a "Malfunction" reading comes from a tick that saw the switch on and drawing less than the minimum |
| Sensor.TurnOnTickReadsIdle | custom_components/towel_warmer_plug/sensor.py:49-57 | on the tick that completes an automatic turn-on, the status is "Idle" |

## Left out

- Home Assistant plumbing is not modelled: state lookups, service calls, the `Store`, the update-coordinator base class and listeners. Readings are a parameter, the command is a result, and storage is a map keyed by storage key.
- The lookup of the auto-control switch by the slug of `<name>_control` is not modelled. Its state is given directly in the readings.
- Concurrency is not modelled: the background load task, which races the first refresh, and the async flow. Ticks, saves and loads are sequential calls.
- Wall-clock handling is not modelled: `dt_util.now()`, `strptime` of "%H:%M:%S", and ISO-8601 serialisation. Times are whole seconds, so sub-second differences are dropped.
- Float conversion and float semantics are not modelled. Power and threshold are reals; NaN and infinities are not represented.
- A storage write that raises is not modelled. A failing switch command is, through `commandSucceeds`.
- Stored records of the wrong shape are not modelled: a missing key, a non-string timestamp, or a non-boolean override.
- Unicode NFKD normalisation in `slugify` is not modelled. The argument of `Utils.Slugify` stands for the name after that normalisation: the model starts at the ASCII filter, so "Suíte" passed as it is becomes "sute" in the model, while the integration decomposes "í" first and produces "suite". Whitespace is Python's set restricted to ASCII.
- `manual_max_duration` is not modelled. It is collected by the configuration form but never read by the coordinator.
- Logging calls are not modelled: they only write diagnostics and change no state.
- The configuration flow, the switch entity, `models.py` and `const.py` hold no control logic, so they are not modelled.
- After a failed tick the base class keeps the previous data for the sensor. That is not modelled; the sensor takes the snapshot directly.
