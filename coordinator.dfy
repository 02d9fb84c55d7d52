/**
 * The control loop of the towel warmer (coordinator.py): on every tick it
 * validates the switch and power readings, tests the daily schedule,
 * latches a manual override, runs the low-power malfunction timer, issues
 * at most one on/off command and persists its three fields.
 *
 * `Tick` is the specification of one tick as a function of the stored
 * fields and the readings; the class `TowelWarmerCoordinator` performs the
 * same steps in place and is proved to agree with it.
 */
module Coordinator {
  import opened Wrappers
  import Utils

  const Domain: string := "towel_warmer_plug"

  /** A switch change this many seconds after the last automatic turn-on counts as manual. */
  const OverrideToleranceSeconds: int := 5

  /** Low power must last this many seconds to count as a malfunction. */
  const MalfunctionDwellSeconds: int := 60

  const SecondsPerDay: int := 86400

  /** A wall-clock time of day, in seconds since midnight. */
  type TimeOfDay = t: int | 0 <= t < SecondsPerDay

  /** The configuration of one towel warmer (models.py). */
  datatype Config = Config(
    name: string,
    switchEntity: string,
    powerSensor: string,
    minimumPower: real,
    startTime: TimeOfDay,
    endTime: TimeOfDay)

  /** The state object of the switch entity: its state string and when it last changed (seconds). */
  datatype SwitchState = SwitchState(state: string, lastChanged: int)

  /** The state of the power sensor: the two markers the code rejects, a number, or text `float()` refuses. */
  datatype PowerState = Unavailable | Unknown | Numeric(watts: real) | NotNumeric

  /**
   * Everything a tick reads from outside: the switch and power sensor
   * states (None when the entity cannot be found), the state of the
   * automatic-control switch (None when it cannot be found), the current
   * timestamp and time of day, and whether a switch command, if one is
   * issued, completes without raising.
   */
  datatype Readings = Readings(
    switchState: Option<SwitchState>,
    powerState: Option<PowerState>,
    controlState: Option<string>,
    now: int,
    timeOfDay: TimeOfDay,
    commandSucceeds: bool)

  datatype Command = NoCommand | TurnOn | TurnOff

  /** Why a tick failed; every case surfaces as `UpdateFailed`. */
  datatype TickError = MissingState | PowerUnavailable | PowerNotNumeric | CommandFailed

  /** What a successful tick returns to its observers. */
  datatype Snapshot = Snapshot(
    isOn: bool,
    power: real,
    insideSchedule: bool,
    manualOverride: bool,
    isMalfunction: bool)

  /** The three persistent fields, as held in memory and as saved. */
  datatype Record = Record(lastAutoOn: Option<int>, powerLowSince: Option<int>, manualOverride: bool)

  /** The fields of a freshly constructed coordinator. */
  const Initial: Record := Record(None, None, false)

  /** The result of one tick: what it returns, the command it issued, the new fields, and whether it saved them. */
  datatype Outcome = Outcome(
    result: Result<Snapshot, TickError>,
    command: Command,
    state: Record,
    saved: bool)

  // ---------------------------------------------------------------------
  // Reading the inputs
  // ---------------------------------------------------------------------

  /** Both entities were found and the power state is a number. */
  predicate Usable(r: Readings) {
    r.switchState.Some? && r.powerState.Some? && r.powerState.value.Numeric?
  }

  predicate SwitchOn(r: Readings) {
    r.switchState.Some? && r.switchState.value.state == "on"
  }

  function Watts(r: Readings): real
    requires Usable(r)
  {
    r.powerState.value.watts
  }

  /** The automatic-control switch exists and is on. */
  predicate AutoEnabled(r: Readings) {
    r.controlState.Some? && r.controlState.value == "on"
  }

  /** The switch is on but draws less than the configured minimum. */
  predicate PowerLow(cfg: Config, r: Readings) {
    Usable(r) && SwitchOn(r) && Watts(r) < cfg.minimumPower
  }

  /** The switch is on and changed more than the tolerance after the last automatic turn-on. */
  predicate ChangedAfterAutoOn(s: Record, r: Readings) {
    SwitchOn(r) && s.lastAutoOn.Some? &&
    r.switchState.value.lastChanged - s.lastAutoOn.value > OverrideToleranceSeconds
  }

  // ---------------------------------------------------------------------
  // The pure tests
  // ---------------------------------------------------------------------

  /** The schedule test: a closed interval when start < end, otherwise a window wrapping past midnight. */
  function InsideSchedule(start: TimeOfDay, end: TimeOfDay, t: TimeOfDay): (b: bool)
    ensures t == start || t == end ==> b
    ensures start == end ==> b
  {
    if start < end then start <= t <= end else t >= start || t <= end
  }

  predicate Inside(cfg: Config, r: Readings) {
    InsideSchedule(cfg.startTime, cfg.endTime, r.timeOfDay)
  }

  /** Seconds from `from` forward to `to` on the 24-hour clock. */
  function ClockDistance(from: TimeOfDay, to: TimeOfDay): (d: int)
    ensures 0 <= d < SecondsPerDay
  {
    (to - from) % SecondsPerDay
  }

  /**
   * The schedule is the clockwise arc of the clock face from the start time
   * to the end time, both ends included; equal start and end times make the
   * whole day the schedule.
   */
  lemma ScheduleIsArc(start: TimeOfDay, end: TimeOfDay, t: TimeOfDay)
    ensures InsideSchedule(start, end, t) <==> start == end || ClockDistance(start, t) <= ClockDistance(start, end)
  {
    if t >= start {
      assert ClockDistance(start, t) == t - start;
    } else {
      assert ClockDistance(start, t) == t - start + SecondsPerDay;
    }
    if end >= start {
      assert ClockDistance(start, end) == end - start;
    } else {
      assert ClockDistance(start, end) == end - start + SecondsPerDay;
    }
  }

  /** The malfunction test: a low-power streak has lasted at least the dwell time. */
  function IsMalfunction(powerLowSince: Option<int>, now: int): (b: bool)
    ensures b ==> powerLowSince.Some?
    ensures powerLowSince.Some? && now <= powerLowSince.value ==> !b
  {
    powerLowSince.Some? && now - powerLowSince.value >= MalfunctionDwellSeconds
  }

  // ---------------------------------------------------------------------
  // One tick, as a function
  // ---------------------------------------------------------------------

  /** The command the automatic control issues, given the override flag after the latch. */
  function Decide(auto: bool, inside: bool, isOn: bool, manualOverride: bool): Command {
    if !auto then NoCommand
    else if inside && !isOn then TurnOn
    else if !inside && isOn && !manualOverride then TurnOff
    else NoCommand
  }

  /** The low-power timer: None unless power is low; a running streak keeps its start, a new one starts now. */
  function LowTimer(since: Option<int>, low: bool, now: int): Option<int> {
    if !low then None else if since.None? then Some(now) else since
  }

  /** The timer step saves unless a running streak simply continues. */
  predicate TimerSaves(since: Option<int>, low: bool) {
    !low || since.None?
  }

  /** The fields after a command that went through: a turn-on records its time, and either clears the override. */
  function AfterCommand(s: Record, command: Command, now: int): Record {
    match command
    case TurnOn => s.(lastAutoOn := Some(now), manualOverride := false)
    case TurnOff => s.(manualOverride := false)
    case NoCommand => s
  }

  function Tick(cfg: Config, s: Record, r: Readings): (o: Outcome)
    // Readings that cannot be used fail the tick before anything changes.
    ensures !Usable(r) ==> o.result.Err? && o.command == NoCommand && o.state == s && !o.saved
    ensures r.switchState.None? || r.powerState.None? ==> o.result == Err(MissingState)
    ensures r.switchState.Some? && (r.powerState == Some(Unavailable) || r.powerState == Some(Unknown)) ==> o.result == Err(PowerUnavailable)
    ensures r.switchState.Some? && r.powerState == Some(NotNumeric) ==> o.result == Err(PowerNotNumeric)
    // The commands.
    ensures o.command == TurnOn <==> Usable(r) && AutoEnabled(r) && Inside(cfg, r) && !SwitchOn(r)
    ensures o.command == TurnOff <==>
              Usable(r) && AutoEnabled(r) && !Inside(cfg, r) && SwitchOn(r) && !s.manualOverride && !ChangedAfterAutoOn(s, r)
    ensures o.result == Err(CommandFailed) <==> o.command != NoCommand && !r.commandSucceeds
    // Usable readings with no failed command always succeed.
    ensures Usable(r) && (o.command == NoCommand || r.commandSucceeds) ==> o.result.Ok?
    // lastAutoOn changes only through a turn-on that went through.
    ensures o.state.lastAutoOn == if o.command == TurnOn && r.commandSucceeds then Some(r.now) else s.lastAutoOn
    // The override is raised only by a late switch change, and cleared only by a turn-on that went through.
    ensures o.state.manualOverride && !s.manualOverride ==> ChangedAfterAutoOn(s, r)
    ensures s.manualOverride && !o.state.manualOverride ==> o.command == TurnOn && r.commandSucceeds
    ensures o.command == TurnOn && r.commandSucceeds ==> !o.state.manualOverride
    ensures Usable(r) && ChangedAfterAutoOn(s, r) ==> o.state.manualOverride
    // The low-power timer.
    ensures Usable(r) ==> (o.state.powerLowSince.Some? <==> PowerLow(cfg, r))
    ensures PowerLow(cfg, r) && s.powerLowSince.Some? ==> o.state.powerLowSince == s.powerLowSince
    ensures PowerLow(cfg, r) && s.powerLowSince.None? ==> o.state.powerLowSince == Some(r.now)
    // The snapshot reports the switch as read, and the override as it stands after the tick.
    ensures o.result.Ok? ==> Usable(r) && o.result.value == Snapshot(
              SwitchOn(r), Watts(r), Inside(cfg, r), o.state.manualOverride, IsMalfunction(o.state.powerLowSince, r.now))
    // A streak that starts on this tick is never yet a malfunction.
    ensures o.result.Ok? && s.powerLowSince.None? ==> !o.result.value.isMalfunction
  {
    if r.switchState.None? || r.powerState.None? then
      Outcome(Err(MissingState), NoCommand, s, false)
    else if r.powerState.value.Unavailable? || r.powerState.value.Unknown? then
      Outcome(Err(PowerUnavailable), NoCommand, s, false)
    else if r.powerState.value.NotNumeric? then
      Outcome(Err(PowerNotNumeric), NoCommand, s, false)
    else
      var isOn := r.switchState.value.state == "on";
      var power := r.powerState.value.watts;
      var inside := InsideSchedule(cfg.startTime, cfg.endTime, r.timeOfDay);
      // the override latch, which saves whenever its condition holds
      var latch := ChangedAfterAutoOn(s, r);
      var manualOverride := s.manualOverride || latch;
      // the low-power timer
      var low := PowerLow(cfg, r);
      var powerLowSince := LowTimer(s.powerLowSince, low, r.now);
      var timerSaves := TimerSaves(s.powerLowSince, low);
      var malfunction := IsMalfunction(powerLowSince, r.now);
      var command := Decide(AutoEnabled(r), inside, isOn, manualOverride);
      var before := Record(s.lastAutoOn, powerLowSince, manualOverride);
      if command != NoCommand && !r.commandSucceeds then
        Outcome(Err(CommandFailed), command, before, latch || timerSaves)
      else
        var after := AfterCommand(before, command, r.now);
        Outcome(Ok(Snapshot(isOn, power, inside, after.manualOverride, malfunction)), command, after,
                latch || timerSaves || command != NoCommand)
  }

  /** Running a tick twice on the same readings changes nothing more than running it once. */
  lemma TickIdempotent(cfg: Config, s: Record, r: Readings)
    ensures Tick(cfg, Tick(cfg, s, r).state, r) == Tick(cfg, s, r).(saved := Tick(cfg, Tick(cfg, s, r).state, r).saved)
  {
  }

  /**
   * Steady state: automatic mode, inside the schedule, switch already on and
   * power at or above the minimum. No command is issued, and a later tick
   * that reads the same devices at another time still inside the schedule
   * issues none either and leaves the fields as the first tick left them.
   */
  lemma SteadyStateIsQuiet(cfg: Config, s: Record, r: Readings, r': Readings)
    requires Usable(r) && AutoEnabled(r) && Inside(cfg, r) && SwitchOn(r) && Watts(r) >= cfg.minimumPower
    requires r' == r.(now := r'.now, timeOfDay := r'.timeOfDay) && Inside(cfg, r')
    ensures Tick(cfg, s, r).command == NoCommand
    ensures Tick(cfg, Tick(cfg, s, r).state, r').command == NoCommand
    ensures Tick(cfg, Tick(cfg, s, r).state, r').state == Tick(cfg, s, r).state
  {
  }

  /**
   * Before any automatic turn-on has been recorded there is nothing to
   * compare a switch change against, so a manual turn-on outside the
   * schedule is not seen as an override and is switched off at once.
   */
  lemma ManualTurnOnBeforeAnyAutoOn(cfg: Config, s: Record, r: Readings)
    requires s.lastAutoOn.None? && !s.manualOverride
    requires Usable(r) && AutoEnabled(r) && !Inside(cfg, r) && SwitchOn(r)
    ensures Tick(cfg, s, r).command == TurnOff
    ensures !Tick(cfg, s, r).state.manualOverride
  {
  }

  /** The key under which a coordinator's fields are stored. */
  function StorageKey(name: string): string {
    Domain + "_" + Utils.Slugify(name)
  }

  /**
   * A coordinator named with the slug of another's name uses the same
   * storage key, so the two would share their saved fields.
   */
  lemma SlugNameSharesKey(name: string)
    ensures StorageKey(Utils.Slugify(name)) == StorageKey(name)
  {
    Utils.SlugifyIdempotent(name);
  }

  /** What loading `saved` over the fields `current` gives: absent timestamps leave the field as it was. */
  function Restore(current: Record, saved: Record): Record {
    Record(
      if saved.lastAutoOn.Some? then saved.lastAutoOn else current.lastAutoOn,
      if saved.powerLowSince.Some? then saved.powerLowSince else current.powerLowSince,
      saved.manualOverride)
  }

  /** Loading a saved record into a freshly constructed coordinator reproduces it exactly. */
  lemma RestoreIntoInitial(saved: Record)
    ensures Restore(Initial, saved) == saved
  {
  }

  // ---------------------------------------------------------------------
  // The coordinator object
  // ---------------------------------------------------------------------

  /** The storage backend: one saved record per storage key. */
  class Disk {
    var records: map<string, Record>

    constructor (records: map<string, Record>)
      ensures this.records == records
    {
      this.records := records;
    }
  }

  class TowelWarmerCoordinator {
    const config: Config
    const disk: Disk
    const storageKey: string
    var lastAutoOn: Option<int>
    var powerLowSince: Option<int>
    var manualOverride: bool

    function Fields(): Record
      reads this
    {
      Record(lastAutoOn, powerLowSince, manualOverride)
    }

    /** The stored record is the in-memory one. */
    predicate Synced()
      reads this, disk
    {
      storageKey in disk.records && disk.records[storageKey] == Fields()
    }

    /** What the disk holds after a step: the fields saved under the key if the step saved, the old contents otherwise. */
    ghost predicate SavedIf(saved: bool, before: map<string, Record>)
      reads this, disk
    {
      disk.records == if saved then before[storageKey := Fields()] else before
    }

    constructor (config: Config, disk: Disk)
      ensures this.config == config && this.disk == disk
      ensures storageKey == StorageKey(config.name)
      ensures Fields() == Initial
    {
      this.config := config;
      this.disk := disk;
      this.storageKey := StorageKey(config.name);
      lastAutoOn := None;
      powerLowSince := None;
      manualOverride := false;
    }

    method SavePersistentData()
      modifies disk
      ensures disk.records == old(disk.records)[storageKey := Fields()]
      ensures Synced()
    {
      disk.records := disk.records[storageKey := Record(lastAutoOn, powerLowSince, manualOverride)];
    }

    method LoadPersistentData()
      modifies this
      ensures Fields() == if storageKey in disk.records then Restore(old(Fields()), disk.records[storageKey]) else old(Fields())
    {
      if storageKey in disk.records {
        var data := disk.records[storageKey];
        if data.lastAutoOn.Some? {
          lastAutoOn := data.lastAutoOn;
        }
        if data.powerLowSince.Some? {
          powerLowSince := data.powerLowSince;
        }
        manualOverride := data.manualOverride;
      }
    }

    /** The override latch: a switch change well after the last automatic turn-on raises the flag, and saves. */
    method LatchOverride(r: Readings)
      requires Usable(r)
      modifies this, disk
      ensures Fields() == old(Fields()).(manualOverride := old(manualOverride) || ChangedAfterAutoOn(old(Fields()), r))
      ensures SavedIf(ChangedAfterAutoOn(old(Fields()), r), old(disk.records))
    {
      var isOn := r.switchState.value.state == "on";
      if isOn && lastAutoOn.Some? {
        if r.switchState.value.lastChanged - lastAutoOn.value > OverrideToleranceSeconds {
          manualOverride := true;
          SavePersistentData();
        }
      }
    }

    /** The low-power timer: started when power drops, kept while it stays low, cleared (and saved) otherwise. */
    method TrackLowPower(r: Readings) returns (isMalfunction: bool)
      requires Usable(r)
      modifies this, disk
      ensures Fields() == old(Fields()).(powerLowSince := LowTimer(old(powerLowSince), PowerLow(config, r), r.now))
      ensures SavedIf(TimerSaves(old(powerLowSince), PowerLow(config, r)), old(disk.records))
      ensures isMalfunction == IsMalfunction(powerLowSince, r.now)
    {
      var isOn := r.switchState.value.state == "on";
      var power := r.powerState.value.watts;
      isMalfunction := false;
      if isOn && power < config.minimumPower {
        if powerLowSince.None? {
          powerLowSince := Some(r.now);
          SavePersistentData();
        }
      } else {
        powerLowSince := None;
        SavePersistentData();
      }
      if powerLowSince.Some? {
        if r.now - powerLowSince.value >= MalfunctionDwellSeconds {
          isMalfunction := true;
        }
      }
    }

    /** The automatic control: turn on inside the schedule, turn off outside it unless overridden. */
    method Control(r: Readings) returns (command: Command, sent: bool)
      requires Usable(r)
      modifies this, disk
      ensures command == Decide(AutoEnabled(r), Inside(config, r), SwitchOn(r), old(manualOverride))
      ensures sent == (command == NoCommand || r.commandSucceeds)
      ensures Fields() == if !sent then old(Fields()) else AfterCommand(old(Fields()), command, r.now)
      ensures SavedIf(command != NoCommand && sent, old(disk.records))
    {
      var autoEnabled := r.controlState.Some? && r.controlState.value == "on";
      var isOn := r.switchState.value.state == "on";
      var inside := InsideSchedule(config.startTime, config.endTime, r.timeOfDay);
      command := NoCommand;
      sent := true;
      if autoEnabled {
        if inside && !isOn {
          command := TurnOn;
          if !r.commandSucceeds {
            return command, false;
          }
          lastAutoOn := Some(r.now);
          manualOverride := false;
          SavePersistentData();
        } else if !inside && isOn && !manualOverride {
          command := TurnOff;
          if !r.commandSucceeds {
            return command, false;
          }
          manualOverride := false;
          SavePersistentData();
        }
      }
    }

    /** One tick of the control loop. */
    method UpdateData(r: Readings) returns (result: Result<Snapshot, TickError>, command: Command)
      modifies this, disk
      ensures var o := Tick(config, old(Fields()), r);
        result == o.result && command == o.command && Fields() == o.state && SavedIf(o.saved, old(disk.records))
      ensures old(Synced()) ==> Synced()
    {
      command := NoCommand;
      if r.switchState.None? || r.powerState.None? {
        return Err(MissingState), command;
      }
      if r.powerState.value.Unavailable? || r.powerState.value.Unknown? {
        return Err(PowerUnavailable), command;
      }
      if r.powerState.value.NotNumeric? {
        return Err(PowerNotNumeric), command;
      }
      ghost var s := Fields();
      ghost var records := disk.records;
      var isOn := r.switchState.value.state == "on";
      var power := r.powerState.value.watts;
      var inside := InsideSchedule(config.startTime, config.endTime, r.timeOfDay);

      LatchOverride(r);
      ghost var latch := ChangedAfterAutoOn(s, r);
      var isMalfunction := TrackLowPower(r);
      ghost var timerSaves := TimerSaves(s.powerLowSince, PowerLow(config, r));
      assert SavedIf(latch || timerSaves, records);
      ghost var before := Fields();
      var sent;
      command, sent := Control(r);
      assert SavedIf(latch || timerSaves || (command != NoCommand && sent), records);
      if !sent {
        return Err(CommandFailed), command;
      }
      result := Ok(Snapshot(isOn, power, inside, manualOverride, isMalfunction));
    }
  }

  /**
   * A restart: the old coordinator saves, a new one is constructed with the
   * same configuration over the same storage and loads; it ends up with
   * exactly the old one's fields.
   */
  method Restart(c: TowelWarmerCoordinator) returns (c': TowelWarmerCoordinator)
    requires c.storageKey == StorageKey(c.config.name)
    modifies c.disk
    ensures fresh(c') && c'.config == c.config && c'.disk == c.disk
    ensures c'.Fields() == c.Fields()
    ensures c.disk.records == old(c.disk.records)[c.storageKey := c.Fields()]
    ensures c'.Synced()
  {
    c.SavePersistentData();
    c' := new TowelWarmerCoordinator(c.config, c.disk);
    c'.LoadPersistentData();
    RestoreIntoInitial(c.Fields());
  }
}
