/**
 * Sequences of ticks. `Run` folds the tick specification over a sequence of
 * readings, and the lemmas here state what holds across many ticks: how a
 * low-power streak keeps its origin and when it becomes a malfunction, how
 * long the manual override lasts, and which tick `lastAutoOn` remembers.
 */
module TickRuns {
  import opened Wrappers
  import opened Coordinator

  /** The fields after ticking through `rs` in order, starting from `s`. */
  function Run(cfg: Config, s: Record, rs: seq<Readings>): Record
    decreases |rs|
  {
    if rs == [] then s else Run(cfg, Tick(cfg, s, rs[0]).state, rs[1..])
  }

  /** The outcome of the last tick of a non-empty run. */
  function LastOutcome(cfg: Config, s: Record, rs: seq<Readings>): Outcome
    requires rs != []
  {
    Tick(cfg, Run(cfg, s, rs[..|rs| - 1]), rs[|rs| - 1])
  }

  /** A tick whose readings make it issue a turn-on that goes through, whatever the fields. */
  predicate TurnsOn(cfg: Config, r: Readings) {
    Usable(r) && AutoEnabled(r) && Inside(cfg, r) && !SwitchOn(r) && r.commandSucceeds
  }

  predicate AllPowerLow(cfg: Config, rs: seq<Readings>) {
    forall i :: 0 <= i < |rs| ==> PowerLow(cfg, rs[i])
  }

  /** The time of the last turn-on in `rs` that goes through, or `since` when there is none. */
  function LastTurnOn(cfg: Config, since: Option<int>, rs: seq<Readings>): Option<int>
    decreases |rs|
  {
    if rs == [] then since
    else LastTurnOn(cfg, if TurnsOn(cfg, rs[0]) then Some(rs[0].now) else since, rs[1..])
  }

  /** Whether a tick turns the warmer on does not depend on the fields. */
  lemma TurnOnIgnoresFields(cfg: Config, s: Record, r: Readings)
    ensures Tick(cfg, s, r).command == TurnOn && r.commandSucceeds <==> TurnsOn(cfg, r)
  {
  }

  /**
   * Through a run of low-power readings the streak keeps the start it
   * had, or, if none was running, the time of the first reading.
   */
  lemma {:induction false} LowStreakOrigin(cfg: Config, s: Record, rs: seq<Readings>)
    requires rs != [] && AllPowerLow(cfg, rs)
    ensures Run(cfg, s, rs).powerLowSince == if s.powerLowSince.Some? then s.powerLowSince else Some(rs[0].now)
    decreases |rs|
  {
    var s' := Tick(cfg, s, rs[0]).state;
    assert PowerLow(cfg, rs[0]);
    assert s'.powerLowSince == if s.powerLowSince.Some? then s.powerLowSince else Some(rs[0].now);
    if |rs| > 1 {
      assert AllPowerLow(cfg, rs[1..]) by {
        forall i | 0 <= i < |rs| - 1
          ensures PowerLow(cfg, rs[1..][i])
        {
          assert rs[1..][i] == rs[i + 1];
        }
      }
      LowStreakOrigin(cfg, s', rs[1..]);
    } else {
      assert rs[1..] == [];
    }
  }

  /**
   * Starting with no streak, a run of low-power readings is reported as a
   * malfunction on its last tick exactly when that tick comes at least the
   * dwell time after the first.
   */
  lemma MalfunctionAfterDwell(cfg: Config, s: Record, rs: seq<Readings>)
    requires rs != [] && AllPowerLow(cfg, rs) && s.powerLowSince.None?
    requires LastOutcome(cfg, s, rs).result.Ok?
    ensures LastOutcome(cfg, s, rs).result.value.isMalfunction <==> rs[|rs| - 1].now - rs[0].now >= MalfunctionDwellSeconds
  {
    var n := |rs|;
    var prefix := rs[..n - 1];
    var last := rs[n - 1];
    assert PowerLow(cfg, last);
    if n == 1 {
      assert prefix == [];
      assert Run(cfg, s, prefix) == s;
    } else {
      assert AllPowerLow(cfg, prefix) by {
        forall i | 0 <= i < n - 1
          ensures PowerLow(cfg, prefix[i])
        {
          assert prefix[i] == rs[i];
        }
      }
      LowStreakOrigin(cfg, s, prefix);
      assert prefix[0] == rs[0];
    }
  }

  /** An override stays raised through every tick that does not turn the warmer on. */
  lemma {:induction false} OverrideHolds(cfg: Config, s: Record, rs: seq<Readings>)
    requires s.manualOverride
    requires forall i :: 0 <= i < |rs| ==> !TurnsOn(cfg, rs[i])
    ensures Run(cfg, s, rs).manualOverride
    decreases |rs|
  {
    if rs != [] {
      var s' := Tick(cfg, s, rs[0]).state;
      assert !TurnsOn(cfg, rs[0]);
      assert s'.manualOverride;
      assert forall i :: 0 <= i < |rs[1..]| ==> !TurnsOn(cfg, rs[1..][i]) by {
        forall i | 0 <= i < |rs[1..]|
          ensures !TurnsOn(cfg, rs[1..][i])
        {
          assert rs[1..][i] == rs[i + 1];
        }
      }
      OverrideHolds(cfg, s', rs[1..]);
    }
  }

  /** While the switch is never read as on, no override is ever raised. */
  lemma {:induction false} NoOverrideWhileOff(cfg: Config, s: Record, rs: seq<Readings>)
    requires !s.manualOverride
    requires forall i :: 0 <= i < |rs| ==> !SwitchOn(rs[i])
    ensures !Run(cfg, s, rs).manualOverride
    decreases |rs|
  {
    if rs != [] {
      var s' := Tick(cfg, s, rs[0]).state;
      assert !SwitchOn(rs[0]);
      assert !s'.manualOverride;
      assert forall i :: 0 <= i < |rs[1..]| ==> !SwitchOn(rs[1..][i]) by {
        forall i | 0 <= i < |rs[1..]|
          ensures !SwitchOn(rs[1..][i])
        {
          assert rs[1..][i] == rs[i + 1];
        }
      }
      NoOverrideWhileOff(cfg, s', rs[1..]);
    }
  }

  /** After a run, `lastAutoOn` is the time of the last turn-on that went through, or what it was. */
  lemma {:induction false} LastAutoOnIsLastTurnOn(cfg: Config, s: Record, rs: seq<Readings>)
    ensures Run(cfg, s, rs).lastAutoOn == LastTurnOn(cfg, s.lastAutoOn, rs)
    decreases |rs|
  {
    if rs != [] {
      var s' := Tick(cfg, s, rs[0]).state;
      TurnOnIgnoresFields(cfg, s, rs[0]);
      assert s'.lastAutoOn == if TurnsOn(cfg, rs[0]) then Some(rs[0].now) else s.lastAutoOn;
      LastAutoOnIsLastTurnOn(cfg, s', rs[1..]);
    }
  }
}
