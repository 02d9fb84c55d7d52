/**
 * The status sensor (sensor.py): a priority-ordered reading of the latest
 * snapshot. A malfunction wins over everything; an override or a switch
 * that is on reads as warming; a switch that is off reads as outside
 * warming hours or idle, depending on the schedule.
 */
module Sensor {
  import opened Wrappers
  import opened Coordinator

  datatype Status = Malfunction | Warming | OutsideWarmingHours | Idle {
    /** The text the entity shows. */
    function Label(): string {
      match this
      case Malfunction => "Malfunction"
      case Warming => "Warming"
      case OutsideWarmingHours => "Outside warming hours"
      case Idle => "Idle"
    }
  }

  /** The sensor's value: nothing without data, otherwise the first status whose condition holds. */
  function NativeValue(data: Option<Snapshot>): (v: Option<Status>)
    ensures v.None? <==> data.None?
    ensures v == Some(Malfunction) <==> data.Some? && data.value.isMalfunction
    ensures v == Some(Warming) <==>
              data.Some? && !data.value.isMalfunction && (data.value.manualOverride || data.value.isOn)
    ensures v == Some(OutsideWarmingHours) <==>
              data.Some? && !data.value.isMalfunction && !data.value.manualOverride && !data.value.isOn &&
              !data.value.insideSchedule
    ensures v == Some(Idle) <==>
              data.Some? && !data.value.isMalfunction && !data.value.manualOverride && !data.value.isOn &&
              data.value.insideSchedule
  {
    if data.None? then None
    else if data.value.isMalfunction then Some(Malfunction)
    else if data.value.manualOverride then Some(Warming)
    else if data.value.isOn then Some(Warming)
    else if !data.value.insideSchedule then Some(OutsideWarmingHours)
    else Some(Idle)
  }

  /** The four labels are distinct, so the shown text determines the status. */
  lemma LabelsDistinct(a: Status, b: Status)
    ensures a.Label() == b.Label() <==> a == b
  {
    if a != b {
      match a
      case Malfunction => assert a.Label()[0] == 'M';
      case Warming => assert a.Label()[0] == 'W';
      case OutsideWarmingHours => assert a.Label()[0] == 'O';
      case Idle => assert a.Label()[0] == 'I';
    }
  }

  /** A tick whose snapshot reads as a malfunction saw the switch on and drawing less than the minimum. */
  lemma MalfunctionMeansLowPower(cfg: Config, s: Record, r: Readings)
    requires Tick(cfg, s, r).result.Ok?
    requires NativeValue(Some(Tick(cfg, s, r).result.value)) == Some(Malfunction)
    ensures PowerLow(cfg, r)
  {
    var o := Tick(cfg, s, r);
    assert o.result.value.isMalfunction;
    assert o.state.powerLowSince.Some?;
  }

  /**
   * On the tick that turns the warmer on, the sensor reads idle: the
   * snapshot carries the switch state read before the command, the
   * override has just been cleared, and the switch being off means no
   * low-power streak is running.
   */
  lemma TurnOnTickReadsIdle(cfg: Config, s: Record, r: Readings)
    requires Tick(cfg, s, r).command == TurnOn && r.commandSucceeds
    ensures Tick(cfg, s, r).result.Ok?
    ensures NativeValue(Some(Tick(cfg, s, r).result.value)) == Some(Idle)
  {
    var o := Tick(cfg, s, r);
    assert !PowerLow(cfg, r);
    assert o.state.powerLowSince.None?;
  }
}
