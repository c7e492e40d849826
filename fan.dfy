/**
 * `FanConfig`: a threshold rule on one sensor value and the last fan speed
 * the printer acknowledged. A command is sent only when the rule asks for a
 * speed other than the recorded one, and the recorded speed changes only
 * when the printer answers with HTTP status 200, so a failed command is sent
 * again at the next check.
 *
 * The HTTP request is reduced to the status code it returns; a request that
 * raises has the same effect as a status other than 200.
 */
module Fan {
  import opened Wrappers

  const StatusOk := 200
  const On: real := 1.0
  const Off: real := 0.0

  /** The speed the rule asks for; the threshold itself counts as "on" in both directions. */
  function DesiredSpeed(onAbove: bool, threshold: real, v: real): (speed: real)
    ensures speed == On || speed == Off
    ensures speed == On <==> (onAbove && v >= threshold) || (!onAbove && v <= threshold)
  {
    if (onAbove && v >= threshold) || (!onAbove && v <= threshold) then On else Off
  }

  /** The command sent to the printer, if any, and the speed recorded afterwards. */
  datatype Decision = Decision(command: Option<real>, speed: real)

  /**
   * `check_and_update_fan_speed` on values: a command for the desired speed
   * exactly when it differs from the recorded one; the recorded speed becomes
   * the commanded one only on success.
   */
  function Check(current: real, onAbove: bool, threshold: real, v: real, status: int): (d: Decision)
    ensures d.command.Some? <==> current != DesiredSpeed(onAbove, threshold, v)
    ensures d.command.Some? ==> d.command.value == DesiredSpeed(onAbove, threshold, v)
    ensures d.speed == if d.command.Some? && status == StatusOk then d.command.value else current
  {
    if (onAbove && v >= threshold) || (!onAbove && v <= threshold) then
      if current != 1.0 then Decision(Some(1.0), if status == StatusOk then 1.0 else current)
      else Decision(None, current)
    else
      if current != 0.0 then Decision(Some(0.0), if status == StatusOk then 0.0 else current)
      else Decision(None, current)
  }

  /** Once a command has succeeded, checks that ask for the same speed send nothing more. */
  lemma CheckSettles(current: real, onAbove: bool, threshold: real, v: real, w: real, status: int)
    requires DesiredSpeed(onAbove, threshold, w) == DesiredSpeed(onAbove, threshold, v)
    ensures Check(Check(current, onAbove, threshold, v, StatusOk).speed, onAbove, threshold, w, status).command == None
  {
  }

  /** A failed command leaves the recorded speed alone, so the next check sends the same command again. */
  lemma FailedCommandRetried(current: real, onAbove: bool, threshold: real, v: real, status: int, next: int)
    requires status != StatusOk
    requires Check(current, onAbove, threshold, v, status).command.Some?
    ensures Check(current, onAbove, threshold, v, status).speed == current
    ensures Check(Check(current, onAbove, threshold, v, status).speed, onAbove, threshold, v, next).command
         == Check(current, onAbove, threshold, v, status).command
  {
  }

  /** Whatever the threshold, a value equal to it turns the fan on in both directions. */
  lemma ThresholdInclusive(threshold: real)
    ensures DesiredSpeed(true, threshold, threshold) == On
    ensures DesiredSpeed(false, threshold, threshold) == On
  {
  }

  /** At threshold 50: 49 is off when "on above" and 51 is off otherwise. */
  lemma ThresholdAtFifty()
    ensures DesiredSpeed(true, 50.0, 49.0) == Off
    ensures DesiredSpeed(false, 50.0, 51.0) == Off
  {
  }

  /**
   * A run of checks, one per value, each answered with the status at the
   * same position: the recorded speed at the end and the commands sent.
   */
  function Run(current: real, onAbove: bool, threshold: real, values: seq<real>, statuses: seq<int>): (real, seq<real>)
    requires |values| == |statuses|
  {
    if |values| == 0 then (current, [])
    else
      var (speed, sent) := Run(current, onAbove, threshold, values[..|values| - 1], statuses[..|statuses| - 1]);
      var d := Check(speed, onAbove, threshold, values[|values| - 1], statuses[|statuses| - 1]);
      (d.speed, if d.command.Some? then sent + [d.command.value] else sent)
  }

  /**
   * Debouncing: while every value asks for the same speed and every command
   * succeeds, at most one command is sent over the whole run, exactly one
   * when the speed recorded at the start differs, and the run ends at the
   * desired speed.
   */
  lemma {:induction false} RunSendsAtMostOnce(current: real, onAbove: bool, threshold: real,
                                             values: seq<real>, statuses: seq<int>, desired: real)
    requires |values| == |statuses| > 0
    requires forall i :: 0 <= i < |values| ==> DesiredSpeed(onAbove, threshold, values[i]) == desired
    requires forall i :: 0 <= i < |statuses| ==> statuses[i] == StatusOk
    ensures Run(current, onAbove, threshold, values, statuses).0 == desired
    ensures Run(current, onAbove, threshold, values, statuses).1 == if current != desired then [desired] else []
  {
    var n := |values|;
    if n > 1 {
      RunSendsAtMostOnce(current, onAbove, threshold, values[..n - 1], statuses[..n - 1], desired);
    }
  }

  class FanConfig {
    const name: string
    const triggerSensor: string
    const triggerValue: real
    const triggerOnAbove: bool
    var currentSpeed: real

    constructor (name: string, triggerSensor: string, triggerValue: real, triggerOnAbove: bool)
      ensures this.name == name && this.triggerSensor == triggerSensor
      ensures this.triggerValue == triggerValue && this.triggerOnAbove == triggerOnAbove
      ensures currentSpeed == Off
    {
      this.name := name;
      this.triggerSensor := triggerSensor;
      this.triggerValue := triggerValue;
      this.triggerOnAbove := triggerOnAbove;
      currentSpeed := Off;
    }

    /** Posts the command; `status` is the HTTP status it got back. */
    method SetFanSpeed(speed: real, status: int)
      modifies this
      ensures currentSpeed == if status == StatusOk then speed else old(currentSpeed)
    {
      if status == StatusOk {
        currentSpeed := speed;
      }
    }

    /** Returns the speed it commanded, or `None` when the command was suppressed. */
    method CheckAndUpdateFanSpeed(sensorValue: real, status: int) returns (command: Option<real>)
      modifies this
      ensures var d := Check(old(currentSpeed), triggerOnAbove, triggerValue, sensorValue, status);
        command == d.command && currentSpeed == d.speed
    {
      command := None;
      if (triggerOnAbove && sensorValue >= triggerValue) || (!triggerOnAbove && sensorValue <= triggerValue) {
        if currentSpeed != 1.0 {
          SetFanSpeed(1.0, status);
          command := Some(1.0);
        }
      } else {
        if currentSpeed != 0.0 {
          SetFanSpeed(0.0, status);
          command := Some(0.0);
        }
      }
    }
  }
}
