/**
 * The alert task: one reading (or one receive timeout) per loop iteration drives the RGB LED,
 * the matrix icon and the buzzer pair, and flips a blink phase after every alert cycle.
 */
module AlertTask {
  import opened Types
  import opened Risk
  import Matrix
  import Buzzer
  import Queues

  /** Levels written to the red, green and blue LED pins. */
  datatype Leds = Leds(red: int, green: int, blue: int)

  /** The channel-A level written to each of the two buzzer slices (records the writes, not the sound). */
  datatype DutyPair = DutyPair(slice1: int, slice2: int)

  /** Everything one handled reading writes, in the source's order within each field. */
  datatype AlertOutputs = AlertOutputs(
    leds: Leds,
    triangleOn: bool,
    frame: seq<u32>,
    volumeLevel: u8,
    volume: Buzzer.VolumeConfig,
    duty: seq<DutyPair>)

  const Warning: Leds := Leds(1, 0, 0)
  const Calm: Leds := Leds(0, 0, 1)

  /** The outputs for one received reading, given the blink phase before it. */
  function React(blink: bool, r: Reading): (o: AlertOutputs)
    ensures Classify(r) == Alert ==>
      && o.leds == Leds(1, 0, 0) && o.triangleOn == blink && o.volumeLevel == 2
      && o.duty == [DutyPair(37499, 37499), DutyPair(0, 0)]
    ensures Classify(r) == Normal ==>
      && o.leds == Leds(0, 0, 1) && !o.triangleOn && o.volumeLevel == 1
      && o.duty == [DutyPair(0, 0)]
    ensures o.frame == Matrix.Emit(Matrix.TriangleBuffer(o.triangleOn))
    ensures o.volume == Buzzer.SetVolumeLevel(o.volumeLevel)
  {
    Buzzer.AlertDutyValue();
    if Classify(r) == Alert then
      AlertOutputs(Warning, blink, Matrix.Emit(Matrix.TriangleBuffer(blink)), Buzzer.LevelAlert,
                   Buzzer.SetVolumeLevel(Buzzer.LevelAlert),
                   [DutyPair(Buzzer.AlertDuty, Buzzer.AlertDuty), DutyPair(0, 0)])
    else
      AlertOutputs(Calm, false, Matrix.Emit(Matrix.TriangleBuffer(false)), Buzzer.LevelNormal,
                   Buzzer.SetVolumeLevel(Buzzer.LevelNormal), [DutyPair(0, 0)])
  }

  /** One loop iteration as a pure step: the new blink phase and what was written, if anything. */
  function Step(blink: bool, rx: Option<Reading>): (s: (bool, Option<AlertOutputs>))
    ensures rx == None ==> s == (blink, None)
    ensures rx != None ==> s.1 == Some(React(blink, rx.value))
    ensures rx != None && Classify(rx.value) == Alert ==> s.0 == !blink
    ensures rx != None && Classify(rx.value) == Normal ==> s.0 == blink
  {
    match rx
    case None => (blink, None)
    case Some(r) => (if Classify(r) == Alert then !blink else blink, Some(React(blink, r)))
  }

  /** The blink phase after a run of loop iterations. */
  function FinalBlink(blink: bool, inputs: seq<Option<Reading>>): bool
    decreases |inputs|
  {
    if inputs == [] then blink
    else Step(FinalBlink(blink, inputs[..|inputs| - 1]), inputs[|inputs| - 1]).0
  }

  /** What a run of loop iterations writes, one entry per iteration. */
  function Trace(blink: bool, inputs: seq<Option<Reading>>): seq<Option<AlertOutputs>>
    decreases |inputs|
  {
    if inputs == [] then []
    else
      var before := inputs[..|inputs| - 1];
      Trace(blink, before) + [Step(FinalBlink(blink, before), inputs[|inputs| - 1]).1]
  }

  /** Extending a run by one iteration steps its final phase once and appends that step's outputs. */
  lemma RunExtend(blink: bool, inputs: seq<Option<Reading>>, i: nat)
    requires i < |inputs|
    ensures FinalBlink(blink, inputs[..i + 1]) == Step(FinalBlink(blink, inputs[..i]), inputs[i]).0
    ensures Trace(blink, inputs[..i + 1]) == Trace(blink, inputs[..i]) + [Step(FinalBlink(blink, inputs[..i]), inputs[i]).1]
  {
    assert inputs[..i + 1][..i] == inputs[..i];
  }

  /** Entry i of a trace is the step taken from the phase the first i iterations left behind. */
  lemma {:induction false} TraceAt(blink: bool, inputs: seq<Option<Reading>>, i: nat)
    requires i < |inputs|
    ensures |Trace(blink, inputs)| == |inputs|
    ensures Trace(blink, inputs)[i] == Step(FinalBlink(blink, inputs[..i]), inputs[i]).1
    decreases |inputs|
  {
    var before := inputs[..|inputs| - 1];
    if i < |inputs| - 1 {
      TraceAt(blink, before, i);
      assert before[..i] == inputs[..i];
    } else {
      TraceLength(blink, before);
    }
  }

  lemma {:induction false} TraceLength(blink: bool, inputs: seq<Option<Reading>>)
    ensures |Trace(blink, inputs)| == |inputs|
    decreases |inputs|
  {
    if inputs != [] {
      TraceLength(blink, inputs[..|inputs| - 1]);
    }
  }

  predicate IsAlertReading(rx: Option<Reading>) {
    rx.Some? && Classify(rx.value) == Alert
  }

  /** The number of iterations that took the alert branch. */
  function AlertCount(inputs: seq<Option<Reading>>): nat
    decreases |inputs|
  {
    if inputs == [] then 0
    else AlertCount(inputs[..|inputs| - 1]) + (if IsAlertReading(inputs[|inputs| - 1]) then 1 else 0)
  }

  /**
   * The blink phase is the starting phase flipped once per alert reading: timeouts and normal
   * readings leave it alone, so it depends only on the parity of the alert readings.
   */
  lemma {:induction false} BlinkParity(blink: bool, inputs: seq<Option<Reading>>)
    ensures FinalBlink(blink, inputs) == (if AlertCount(inputs) % 2 == 0 then blink else !blink)
    decreases |inputs|
  {
    if inputs != [] {
      BlinkParity(blink, inputs[..|inputs| - 1]);
    }
  }

  /**
   * Under sustained alert, from the phase `blink_state` starts with: iteration i draws the icon
   * exactly when i is odd, and every iteration drives the buzzers to 37499 and then to 0.
   */
  lemma SustainedAlertAlternates(inputs: seq<Option<Reading>>, i: nat)
    requires forall k :: 0 <= k < |inputs| ==> IsAlertReading(inputs[k])
    requires i < |inputs|
    ensures |Trace(false, inputs)| == |inputs|
    ensures Trace(false, inputs)[i].Some?
    ensures Trace(false, inputs)[i].value.triangleOn == (i % 2 == 1)
    ensures Trace(false, inputs)[i].value.duty == [DutyPair(37499, 37499), DutyPair(0, 0)]
  {
    TraceAt(false, inputs, i);
    BlinkParity(false, inputs[..i]);
    AlertPrefixCount(inputs, i);
  }

  /** Every iteration of an all-alert prefix of length i took the alert branch. */
  lemma {:induction false} AlertPrefixCount(inputs: seq<Option<Reading>>, i: nat)
    requires forall k :: 0 <= k < |inputs| ==> IsAlertReading(inputs[k])
    requires i <= |inputs|
    ensures AlertCount(inputs[..i]) == i
  {
    if i > 0 {
      AlertPrefixCount(inputs, i - 1);
      assert inputs[..i][..i - 1] == inputs[..i - 1];
    }
  }

  /** Two consecutive alert readings restore the blink phase; the icon is drawn on, then off, or vice versa. */
  lemma TwoAlertsRestoreBlink(blink: bool, r1: Reading, r2: Reading)
    requires Classify(r1) == Alert && Classify(r2) == Alert
    ensures Step(Step(blink, Some(r1)).0, Some(r2)).0 == blink
    ensures Step(blink, Some(r1)).1.value.triangleOn != Step(Step(blink, Some(r1)).0, Some(r2)).1.value.triangleOn
  {
  }

  /** The task's state: `blink_state`, which persists across loop iterations. */
  class AlertController {
    var blinkState: bool

    constructor ()
      ensures !blinkState
    {
      blinkState := false;
    }

    /**
     * The body of the task's loop after the receive: `rx` is the reading received, or None
     * when the 20 ms receive timed out. The delays are not modelled.
     */
    method HandleReceive(rx: Option<Reading>) returns (out: Option<AlertOutputs>)
      modifies this
      ensures (blinkState, out) == Step(old(blinkState), rx)
    {
      match rx {
        case None =>
          out := None;
        case Some(joydata) =>
          if joydata.waterLevel >= WaterThreshold || joydata.rainVolume >= RainThreshold {
            var frame := Matrix.DrawTriangle(blinkState);
            var volume := Buzzer.SetVolumeLevel(2);
            out := Some(AlertOutputs(Leds(1, 0, 0), blinkState, frame, 2, volume,
                                     [DutyPair(Buzzer.AlertDuty, Buzzer.AlertDuty), DutyPair(0, 0)]));
            blinkState := !blinkState;
          } else {
            var frame := Matrix.DrawTriangle(false);
            var volume := Buzzer.SetVolumeLevel(1);
            out := Some(AlertOutputs(Leds(0, 0, 1), false, frame, 1, volume, [DutyPair(0, 0)]));
          }
      }
    }

    /** One full loop iteration: receive from the alert queue (empty means timeout), then handle. */
    method Iterate(queue: Queues.BoundedQueue) returns (out: Option<AlertOutputs>)
      requires queue.Valid() && this !in queue.Repr
      modifies this, queue.Repr
      ensures queue.Valid() && queue.Repr == old(queue.Repr)
      ensures old(queue.Contents) == [] ==> queue.Contents == [] && out == None && blinkState == old(blinkState)
      ensures old(queue.Contents) != [] ==>
        && queue.Contents == old(queue.Contents)[1..]
        && (blinkState, out) == Step(old(blinkState), Some(old(queue.Contents)[0]))
    {
      var rx := queue.Receive();
      out := HandleReceive(rx);
    }

    /** A finite prefix of the task's endless loop, over the receive outcomes in order. */
    method Run(inputs: seq<Option<Reading>>) returns (outs: seq<Option<AlertOutputs>>)
      modifies this
      ensures blinkState == FinalBlink(old(blinkState), inputs)
      ensures outs == Trace(old(blinkState), inputs)
    {
      ghost var start := blinkState;
      outs := [];
      var i := 0;
      while i < |inputs|
        invariant 0 <= i <= |inputs|
        invariant blinkState == FinalBlink(start, inputs[..i])
        invariant outs == Trace(start, inputs[..i])
      {
        RunExtend(start, inputs, i);
        var out := HandleReceive(inputs[i]);
        outs := outs + [out];
        i := i + 1;
      }
      assert inputs[..|inputs|] == inputs;
    }
  }
}
