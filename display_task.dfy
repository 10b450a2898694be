/** The display task: the state label it shows for each reading it receives. */
module DisplayTask {
  import opened Types
  import opened Risk
  import Queues
  import AlertTask

  /** The second text line of the display: "Alerta" or "Normal". */
  function StateLabel(r: Reading): (s: string)
    ensures s == "Alerta" || s == "Normal"
    ensures s == "Alerta" <==> Classify(r) == Alert
  {
    if Classify(r) == Alert then "Alerta" else "Normal"
  }

  /**
   * Both consumers evaluate the same predicate: the display shows "Alerta" exactly when the
   * alert task, handed the same reading, takes its alert branch and flips its blink phase.
   */
  lemma DisplayAgreesWithAlertTask(blink: bool, r: Reading)
    ensures StateLabel(r) == "Alerta" <==> AlertTask.React(blink, r).leds == AlertTask.Warning
    ensures StateLabel(r) == "Alerta" <==> AlertTask.Step(blink, Some(r)).0 != blink
    ensures StateLabel(r) == "Normal" <==> AlertTask.React(blink, r).leds == AlertTask.Calm
  {
  }

  /**
   * One wait of the display loop. The receive blocks without timeout; an empty queue is
   * modelled as None (still waiting, nothing consumed), otherwise the oldest reading is taken
   * and its label drawn. Borders and the converted values are not modelled.
   */
  method DisplayIteration(queue: Queues.BoundedQueue) returns (shown: Option<string>)
    requires queue.Valid()
    modifies queue.Repr
    ensures queue.Valid() && queue.Repr == old(queue.Repr)
    ensures old(queue.Contents) == [] ==> shown == None && queue.Contents == []
    ensures old(queue.Contents) != [] ==>
      && shown == Some(StateLabel(old(queue.Contents)[0]))
      && queue.Contents == old(queue.Contents)[1..]
  {
    var rx := queue.Receive();
    match rx {
      case None =>
        shown := None;
      case Some(joydata) =>
        var estado := if joydata.waterLevel >= WaterThreshold || joydata.rainVolume >= RainThreshold
                      then "Alerta" else "Normal";
        shown := Some(estado);
    }
  }

  /**
   * The scenario (1500, 1000), (3000, 1000), (1500, 1000): the display reads Normal, Alerta,
   * Normal and the alert task's LED goes calm, warning, calm.
   */
  lemma NormalAlertNormalScenario(blink: bool)
    ensures StateLabel(Reading(1500, 1000)) == "Normal"
    ensures StateLabel(Reading(3000, 1000)) == "Alerta"
    ensures AlertTask.Step(blink, Some(Reading(1500, 1000))).1.value.leds == AlertTask.Calm
    ensures AlertTask.Step(blink, Some(Reading(3000, 1000))).1.value.leds == AlertTask.Warning
    ensures AlertTask.Step(blink, Some(Reading(3000, 1000))).1.value.triangleOn == blink
  {
  }
}
