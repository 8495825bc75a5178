/** What the history kept beside the broker's state says happened, said of the steps themselves. */
module History {
  import opened Wrappers
  import opened Topology
  import opened Consumer
  import opened BrokerRun
  import opened NoLoss

  /** A completed handler run on this copy or a descendant of it. */
  predicate Completes(s: State, step: Step, a: Tag) {
    step.Handle? && step.ok && step.tag in s.live && a in s.live[step.tag].lineage
  }

  /** The acknowledgement of a completed run on the message published as `r` reaches the broker. */
  predicate Finishes(s: State, step: Step, r: Tag) {
    step.Apply? && Out(s, step.channel) != [] && Out(s, step.channel)[0].Ack?
    && var t := Out(s, step.channel)[0].tag; t in s.live && In(s.live[t], Succeeded) && s.live[t].root == r
  }

  /** Failed handler runs, in these steps, on copies of the message published as `r`. */
  function FailedRuns(w: World, s: State, steps: seq<Step>, r: Tag): nat
    requires Possible(w, s, steps)
    decreases |steps|
  {
    if steps == [] then 0
    else (if steps[0].Handle? && !steps[0].ok && s.live[steps[0].tag].root == r then 1 else 0)
         + FailedRuns(w, Next(w, s, steps[0]), steps[1..], r)
  }

  predicate Happened(w: World, s: State, steps: seq<Step>, what: (State, Step) -> bool)
    requires Possible(w, s, steps)
    decreases |steps|
  {
    steps != [] && (what(s, steps[0]) || Happened(w, Next(w, s, steps[0]), steps[1..], what))
  }

  lemma EnqueueHistory(w: World, s: State, m: Message, lineage: set<Tag>, root: Option<Tag>)
    ensures var s' := Enqueue(w, s, m, lineage, root);
            s'.served == s.served && s'.failures == s.failures && s'.finished == s.finished
  {
  }

  lemma DeadLetteringHistory(w: World, s: State, t: Tag, exit: Exit)
    requires t in s.live
    ensures var s' := DeadLettering(w, s, t, exit);
            s'.served == s.served && s'.failures == s.failures && s'.finished == s.finished
  {
  }

  lemma PerformHistory(w: World, s: State, c: Command)
    ensures var s' := Perform(w, s, c);
            && s'.served == s.served && s'.failures == s.failures
            && forall r :: r in s'.finished <==>
                 r in s.finished || (c.Ack? && c.tag in s.live && In(s.live[c.tag], Succeeded) && s.live[c.tag].root == r)
  {
    match c {
      case Publish(cause, m) =>
        EnqueueHistory(w, s, m, {}, None);
        if cause.Some? && cause.value in s.live && s.live[cause.value].place.Held? {
          var t := cause.value;
          EnqueueHistory(w, Move(s, t, Held(s.live[t].place.channel, Republished)), m, s.live[t].lineage, Some(s.live[t].root));
        }
      case Ack(_) =>
      case Nack(t, requeue) =>
        if t in s.live && !requeue { DeadLetteringHistory(w, s, t, DeadLettered); }
    }
  }

  lemma StepServed(w: World, s: State, step: Step, a: Tag)
    requires Enabled(w, s, step)
    ensures a in Next(w, s, step).served <==> a in s.served || Completes(s, step, a)
  {
    if step.Apply? { PerformHistory(w, Taken(s, step.channel), Out(s, step.channel)[0]); }
  }

  lemma StepFinished(w: World, s: State, step: Step, r: Tag)
    requires Enabled(w, s, step)
    ensures r in Next(w, s, step).finished <==> r in s.finished || Finishes(s, step, r)
  {
    if step.Apply? { PerformHistory(w, Taken(s, step.channel), Out(s, step.channel)[0]); }
  }

  lemma StepFailures(w: World, s: State, step: Step, r: Tag)
    requires Enabled(w, s, step)
    ensures Failures(Next(w, s, step), r)
         == Failures(s, r) + if step.Handle? && !step.ok && s.live[step.tag].root == r then 1 else 0
  {
    if step.Apply? { PerformHistory(w, Taken(s, step.channel), Out(s, step.channel)[0]); }
  }

  /** Along any run, a copy comes to count as served exactly by a completed handler run on it or a descendant, and a
      message as finished exactly by the acknowledgement of such a run; failures are the failed runs, one each. */
  lemma {:induction false} HistoryIsTrue(w: World, s: State, steps: seq<Step>, r: Tag)
    requires Possible(w, s, steps)
    ensures r in Exec(w, s, steps).served <==>
              r in s.served || Happened(w, s, steps, (z: State, step: Step) => Completes(z, step, r))
    ensures r in Exec(w, s, steps).finished <==>
              r in s.finished || Happened(w, s, steps, (z: State, step: Step) => Finishes(z, step, r))
    ensures Failures(Exec(w, s, steps), r) == Failures(s, r) + FailedRuns(w, s, steps, r)
    decreases |steps|
  {
    if steps != [] {
      StepServed(w, s, steps[0], r);
      StepFinished(w, s, steps[0], r);
      StepFailures(w, s, steps[0], r);
      HistoryIsTrue(w, Next(w, s, steps[0]), steps[1..], r);
    }
  }
}
