/** The bound on handler runs is no estimate: a crash-free run in which every handler fails, gone on with for as
    long as it goes on, reaches it exactly. */
module WorstCase {
  import opened Wrappers
  import opened Consumer
  import opened BrokerRun
  import opened NoLoss
  import opened Sums
  import opened Termination

  /** Deliveries, failing handlers, and commands reaching the broker. */
  predicate Fails(step: Step) {
    step.Deliver? || (step.Handle? && !step.ok) || step.Apply?
  }

  predicate AllFail(steps: seq<Step>) {
    forall i | 0 <= i < |steps| :: Fails(steps[i])
  }

  /** Nothing is left in a work queue. */
  ghost predicate Done(w: World, s: State) {
    forall t | t in s.live :: !Working(w, t)
  }

  // -------------------------------------------------------------------------------------------
  // Failing steps lose nothing of the potential.

  ghost predicate Exact(w: World, s: State, step: Step)
    requires Enabled(w, s, step)
  {
    StepCost(HANDLER_RUNS, s, step) + Potential(w, HANDLER_RUNS, 0, Next(w, s, step)) == Potential(w, HANDLER_RUNS, 0, s)
  }

  lemma DeliverExact(w: World, s: State, step: Step)
    requires Reaches(w, s) && step.Deliver? && Enabled(w, s, step)
    ensures Exact(w, s, step)
  {
    DeliveredIsLighter(w, HANDLER_RUNS, 0, step.tag, s.live[step.tag], step.channel);
    WeightsMove(w, HANDLER_RUNS, 0, s, step.tag, Held(step.channel, Running));
  }

  lemma FailureWeighs(w: World, t: Tag, c: Copy)
    requires w.policy.Retry? && Working(w, t) && Attempt(c.message).Int? && In(c, Running)
    ensures 1 + Weight(w, HANDLER_RUNS, 0, t, c.(place := Held(c.place.channel, PhaseAfter(w.policy, c.message, false))))
         == Weight(w, HANDLER_RUNS, 0, t, c)
  {
    var k := Fan(w, c.message);
    assert k * Worth(k, HANDLER_RUNS, 0, 0) == 0;
  }

  lemma HandleExact(w: World, s: State, step: Step)
    requires Reaches(w, s) && step.Handle? && !step.ok && Enabled(w, s, step)
    ensures Exact(w, s, step)
  {
    var t, c := step.tag, s.live[step.tag];
    var place := Held(c.place.channel, PhaseAfter(w.policy, c.message, false));
    assert CopyFits(w, s, t, c);
    FailureWeighs(w, t, c);
    WeightsMove(w, HANDLER_RUNS, 0, s, t, place);
    assert Next(w, s, step).live == Move(s, t, place).live;
  }

  lemma SameWeight(w: World, s: State, ch: nat, live: map<Tag, Copy>)
    requires Out(s, ch) != [] && Next(w, s, Apply(ch)).live == live
    requires Sum(Weights(w, HANDLER_RUNS, 0, live)) == Sum(Weights(w, HANDLER_RUNS, 0, s.live))
    ensures Exact(w, s, Apply(ch))
  {
  }

  lemma RetryExact(w: World, s: State, ch: nat, t: Tag)
    requires Sound(w) && w.policy.Retry? && BooksBalance(s) && Out(s, ch) != []
    requires t in s.live && s.live[t].place == Held(ch, Failed) && Working(w, t)
    requires Placed(w, t, s.live[t]) && Attempt(s.live[t].message).Int?
    requires Out(s, ch)[0] == Command.Publish(Some(t), Retried(s.live[t].message))
    ensures Exact(w, s, Apply(ch))
  {
    RetryIsPaid(w, HANDLER_RUNS, 0, s, ch, t);
    AppliedPublish(w, s, ch, t);
    SameWeight(w, s, ch, Next(w, s, Apply(ch)).live);
  }

  lemma AckExact(w: World, s: State, ch: nat, t: Tag)
    requires Out(s, ch) != [] && Out(s, ch)[0] == Ack(t)
    requires t in s.live && s.live[t].place in {Held(ch, Republished), Held(ch, Succeeded)}
    ensures Exact(w, s, Apply(ch))
  {
    AppliedAck(w, s, ch, t);
    WeightsLeave(w, HANDLER_RUNS, 0, s, t, Acked);
    SameWeight(w, s, ch, Leave(s, t, Acked).live);
  }

  lemma RejectedIsFree(w: World, t: Tag, c: Copy)
    requires In(c, Rejected)
    ensures Weight(w, HANDLER_RUNS, 0, t, c) == 0
  {
  }

  lemma RejectExact(w: World, s: State, ch: nat, t: Tag)
    requires Sound(w) && CopiesFit(w, s) && BooksBalance(s) && Out(s, ch) != [] && Out(s, ch)[0] == Nack(t, false)
    requires t in s.live && s.live[t].place == Held(ch, Rejected) && Working(w, t)
    ensures Exact(w, s, Apply(ch))
  {
    TakenFits(w, s, ch);
    RejectedIsFree(w, t, s.live[t]);
    DeadLetteringWeighs(w, HANDLER_RUNS, 0, Taken(s, ch), t, DeadLettered);
    AppliedNack(w, s, ch, t, false);
    SameWeight(w, s, ch, DeadLettering(w, Taken(s, ch), t, DeadLettered).live);
  }

  lemma ApplyExact(w: World, s: State, step: Step)
    requires Reaches(w, s) && step.Apply? && Enabled(w, s, step)
    ensures Exact(w, s, step)
  {
    var t := HeadIsDue(s, step.channel);
    assert CopyFits(w, s, t, s.live[t]);
    match s.live[t].place.phase {
      case Failed => RetryExact(w, s, step.channel, t);
      case Republished => AckExact(w, s, step.channel, t);
      case Succeeded => AckExact(w, s, step.channel, t);
      case Rejected => RejectExact(w, s, step.channel, t);
    }
  }

  lemma StepExact(w: World, s: State, step: Step)
    requires Reaches(w, s) && Enabled(w, s, step) && Fails(step)
    ensures Exact(w, s, step)
  {
    match step {
      case Deliver(_, _) => DeliverExact(w, s, step);
      case Handle(_, _) => HandleExact(w, s, step);
      case Apply(_) => ApplyExact(w, s, step);
    }
  }

  lemma {:induction false} RunExact(w: World, s: State, steps: seq<Step>)
    requires Reaches(w, s) && Possible(w, s, steps) && AllFail(steps)
    ensures HandlerRuns(steps) + Potential(w, HANDLER_RUNS, 0, Exec(w, s, steps)) == Potential(w, HANDLER_RUNS, 0, s)
    decreases |steps|
  {
    if steps != [] {
      assert forall i | 0 <= i < |steps[1..]| :: steps[1..][i] == steps[i + 1];
      assert Fails(steps[0]);
      StepExact(w, s, steps[0]);
      StepReaches(w, s, steps[0]);
      RunExact(w, Next(w, s, steps[0]), steps[1..]);
    }
  }

  lemma DoneIsWorthless(w: World, s: State)
    requires Done(w, s)
    ensures Potential(w, HANDLER_RUNS, 0, s) == 0
  {
    SumConstant(Weights(w, HANDLER_RUNS, 0, s.live), 0);
  }

  // -------------------------------------------------------------------------------------------
  // Such runs can be gone on with until nothing is left.

  lemma SomethingFails(w: World, s: State, t: Tag) returns (step: Step)
    requires Reaches(w, s) && t in s.live && Working(w, t)
    ensures Enabled(w, s, step) && Fails(step)
  {
    var c := s.live[t];
    assert CopyFits(w, s, t, c);
    if c.place.Ready? {
      step := Deliver(t, 0);
    } else if In(c, Running) {
      step := Handle(t, false);
    } else {
      step := Apply(c.place.channel);
      assert For(Out(s, c.place.channel), t) == DueOn(s, c.place.channel, t) == Due(t, c);
    }
  }

  lemma FailingCosts(w: World, s: State, step: Step)
    requires Reaches(w, s) && Enabled(w, s, step) && Fails(step)
    ensures Potential(w, STEPS, 0, Next(w, s, step)) < Potential(w, STEPS, 0, s)
  {
    StepPays(w, STEPS, 0, s, step);
  }

  lemma First(w: World, s: State, step: Step, rest: seq<Step>)
    requires Enabled(w, s, step) && Fails(step) && Possible(w, Next(w, s, step), rest) && AllFail(rest)
    ensures Possible(w, s, [step] + rest) && AllFail([step] + rest)
    ensures Exec(w, s, [step] + rest) == Exec(w, Next(w, s, step), rest)
  {
    assert ([step] + rest)[1..] == rest;
  }

  lemma {:induction false} RunOut(w: World, s: State) returns (steps: seq<Step>)
    requires Reaches(w, s)
    ensures Possible(w, s, steps) && AllFail(steps) && Done(w, Exec(w, s, steps))
    decreases Potential(w, STEPS, 0, s)
  {
    if Done(w, s) {
      steps := [];
    } else {
      var t :| t in s.live && Working(w, t);
      var step := SomethingFails(w, s, t);
      StepReaches(w, s, step);
      FailingCosts(w, s, step);
      var rest := RunOut(w, Next(w, s, step));
      First(w, s, step, rest);
      steps := [step] + rest;
    }
  }

  /** When every handler fails until nothing is left in the work queues, the number of handler runs is the bound,
      and it can come to that. */
  lemma BoundIsReached(w: World, m: Message)
    requires Sound(w) && w.policy.Retry?
    requires Ours(w, m) && Attempt(m).Int?
    ensures var s := Published(w, m);
            && (forall steps | Possible(w, s, steps) && AllFail(steps) && Done(w, Exec(w, s, steps)) ::
                  HandlerRuns(steps) == HandlerBound(Fan(w, m), Remaining(w.policy.maxAttempts, Attempt(m).n)))
            && exists steps :: Possible(w, s, steps) && AllFail(steps) && Done(w, Exec(w, s, steps))
  {
    var s := Published(w, m);
    PublishedReaches(w, m);
    PublishedPotential(w, m);
    forall steps | Possible(w, s, steps) && AllFail(steps) && Done(w, Exec(w, s, steps))
      ensures HandlerRuns(steps) == Potential(w, HANDLER_RUNS, 0, s)
    {
      RunExact(w, s, steps);
      DoneIsWorthless(w, Exec(w, s, steps));
    }
    var steps := RunOut(w, s);
  }

  /** A message that carries no attempt header, as what is sent without the publisher does not, gets the runs of
      one with attempt 0: if all fail, exactly that many, and never more. */
  lemma HeaderlessRuns(w: World, m: Message, steps: seq<Step>)
    requires Sound(w) && w.policy.Retry? && Ours(w, m)
    requires m.properties.headers.None? || "x-attempt" !in m.properties.headers.value
             || m.properties.headers.value["x-attempt"] in {Null, Numeric(0)}
    requires Possible(w, Published(w, m), steps) && Quiet(steps) && Crashes(steps) == 0
    ensures var allowed := if w.policy.maxAttempts > 1 then w.policy.maxAttempts else 1;
            && HandlerRuns(steps) <= HandlerBound(Fan(w, m), allowed)
            && (AllFail(steps) && Done(w, Exec(w, Published(w, m), steps)) ==>
                  HandlerRuns(steps) == HandlerBound(Fan(w, m), allowed))
  {
    HandlerRunsBounded(w, m, steps);
    BoundIsReached(w, m);
  }
}
