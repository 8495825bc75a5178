/** Retries come to an end. A retry goes back through the exchange, so every queue the key reaches gets a copy of
    it, and a crash can bring back a delivery that was already republished; the weights below pay for both. */
module Termination {
  import opened Wrappers
  import opened Topology
  import opened Consumer
  import opened BrokerRun
  import opened NoLoss
  import opened Sums

  /** What a step is charged. */
  datatype Costs = Costs(deliver: nat, handle: nat, publish: nat, settle: nat, crash: nat)

  const STEPS := Costs(1, 1, 1, 1, 1)
  const HANDLER_RUNS := Costs(0, 1, 0, 0, 0)

  function StepCost(costs: Costs, s: State, step: Step): nat {
    match step
    case Publish(_) => 0
    case Deliver(_, _) => costs.deliver
    case Handle(_, _) => costs.handle
    case Apply(ch) => if Out(s, ch) != [] && Out(s, ch)[0].Publish? then costs.publish else costs.settle
    case Expire(_) => costs.deliver
    case Crash(_) => costs.crash
  }

  function Cost(w: World, costs: Costs, s: State, steps: seq<Step>): nat
    requires Possible(w, s, steps)
    decreases |steps|
  {
    if steps == [] then 0
    else StepCost(costs, s, steps[0]) + Cost(w, costs, Next(w, s, steps[0]), steps[1..])
  }

  function HandlerRuns(steps: seq<Step>): nat {
    if steps == [] then 0 else (if steps[0].Handle? then 1 else 0) + HandlerRuns(steps[1..])
  }

  function Crashes(steps: seq<Step>): nat {
    if steps == [] then 0 else (if steps[0].Crash? then 1 else 0) + Crashes(steps[1..])
  }

  function Publishes(steps: seq<Step>): nat {
    if steps == [] then 0 else (if steps[0].Publish? then 1 else 0) + Publishes(steps[1..])
  }

  /** Whoever publishes does so with a number for the attempt. */
  predicate NumbersOnly(steps: seq<Step>) {
    forall i | 0 <= i < |steps| && steps[i].Publish? :: Attempt(steps[i].message).Int?
  }

  /** Nobody publishes. */
  predicate Quiet(steps: seq<Step>) {
    forall i | 0 <= i < |steps| :: !steps[i].Publish?
  }

  // -------------------------------------------------------------------------------------------
  // Weights.

  /** Handler runs a copy with this attempt number can still fail before it is dead-lettered. */
  function Remaining(max: int, attempt: int): nat {
    if attempt + 1 >= max then 1 else max - attempt
  }

  function Total(costs: Costs): nat {
    costs.deliver + costs.handle + costs.publish + costs.settle
  }

  /** The most a ready copy can cost, with `r` runs left, `k` queues reached by its key, and `crashes` to come. */
  function Worth(k: nat, costs: Costs, crashes: nat, r: nat): nat
    decreases crashes, r
  {
    if r == 0 then 0
    else Total(costs) + k * Worth(k, costs, crashes, r - 1) + Redelivery(k, costs, crashes, r)
  }

  /** What a crash can still bring back of a delivery. */
  function Redelivery(k: nat, costs: Costs, crashes: nat, r: nat): nat
    decreases crashes, r, 0
  {
    if crashes == 0 then 0 else Worth(k, costs, crashes - 1, r)
  }

  function Fan(w: World, m: Message): nat {
    |Targets(w, m)|
  }

  function Weight(w: World, costs: Costs, crashes: nat, t: Tag, c: Copy): nat {
    if !Working(w, t) || Attempt(c.message).NaN? || w.policy.Requeue? then 0
    else
      var k, r := Fan(w, c.message), Remaining(w.policy.maxAttempts, Attempt(c.message).n);
      if c.place.Ready? then Worth(k, costs, crashes, r)
      else match c.place.phase
        case Running =>
          costs.handle + costs.publish + costs.settle + k * Worth(k, costs, crashes, r - 1) + Redelivery(k, costs, crashes, r)
        case Failed =>
          costs.publish + costs.settle + k * Worth(k, costs, crashes, r - 1) + Redelivery(k, costs, crashes, r)
        case _ => costs.settle + Redelivery(k, costs, crashes, r)
  }

  ghost function Weights(w: World, costs: Costs, crashes: nat, live: map<Tag, Copy>): map<Tag, nat> {
    map t | t in live :: Weight(w, costs, crashes, t, live[t])
  }

  ghost function Potential(w: World, costs: Costs, crashes: nat, s: State): nat {
    crashes * costs.crash + Sum(Weights(w, costs, crashes, s.live))
  }

  /** Every copy in a work queue has a number for its attempt. */
  ghost predicate Numbered(w: World, s: State) {
    forall t | t in s.live && Working(w, t) :: Attempt(s.live[t].message).Int?
  }

  // -------------------------------------------------------------------------------------------
  // Sums of weights under the operations on copies.

  lemma WeightsMove(w: World, costs: Costs, crashes: nat, s: State, t: Tag, place: Place)
    requires t in s.live
    ensures Sum(Weights(w, costs, crashes, Move(s, t, place).live)) + Weight(w, costs, crashes, t, s.live[t])
         == Sum(Weights(w, costs, crashes, s.live)) + Weight(w, costs, crashes, t, s.live[t].(place := place))
  {
    var old_ := Weights(w, costs, crashes, s.live);
    var v := Weight(w, costs, crashes, t, s.live[t].(place := place));
    assert Weights(w, costs, crashes, Move(s, t, place).live) == old_[t := v];
    SumUpdate(old_, t, v);
  }

  lemma WeightsLeave(w: World, costs: Costs, crashes: nat, s: State, t: Tag, exit: Exit)
    requires t in s.live
    ensures Sum(Weights(w, costs, crashes, Leave(s, t, exit).live)) + Weight(w, costs, crashes, t, s.live[t])
         == Sum(Weights(w, costs, crashes, s.live))
  {
    var old_ := Weights(w, costs, crashes, s.live);
    assert Weights(w, costs, crashes, Leave(s, t, exit).live) == old_ - {t};
    SumRemove(old_, t);
  }

  lemma TagsCount(serial: nat, queues: set<string>)
    ensures |Tags(serial, queues)| == |queues|
  {
    if queues != {} {
      var q :| q in queues;
      TagsCount(serial, queues - {q});
      assert Tags(serial, queues) == Tags(serial, queues - {q}) + {Tag(serial, q)};
    }
  }

  lemma WeightsUnion(w: World, costs: Costs, crashes: nat, live: map<Tag, Copy>, copies: map<Tag, Copy>)
    requires forall t | t in copies :: t !in live
    ensures Sum(Weights(w, costs, crashes, live + copies))
         == Sum(Weights(w, costs, crashes, live)) + Sum(Weights(w, costs, crashes, copies))
  {
    assert Weights(w, costs, crashes, live + copies)
        == Weights(w, costs, crashes, live) + Weights(w, costs, crashes, copies);
    SumUnion(Weights(w, costs, crashes, live), Weights(w, costs, crashes, copies));
  }

  lemma WeightsEqual(w: World, costs: Costs, crashes: nat, copies: map<Tag, Copy>, serial: nat, queues: set<string>,
                     v: nat)
    requires copies.Keys == Tags(serial, queues)
    requires forall t | t in copies :: Weight(w, costs, crashes, t, copies[t]) == v
    ensures Sum(Weights(w, costs, crashes, copies)) == |queues| * v
  {
    var added := Weights(w, costs, crashes, copies);
    SumConstant(added, v);
    TagsCount(serial, queues);
    assert |added| == |added.Keys| && added.Keys == copies.Keys;
  }

  /** Fresh copies weigh `Fan` times what one of them does. */
  lemma WeightsEnqueue(w: World, costs: Costs, crashes: nat, s: State, m: Message, lineage: set<Tag>, root: Option<Tag>,
                       v: nat)
    requires BooksBalance(s)
    requires forall t, c | t in Fresh(w, s, m, lineage, root) && c == Fresh(w, s, m, lineage, root)[t] ::
               Weight(w, costs, crashes, t, c) == v
    ensures Sum(Weights(w, costs, crashes, Enqueue(w, s, m, lineage, root).live))
         == Sum(Weights(w, costs, crashes, s.live)) + Fan(w, m) * v
  {
    var copies := Fresh(w, s, m, lineage, root);
    assert forall t | t in copies :: t !in s.live by { EnqueueBooks(w, s, m, lineage, root); }
    WeightsUnion(w, costs, crashes, s.live, copies);
    WeightsEqual(w, costs, crashes, copies, s.serial, Targets(w, m), v);
  }

  // -------------------------------------------------------------------------------------------
  // Each step pays for itself.

  /** What may be charged to a state with `crashes` to come. */
  ghost predicate Charged(w: World, costs: Costs, crashes: nat, s: State, step: Step) 
    requires Enabled(w, s, step)
  {
    StepCost(costs, s, step) + Potential(w, costs, crashes, Next(w, s, step)) <= Potential(w, costs, crashes, s)
  }

  ghost predicate Reaches(w: World, s: State) {
    Sound(w) && w.policy.Retry? && Invariant(w, s) && Numbered(w, s)
  }

  lemma DeliveredIsLighter(w: World, costs: Costs, crashes: nat, t: Tag, c: Copy, ch: nat)
    requires w.policy.Retry? && Working(w, t) && Attempt(c.message).Int? && c.place.Ready?
    ensures costs.deliver + Weight(w, costs, crashes, t, c.(place := Held(ch, Running))) == Weight(w, costs, crashes, t, c)
  {
  }

  lemma DeliverPays(w: World, costs: Costs, crashes: nat, s: State, step: Step)
    requires Reaches(w, s) && step.Deliver? && Enabled(w, s, step)
    ensures Charged(w, costs, crashes, s, step)
  {
    DeliveredIsLighter(w, costs, crashes, step.tag, s.live[step.tag], step.channel);
    WeightsMove(w, costs, crashes, s, step.tag, Held(step.channel, Running));
  }

  lemma HandledIsLighter(w: World, costs: Costs, crashes: nat, t: Tag, c: Copy, ok: bool)
    requires w.policy.Retry? && Working(w, t) && Attempt(c.message).Int? && In(c, Running)
    ensures costs.handle
            + Weight(w, costs, crashes, t, c.(place := Held(c.place.channel, PhaseAfter(w.policy, c.message, ok))))
         <= Weight(w, costs, crashes, t, c)
  {
  }

  lemma HandlePays(w: World, costs: Costs, crashes: nat, s: State, step: Step)
    requires Reaches(w, s) && step.Handle? && Enabled(w, s, step)
    ensures Charged(w, costs, crashes, s, step)
  {
    var t, c := step.tag, s.live[step.tag];
    var place := Held(c.place.channel, PhaseAfter(w.policy, c.message, step.ok));
    assert CopyFits(w, s, t, c);
    HandledIsLighter(w, costs, crashes, t, c, step.ok);
    WeightsMove(w, costs, crashes, s, t, place);
    assert Next(w, s, step).live == Move(s, t, place).live;
  }

  /** What a failed delivery weighs beyond its pending ack is what its retry will weigh. */
  lemma FailedWeighs(w: World, costs: Costs, crashes: nat, t: Tag, c: Copy)
    requires w.policy.Retry? && Working(w, t) && Attempt(c.message).Int? && In(c, Failed)
    ensures Weight(w, costs, crashes, t, c)
         == costs.publish
            + Fan(w, c.message) * Worth(Fan(w, c.message), costs, crashes,
                                        Remaining(w.policy.maxAttempts, Attempt(c.message).n) - 1)
            + Weight(w, costs, crashes, t, c.(place := Held(c.place.channel, Republished)))
  {
  }

  lemma RetriedSameTargets(w: World, m: Message)
    ensures Targets(w, Retried(m)) == Targets(w, m)
  {
    RetriedKeepsMessage(m);
  }

  lemma RetryWeighs(w: World, costs: Costs, crashes: nat, s: State, t: Tag, c: Copy)
    requires Sound(w) && w.policy.Retry? && Working(w, t) && Placed(w, t, c) && Attempt(c.message).Int? && In(c, Failed)
    ensures forall u, d | u in Fresh(w, s, Retried(c.message), c.lineage, Some(c.root))
                          && d == Fresh(w, s, Retried(c.message), c.lineage, Some(c.root))[u] ::
              Weight(w, costs, crashes, u, d)
              == Worth(Fan(w, c.message), costs, crashes, Remaining(w.policy.maxAttempts, Attempt(c.message).n) - 1)
  {
    var m, max := Retried(c.message), w.policy.maxAttempts;
    RetriedKeepsMessage(c.message);
    RetriedSameTargets(w, c.message);
    MainExchangeTargets(w, m);
    assert Remaining(max, Attempt(m).n) == Remaining(max, Attempt(c.message).n) - 1;
    forall u, d | u in Fresh(w, s, m, c.lineage, Some(c.root)) && d == Fresh(w, s, m, c.lineage, Some(c.root))[u]
      ensures Weight(w, costs, crashes, u, d) == Worth(Fan(w, m), costs, crashes, Remaining(max, Attempt(m).n))
    {
      assert Working(w, u) && d.message == m && d.place.Ready?;
    }
  }

  lemma RetryIsPaid(w: World, costs: Costs, crashes: nat, s: State, ch: nat, t: Tag)
    requires Sound(w) && w.policy.Retry? && t in s.live && BooksBalance(s)
    requires Working(w, t) && In(s.live[t], Failed) && s.live[t].place.channel == ch
    requires Placed(w, t, s.live[t]) && Attempt(s.live[t].message).Int?
    ensures costs.publish
            + Sum(Weights(w, costs, crashes, Enqueue(w, Halfway(s, ch, t), Retried(s.live[t].message),
                                                     s.live[t].lineage, Some(s.live[t].root)).live))
         == Sum(Weights(w, costs, crashes, s.live))
  {
    var c, s2 := s.live[t], Halfway(s, ch, t);
    HalfwayBooks(s, ch, t);
    var v := Worth(Fan(w, c.message), costs, crashes, Remaining(w.policy.maxAttempts, Attempt(c.message).n) - 1);
    FailedWeighs(w, costs, crashes, t, c);
    RetryWeighs(w, costs, crashes, s2, t, c);
    RetriedSameTargets(w, c.message);
    WeightsMove(w, costs, crashes, s, t, Held(ch, Republished));
    assert s2.live == Move(s, t, Held(ch, Republished)).live;
    WeightsEnqueue(w, costs, crashes, s2, Retried(c.message), c.lineage, Some(c.root), v);
  }

  lemma PublishPays(w: World, costs: Costs, crashes: nat, s: State, ch: nat, t: Tag)
    requires Sound(w) && w.policy.Retry? && BooksBalance(s) && Out(s, ch) != []
    requires t in s.live && s.live[t].place == Held(ch, Failed) && Working(w, t)
    requires Placed(w, t, s.live[t]) && Attempt(s.live[t].message).Int?
    requires Out(s, ch)[0] == Command.Publish(Some(t), Retried(s.live[t].message))
    ensures Charged(w, costs, crashes, s, Apply(ch))
  {
    RetryIsPaid(w, costs, crashes, s, ch, t);
    PublishCharged(w, costs, crashes, s, ch, t);
  }

  lemma PublishCharged(w: World, costs: Costs, crashes: nat, s: State, ch: nat, t: Tag)
    requires Out(s, ch) != [] && t in s.live && s.live[t].place == Held(ch, Failed)
    requires Out(s, ch)[0] == Command.Publish(Some(t), Retried(s.live[t].message))
    requires costs.publish
             + Sum(Weights(w, costs, crashes, Enqueue(w, Halfway(s, ch, t), Retried(s.live[t].message),
                                                      s.live[t].lineage, Some(s.live[t].root)).live))
          == Sum(Weights(w, costs, crashes, s.live))
    ensures Charged(w, costs, crashes, s, Apply(ch))
  {
    AppliedPublish(w, s, ch, t);
  }

  lemma AckPays(w: World, costs: Costs, crashes: nat, s: State, ch: nat, t: Tag)
    requires Reaches(w, s) && Out(s, ch) != []
    requires t in s.live && s.live[t].place in {Held(ch, Republished), Held(ch, Succeeded)} && Out(s, ch)[0] == Ack(t)
    ensures Charged(w, costs, crashes, s, Apply(ch))
  {
    assert CopyFits(w, s, t, s.live[t]);
    WeightsLeave(w, costs, crashes, s, t, Acked);
  }

  /** Only the copy that leaves had any weight. */
  lemma DeadLetteringWeighs(w: World, costs: Costs, crashes: nat, s: State, t: Tag, exit: Exit)
    requires Sound(w) && BooksBalance(s) && CopiesFit(w, s) && t in s.live && Working(w, t)
    ensures Sum(Weights(w, costs, crashes, DeadLettering(w, s, t, exit).live)) + Weight(w, costs, crashes, t, s.live[t])
         == Sum(Weights(w, costs, crashes, s.live))
  {
    var c := s.live[t];
    DeadLetterTargets(w, t);
    var dl := Built(w.cfg).queues[t.queue].deadLetter.value;
    var m := Message(dl.exchange, dl.key, c.message.content, c.message.properties.(expiration := None));
    MainExchangeTargets(w, m.(exchange := w.cfg.exchange));
    LeaveFits(w, s, t, exit);
    WeightsLeave(w, costs, crashes, s, t, exit);
    WeightsEnqueue(w, costs, crashes, Leave(s, t, exit), m, c.lineage, Some(c.root), 0);
  }

  lemma TakenFits(w: World, s: State, ch: nat)
    requires CopiesFit(w, s) && BooksBalance(s)
    ensures CopiesFit(w, Taken(s, ch)) && BooksBalance(Taken(s, ch))
  {
    forall t | t in s.live ensures CopyFits(w, Taken(s, ch), t, s.live[t]) { assert CopyFits(w, s, t, s.live[t]); }
  }

  lemma RejectCharged(w: World, costs: Costs, crashes: nat, s: State, ch: nat, t: Tag)
    requires Out(s, ch) != [] && t in s.live && Out(s, ch)[0] == Nack(t, false)
    requires costs.settle + Sum(Weights(w, costs, crashes, DeadLettering(w, Taken(s, ch), t, DeadLettered).live))
          <= Sum(Weights(w, costs, crashes, s.live))
    ensures Charged(w, costs, crashes, s, Apply(ch))
  {
    AppliedNack(w, s, ch, t, false);
  }

  lemma RejectPays(w: World, costs: Costs, crashes: nat, s: State, ch: nat, t: Tag)
    requires Reaches(w, s) && Out(s, ch) != []
    requires t in s.live && s.live[t].place == Held(ch, Rejected) && Out(s, ch)[0] == Nack(t, false)
    ensures Charged(w, costs, crashes, s, Apply(ch))
  {
    assert CopyFits(w, s, t, s.live[t]);
    RejectedWeighs(w, costs, crashes, t, s.live[t]);
    TakenFits(w, s, ch);
    DeadLetteringWeighs(w, costs, crashes, Taken(s, ch), t, DeadLettered);
    RejectCharged(w, costs, crashes, s, ch, t);
  }

  lemma RejectedWeighs(w: World, costs: Costs, crashes: nat, t: Tag, c: Copy)
    requires w.policy.Retry? && Working(w, t) && Attempt(c.message).Int? && In(c, Rejected)
    ensures Weight(w, costs, crashes, t, c) >= costs.settle
  {
  }

  lemma ApplyPays(w: World, costs: Costs, crashes: nat, s: State, step: Step)
    requires Reaches(w, s) && step.Apply? && Enabled(w, s, step)
    ensures Charged(w, costs, crashes, s, step)
  {
    var t := HeadIsDue(s, step.channel);
    assert CopyFits(w, s, t, s.live[t]);
    match s.live[t].place.phase {
      case Failed => PublishPays(w, costs, crashes, s, step.channel, t);
      case Republished => AckPays(w, costs, crashes, s, step.channel, t);
      case Succeeded => AckPays(w, costs, crashes, s, step.channel, t);
      case Rejected => RejectPays(w, costs, crashes, s, step.channel, t);
    }
  }

  lemma ReadyIsWorthADelivery(w: World, costs: Costs, crashes: nat, t: Tag, c: Copy)
    requires w.policy.Retry? && Working(w, t) && Attempt(c.message).Int? && c.place.Ready?
    ensures Weight(w, costs, crashes, t, c) >= costs.deliver
  {
  }

  lemma ExpirePays(w: World, costs: Costs, crashes: nat, s: State, step: Step)
    requires Reaches(w, s) && step.Expire? && Enabled(w, s, step)
    ensures Charged(w, costs, crashes, s, step)
  {
    assert CopyFits(w, s, step.tag, s.live[step.tag]);
    ReadyIsWorthADelivery(w, costs, crashes, step.tag, s.live[step.tag]);
    DeadLetteringWeighs(w, costs, crashes, s, step.tag, Expired);
  }

  /** A crash is paid for by there being one crash less to come. */
  lemma CrashPays(w: World, costs: Costs, crashes: nat, s: State, step: Step)
    requires Reaches(w, s) && step.Crash? && crashes > 0
    ensures costs.crash + Potential(w, costs, crashes - 1, Next(w, s, step)) <= Potential(w, costs, crashes, s)
  {
    var before := Weights(w, costs, crashes, s.live);
    var after := Weights(w, costs, crashes - 1, Next(w, s, step).live);
    assert after.Keys == s.live.Keys == before.Keys;
    forall t | t in after ensures after[t] <= before[t] {
      assert CopyFits(w, s, t, s.live[t]);
      CrashLightens(w, costs, crashes, t, s.live[t]);
    }
    SumMonotone(after, before);
    assert crashes * costs.crash == costs.crash + (crashes - 1) * costs.crash;
  }

  lemma HeldCoversRedelivery(w: World, costs: Costs, crashes: nat, t: Tag, c: Copy)
    requires crashes > 0 && w.policy.Retry? && Working(w, t) && Attempt(c.message).Int? && c.place.Held?
    ensures Worth(Fan(w, c.message), costs, crashes - 1, Remaining(w.policy.maxAttempts, Attempt(c.message).n))
         <= Weight(w, costs, crashes, t, c)
  {
  }

  lemma StayingLightens(w: World, costs: Costs, crashes: nat, t: Tag, c: Copy)
    requires crashes > 0 && w.policy.Retry? && Working(w, t) && Attempt(c.message).Int?
    ensures Weight(w, costs, crashes - 1, t, c) <= Weight(w, costs, crashes, t, c)
  {
    var k, r := Fan(w, c.message), Remaining(w.policy.maxAttempts, Attempt(c.message).n);
    WorthGrows(k, costs, crashes, r);
    WorthGrows(k, costs, crashes, r - 1);
    Products(k, k, Worth(k, costs, crashes - 1, r - 1), Worth(k, costs, crashes, r - 1));
    if crashes > 1 { WorthGrows(k, costs, crashes - 1, r); }
  }

  lemma CrashLightens(w: World, costs: Costs, crashes: nat, t: Tag, c: Copy)
    requires crashes > 0 && w.policy.Retry?
    ensures Weight(w, costs, crashes - 1, t, c.(place := Ready)) <= Weight(w, costs, crashes, t, c)
    ensures Weight(w, costs, crashes - 1, t, c) <= Weight(w, costs, crashes, t, c)
  {
    if Working(w, t) && Attempt(c.message).Int? {
      StayingLightens(w, costs, crashes, t, c);
      if c.place.Held? { HeldCoversRedelivery(w, costs, crashes, t, c); }
    }
  }

  lemma Products(a: nat, a': nat, b: nat, b': nat)
    requires a <= a' && b <= b'
    ensures a * b <= a' * b'
  {
    assert a' * b' == a * b + a * (b' - b) + (a' - a) * b';
  }

  lemma {:induction false} WorthGrows(k: nat, costs: Costs, crashes: nat, r: nat)
    requires crashes > 0
    ensures Worth(k, costs, crashes - 1, r) <= Worth(k, costs, crashes, r)
  {
  }

  // -------------------------------------------------------------------------------------------
  // Runs.

  lemma DeadLetteringNumbered(w: World, s: State, t: Tag, exit: Exit)
    requires Sound(w) && Invariant(w, s) && Numbered(w, s) && t in s.live && Working(w, t)
    ensures Numbered(w, DeadLettering(w, s, t, exit))
  {
    var s' := DeadLettering(w, s, t, exit);
    DeadLetterTargets(w, t);
    MainExchangeTargets(w, s.live[t].message.(exchange := w.cfg.exchange));
    forall u | u in s'.live && Working(w, u) ensures Attempt(s'.live[u].message).Int? {
      assert u in s.live && s'.live[u] == s.live[u];
    }
  }

  lemma RetryNumbered(w: World, s: State, ch: nat, t: Tag)
    requires BooksBalance(s) && Numbered(w, s) && Out(s, ch) != []
    requires t in s.live && s.live[t].place == Held(ch, Failed) && Attempt(s.live[t].message).Int?
    requires Out(s, ch)[0] == Command.Publish(Some(t), Retried(s.live[t].message))
    ensures Numbered(w, Next(w, s, Apply(ch)))
  {
    var c, s2 := s.live[t], Halfway(s, ch, t);
    AppliedPublish(w, s, ch, t);
    HalfwayBooks(s, ch, t);
    RetriedKeepsMessage(c.message);
    EnqueueBooks(w, s2, Retried(c.message), c.lineage, Some(c.root));
  }

  lemma ApplyNumbered(w: World, s: State, step: Step)
    requires Reaches(w, s) && step.Apply? && Enabled(w, s, step)
    ensures Numbered(w, Next(w, s, step))
  {
    var t := HeadIsDue(s, step.channel);
    assert CopyFits(w, s, t, s.live[t]);
    if s.live[t].place.phase.Failed? {
      RetryNumbered(w, s, step.channel, t);
    } else if s.live[t].place.phase.Rejected? {
      AppliedNack(w, s, step.channel, t, false);
      DeadLetteringNumbered(w, s, t, DeadLettered);
    } else {
      AppliedAck(w, s, step.channel, t);
    }
  }

  lemma NumberedKept(w: World, s: State, step: Step)
    requires Reaches(w, s) && Enabled(w, s, step) && !step.Publish?
    ensures Numbered(w, Next(w, s, step))
  {
    if step.Apply? {
      ApplyNumbered(w, s, step);
    } else if step.Expire? {
      assert CopyFits(w, s, step.tag, s.live[step.tag]);
      DeadLetteringNumbered(w, s, step.tag, Expired);
    }
  }

  /** What one published message can cost. */
  function MessageWorth(w: World, costs: Costs, crashes: nat, m: Message): nat {
    if w.policy.Requeue? || Attempt(m).NaN? then 0
    else Fan(w, m) * Worth(Fan(w, m), costs, crashes, Remaining(w.policy.maxAttempts, Attempt(m).n))
  }

  /** What the messages published in a run can cost, each with the crashes still to come. */
  function Budget(w: World, costs: Costs, crashes: nat, steps: seq<Step>): nat
    requires Crashes(steps) <= crashes
  {
    if steps == [] then 0
    else if steps[0].Publish? then
      MessageWorth(w, costs, crashes, steps[0].message) + Budget(w, costs, crashes, steps[1..])
    else Budget(w, costs, if steps[0].Crash? then crashes - 1 else crashes, steps[1..])
  }

  lemma {:induction false} QuietIsFree(w: World, costs: Costs, crashes: nat, steps: seq<Step>)
    requires Crashes(steps) <= crashes && Quiet(steps)
    ensures Budget(w, costs, crashes, steps) == 0 && NumbersOnly(steps) && Publishes(steps) == 0
  {
    if steps != [] {
      assert forall i | 0 <= i < |steps[1..]| :: steps[1..][i] == steps[i + 1];
      QuietIsFree(w, costs, if steps[0].Crash? then crashes - 1 else crashes, steps[1..]);
    }
  }

  /** A message taken in adds what it can cost. */
  lemma MessageWeighs(w: World, costs: Costs, crashes: nat, s: State, m: Message)
    requires Sound(w) && w.policy.Retry? && BooksBalance(s) && Ours(w, m) && Attempt(m).Int?
    ensures Sum(Weights(w, costs, crashes, Enqueue(w, s, m, {}, None).live))
         == Sum(Weights(w, costs, crashes, s.live)) + MessageWorth(w, costs, crashes, m)
  {
    MainExchangeTargets(w, m);
    WeightsEnqueue(w, costs, crashes, s, m, {}, None,
                   Worth(Fan(w, m), costs, crashes, Remaining(w.policy.maxAttempts, Attempt(m).n)));
  }

  lemma PublishNumbered(w: World, s: State, step: Step)
    requires BooksBalance(s) && Numbered(w, s) && step.Publish? && Enabled(w, s, step) && Attempt(step.message).Int?
    ensures Numbered(w, Next(w, s, step))
  {
    EnqueueBooks(w, s, step.message, {}, None);
  }

  lemma StepReaches(w: World, s: State, step: Step)
    requires Reaches(w, s) && Enabled(w, s, step) && (step.Publish? ==> Attempt(step.message).Int?)
    ensures Reaches(w, Next(w, s, step))
  {
    StepKeeps(w, s, step);
    if step.Publish? {
      PublishNumbered(w, s, step);
    } else {
      NumberedKept(w, s, step);
    }
  }

  /** What a step does to the potential; the publisher pays for what it publishes. */
  lemma StepPays(w: World, costs: Costs, crashes: nat, s: State, step: Step)
    requires Reaches(w, s) && Enabled(w, s, step) && (step.Publish? ==> Attempt(step.message).Int?)
    requires step.Crash? ==> crashes > 0
    ensures StepCost(costs, s, step)
            + Potential(w, costs, if step.Crash? then crashes - 1 else crashes, Next(w, s, step))
         <= Potential(w, costs, crashes, s) + if step.Publish? then MessageWorth(w, costs, crashes, step.message) else 0
  {
    match step {
      case Publish(_) => MessageWeighs(w, costs, crashes, s, step.message);
      case Deliver(_, _) => DeliverPays(w, costs, crashes, s, step);
      case Handle(_, _) => HandlePays(w, costs, crashes, s, step);
      case Apply(_) => ApplyPays(w, costs, crashes, s, step);
      case Expire(_) => ExpirePays(w, costs, crashes, s, step);
      case Crash(_) => CrashPays(w, costs, crashes, s, step);
    }
  }

  lemma {:induction false} RunPays(w: World, costs: Costs, crashes: nat, s: State, steps: seq<Step>)
    requires Reaches(w, s) && Possible(w, s, steps) && NumbersOnly(steps) && Crashes(steps) <= crashes
    ensures Cost(w, costs, s, steps) <= Potential(w, costs, crashes, s) + Budget(w, costs, crashes, steps)
    ensures Reaches(w, Exec(w, s, steps))
    decreases |steps|
  {
    if steps != [] {
      assert forall i | 0 <= i < |steps[1..]| :: steps[1..][i] == steps[i + 1];
      StepReaches(w, s, steps[0]);
      StepPays(w, costs, crashes, s, steps[0]);
      RunPays(w, costs, if steps[0].Crash? then crashes - 1 else crashes, Next(w, s, steps[0]), steps[1..]);
    }
  }

  lemma {:induction false} StepsCost(w: World, s: State, steps: seq<Step>)
    requires Possible(w, s, steps)
    ensures Cost(w, STEPS, s, steps) + Publishes(steps) == |steps|
    decreases |steps|
  {
    if steps != [] {
      StepsCost(w, Next(w, s, steps[0]), steps[1..]);
    }
  }

  lemma {:induction false} HandlersCost(w: World, s: State, steps: seq<Step>)
    requires Possible(w, s, steps)
    ensures Cost(w, HANDLER_RUNS, s, steps) == HandlerRuns(steps)
    decreases |steps|
  {
    if steps != [] {
      HandlersCost(w, Next(w, s, steps[0]), steps[1..]);
    }
  }

  /** From any state of a run in which attempts are numbers, what follows the last publish is finite: its length
      has a bound that depends only on the state and on how many channels die. */
  lemma RunsEnd(w: World, s: State, steps: seq<Step>)
    requires Reaches(w, s) && Possible(w, s, steps) && Quiet(steps)
    ensures |steps| <= Potential(w, STEPS, Crashes(steps), s)
  {
    QuietIsFree(w, STEPS, Crashes(steps), steps);
    RunPays(w, STEPS, Crashes(steps), s, steps);
    StepsCost(w, s, steps);
  }

  lemma InitialReaches(w: World)
    requires Sound(w) && w.policy.Retry?
    ensures Reaches(w, INITIAL)
  {
  }

  lemma InitialPotential(w: World, costs: Costs, crashes: nat)
    ensures Potential(w, costs, crashes, INITIAL) == crashes * costs.crash
  {
    assert Weights(w, costs, crashes, INITIAL.live) == map[];
  }

  /** Whole runs, whenever what is published in them is: with numeric attempts, a run is no longer than its
      publishes, its crashes, and what each published message can cost allow. */
  lemma WholeRunsEnd(w: World, steps: seq<Step>)
    requires Sound(w) && w.policy.Retry? && Possible(w, INITIAL, steps) && NumbersOnly(steps)
    ensures |steps| <= Publishes(steps) + Crashes(steps) + Budget(w, STEPS, Crashes(steps), steps)
    ensures Reaches(w, Exec(w, INITIAL, steps))
  {
    InitialReaches(w);
    InitialPotential(w, STEPS, Crashes(steps));
    RunPays(w, STEPS, Crashes(steps), INITIAL, steps);
    StepsCost(w, INITIAL, steps);
  }

  // -------------------------------------------------------------------------------------------
  // One published message.

  function Pow(k: nat, n: nat): nat {
    if n == 0 then 1 else k * Pow(k, n - 1)
  }

  /** 1 + k + ... + k^(n-1) */
  function Geometric(k: nat, n: nat): nat {
    if n == 0 then 0 else Geometric(k, n - 1) + Pow(k, n - 1)
  }

  /** k·(1 + k + ... + k^(n-1)) */
  function HandlerBound(k: nat, n: nat): nat {
    k * Geometric(k, n)
  }

  /** More queues or more attempts, more handler runs. */
  lemma HandlerBoundGrows(k: nat, k': nat, n: nat, n': nat)
    requires k <= k' && n <= n'
    ensures HandlerBound(k, n) <= HandlerBound(k', n')
  {
    GeometricGrows(k, k', n, n');
    Products(k, k', Geometric(k, n), Geometric(k', n'));
  }

  lemma {:induction false} PowGrows(k: nat, k': nat, n: nat)
    requires k <= k'
    ensures Pow(k, n) <= Pow(k', n)
  {
    if n > 0 {
      PowGrows(k, k', n - 1);
      Products(k, k', Pow(k, n - 1), Pow(k', n - 1));
    }
  }

  lemma {:induction false} GeometricGrows(k: nat, k': nat, n: nat, n': nat)
    requires k <= k' && n <= n'
    ensures Geometric(k, n) <= Geometric(k', n')
    decreases n'
  {
    if n < n' {
      GeometricGrows(k, k', n, n' - 1);
    } else if n > 0 {
      GeometricGrows(k, k', n - 1, n' - 1);
      PowGrows(k, k', n - 1);
    }
  }

  lemma Distribute(k: nat, a: nat, b: nat)
    ensures k * (a + b) == k * a + k * b
  {
  }

  lemma {:induction false} GeometricFromTop(k: nat, n: nat)
    ensures Geometric(k, n + 1) == 1 + k * Geometric(k, n)
  {
    if n > 0 {
      GeometricFromTop(k, n - 1);
      Distribute(k, Geometric(k, n - 1), Pow(k, n - 1));
    }
  }

  lemma {:induction false} WorthInHandlerRuns(k: nat, r: nat)
    ensures Worth(k, HANDLER_RUNS, 0, r) == Geometric(k, r)
  {
    if r > 0 {
      WorthInHandlerRuns(k, r - 1);
      GeometricFromTop(k, r - 1);
    }
  }

  /** The state one publish on an idle broker leads to. */
  function Published(w: World, m: Message): State
    requires Ours(w, m)
  {
    Next(w, INITIAL, Step.Publish(m))
  }

  lemma PublishedReaches(w: World, m: Message)
    requires Sound(w) && w.policy.Retry?
    requires Ours(w, m) && Attempt(m).Int?
    ensures Reaches(w, Published(w, m))
  {
    InitialReaches(w);
    StepReaches(w, INITIAL, Step.Publish(m));
  }

  /** On an idle broker, a published message can lead to that many handler runs. */
  lemma PublishedPotential(w: World, m: Message)
    requires Sound(w) && w.policy.Retry?
    requires Ours(w, m) && Attempt(m).Int?
    ensures Potential(w, HANDLER_RUNS, 0, Published(w, m))
            == HandlerBound(Fan(w, m), Remaining(w.policy.maxAttempts, Attempt(m).n))
  {
    InitialReaches(w);
    InitialPotential(w, HANDLER_RUNS, 0);
    MessageWeighs(w, HANDLER_RUNS, 0, INITIAL, m);
    WorthInHandlerRuns(Fan(w, m), Remaining(w.policy.maxAttempts, Attempt(m).n));
  }

  /** In a crash-free run, the bounds of the messages published in it add up. */
  function HandlerBounds(w: World, steps: seq<Step>): nat {
    if steps == [] then 0
    else if steps[0].Publish? && Attempt(steps[0].message).Int? && w.policy.Retry? then
      HandlerBound(Fan(w, steps[0].message), Remaining(w.policy.maxAttempts, Attempt(steps[0].message).n))
      + HandlerBounds(w, steps[1..])
    else HandlerBounds(w, steps[1..])
  }

  lemma {:induction false} BudgetInHandlerRuns(w: World, steps: seq<Step>)
    requires Crashes(steps) == 0
    ensures Budget(w, HANDLER_RUNS, 0, steps) == HandlerBounds(w, steps)
  {
    if steps != [] {
      BudgetInHandlerRuns(w, steps[1..]);
      if steps[0].Publish? && Attempt(steps[0].message).Int? && w.policy.Retry? {
        var m := steps[0].message;
        WorthInHandlerRuns(Fan(w, m), Remaining(w.policy.maxAttempts, Attempt(m).n));
      }
    }
  }

  /** Any number of messages, published at any time: their handler runs are at most the sum of their bounds. */
  lemma AllHandlerRunsBounded(w: World, steps: seq<Step>)
    requires Sound(w) && w.policy.Retry? && Possible(w, INITIAL, steps) && NumbersOnly(steps) && Crashes(steps) == 0
    ensures HandlerRuns(steps) <= HandlerBounds(w, steps)
  {
    InitialReaches(w);
    InitialPotential(w, HANDLER_RUNS, 0);
    RunPays(w, HANDLER_RUNS, 0, INITIAL, steps);
    HandlersCost(w, INITIAL, steps);
    BudgetInHandlerRuns(w, steps);
  }

  /** A message with attempt 0 whose key reaches at most `k` queues leads, without crashes, to at most
      k·(1 + k + ... + k^(maxAttempts-1)) handler runs, whatever the handlers do. */
  lemma FreshHandlerRunsBounded(w: World, m: Message, k: nat, steps: seq<Step>)
    requires Sound(w) && w.policy.Retry? && w.policy.maxAttempts >= 1
    requires Ours(w, m) && Attempt(m) == Int(0)
    requires Fan(w, m) <= k
    requires Possible(w, Published(w, m), steps) && Quiet(steps) && Crashes(steps) == 0
    ensures HandlerRuns(steps) <= HandlerBound(k, w.policy.maxAttempts)
  {
    HandlerRunsBounded(w, m, steps);
    HandlerBoundGrows(Fan(w, m), k, w.policy.maxAttempts, w.policy.maxAttempts);
  }

  /** A message whose key reaches `k` queues leads, without crashes, to at most
      k·(1 + k + ... + k^(n-1)) handler runs, n being the runs its attempt leaves, whatever the handlers do. */
  lemma HandlerRunsBounded(w: World, m: Message, steps: seq<Step>)
    requires Sound(w) && w.policy.Retry?
    requires Ours(w, m) && Attempt(m).Int?
    requires Possible(w, Published(w, m), steps) && Quiet(steps) && Crashes(steps) == 0
    ensures HandlerRuns(steps) <= HandlerBound(Fan(w, m), Remaining(w.policy.maxAttempts, Attempt(m).n))
  {
    var s := Published(w, m);
    PublishedReaches(w, m);
    QuietIsFree(w, HANDLER_RUNS, 0, steps);
    RunPays(w, HANDLER_RUNS, 0, s, steps);
    HandlersCost(w, s, steps);
    PublishedPotential(w, m);
  }
}
