/** The notification consumer acknowledges what it sent and hands everything else back: nothing is duplicated,
    nothing is given up, and only expiry takes an unsent message off its queue. */
module RequeuePolicy {
  import opened Wrappers
  import opened Topology
  import opened Consumer
  import opened BrokerRun
  import opened NoLoss
  import opened Conservation

  predicate Untouched(w: World, s: State, t: Tag, c: Copy) {
    if Working(w, t) then c.lineage == {t} && t in s.roots
    else c.root in s.roots && c.root in s.left && s.left[c.root] == Expired
  }

  predicate LeftProperly(s: State, t: Tag)
    requires t in s.left
  {
    t in s.roots && !s.left[t].DeadLettered? && (s.left[t].Acked? ==> t in s.served)
  }

  ghost predicate Intact(w: World, s: State) {
    && (forall t | t in s.live :: Untouched(w, s, t, s.live[t]))
    && (forall t | t in s.live && Working(w, t) :: s.live[t].root == t)
    && (forall t, u | t in s.live && u in s.live && s.live[t].root == s.live[u].root :: t == u)
    && (forall t | t in s.left :: LeftProperly(s, t))
    && (forall r | r in s.roots :: r in s.accepted && Working(w, r))
  }

  /** A published copy is the first of its message. */
  lemma FirstCopies(w: World, s: State, step: Step)
    requires Sound(w) && BooksBalance(s) && step.Publish? && Enabled(w, s, step)
    ensures var s' := Next(w, s, step);
            && s.live.Keys <= s'.live.Keys && s'.roots == s.roots + (s'.live.Keys - s.live.Keys)
            && s'.accepted == s.accepted + (s'.live.Keys - s.live.Keys) && s'.left == s.left && s'.served == s.served
            && (forall t | t in s.live :: s'.live[t] == s.live[t])
            && (forall t | t in s'.live && t !in s.live ::
                  t !in s.accepted && Working(w, t) && s'.live[t].lineage == {t} && s'.live[t].root == t)
  {
    var m := step.message;
    MainExchangeTargets(w, m);
    EnqueueBooks(w, s, m, {}, None);
  }

  lemma PublishRequeues(w: World, s: State, step: Step)
    requires Sound(w) && BooksBalance(s) && Intact(w, s) && step.Publish? && Enabled(w, s, step)
    ensures Intact(w, Next(w, s, step))
  {
    FirstCopies(w, s, step);
    NewcomersIntact(w, s, Next(w, s, step));
  }

  lemma NewcomersIntact(w: World, s: State, s': State)
    requires s.live.Keys <= s.accepted && Intact(w, s)
    requires s.live.Keys <= s'.live.Keys && s'.roots == s.roots + (s'.live.Keys - s.live.Keys)
    requires s'.accepted == s.accepted + (s'.live.Keys - s.live.Keys) && s'.left == s.left && s'.served == s.served
    requires forall t | t in s.live :: s'.live[t] == s.live[t]
    requires forall t | t in s'.live && t !in s.live ::
               t !in s.accepted && Working(w, t) && s'.live[t].lineage == {t} && s'.live[t].root == t
    ensures Intact(w, s')
  {
    forall t | t in s'.live ensures Untouched(w, s', t, s'.live[t]) && s'.live[t].root in s'.roots {
      if t in s.live { assert Untouched(w, s, t, s.live[t]); }
    }
    forall t | t in s'.left ensures LeftProperly(s', t) { assert LeftProperly(s, t); }
    forall t, u | t in s'.live && u in s'.live && s'.live[t].root == s'.live[u].root ensures t == u {
      if t in s.live { assert Untouched(w, s, t, s.live[t]); }
      if u in s.live { assert Untouched(w, s, u, s.live[u]); }
    }
  }

  /** Places, channels and the set of handled copies may change; nothing else does. */
  lemma MoveRequeues(w: World, s: State, s': State)
    requires Intact(w, s) && s'.live.Keys == s.live.Keys
    requires forall t | t in s.live :: s'.live[t] == s.live[t].(place := s'.live[t].place)
    requires s'.left == s.left && s'.roots == s.roots && s'.accepted == s.accepted && s.served <= s'.served
    ensures Intact(w, s')
  {
    forall t | t in s'.live ensures Untouched(w, s', t, s'.live[t]) { assert Untouched(w, s, t, s.live[t]); }
    forall t | t in s'.left ensures LeftProperly(s', t) { assert LeftProperly(s, t); }
  }

  lemma AckRequeues(w: World, s: State, s': State, t: Tag)
    requires Intact(w, s) && t in s.live && Working(w, t) && s.live[t].lineage <= s.served
    requires s'.live == s.live - {t} && s'.left == s.left[t := Acked] && t !in s.left
    requires s'.roots == s.roots && s'.accepted == s.accepted && s'.served == s.served
    ensures Intact(w, s')
  {
    assert Untouched(w, s, t, s.live[t]);
    forall u | u in s'.live ensures Untouched(w, s', u, s'.live[u]) { assert Untouched(w, s, u, s.live[u]); }
    forall u | u in s'.left ensures LeftProperly(s', u) {
      if u != t { assert LeftProperly(s, u); }
    }
  }

  lemma ExpiryRequeues(w: World, s: State, s': State, t: Tag, again: Tag)
    requires Intact(w, s) && t in s.live && Working(w, t) && !Working(w, again)
    requires again !in s.live && again in s'.live && s'.live == (s.live - {t})[again := s'.live[again]]
    requires s'.live[again].root == s.live[t].root && s'.left == s.left[t := Expired]
    requires s'.roots == s.roots && s.accepted <= s'.accepted && s'.served == s.served
    requires forall u | u in s.live :: u !in s.left
    ensures Intact(w, s')
  {
    assert Untouched(w, s, t, s.live[t]);
    forall u | u in s'.live ensures Untouched(w, s', u, s'.live[u]) {
      if u != again { assert Untouched(w, s, u, s.live[u]); }
    }
    forall u | u in s'.left ensures LeftProperly(s', u) {
      if u != t { assert LeftProperly(s, u); }
    }
  }

  lemma ExpireRequeues(w: World, s: State, t: Tag)
    requires Sound(w) && BooksBalance(s) && Intact(w, s) && t in s.live && Working(w, t)
    ensures Intact(w, DeadLettering(w, s, t, Expired))
  {
    DeadLetterShape(w, s, t, Expired);
    assert forall u | u in s.live :: u in s.accepted && u.serial < s.serial && u !in s.left;
    ExpiryRequeues(w, s, DeadLettering(w, s, t, Expired), t, Tag(s.serial, w.cfg.dlq));
  }

  lemma AckedRequeues(w: World, s: State, ch: nat, t: Tag)
    requires BooksBalance(s) && Intact(w, s) && Out(s, ch) != [] && Out(s, ch)[0] == Ack(t)
    requires t in s.live && Working(w, t) && s.live[t].lineage <= s.served
    ensures Intact(w, Next(w, s, Apply(ch)))
  {
    AppliedAck(w, s, ch, t);
    AckRequeues(w, s, Next(w, s, Apply(ch)), t);
  }

  lemma NackedRequeues(w: World, s: State, ch: nat, t: Tag)
    requires Intact(w, s) && Out(s, ch) != [] && Out(s, ch)[0] == Nack(t, true) && t in s.live
    ensures Intact(w, Next(w, s, Apply(ch)))
  {
    AppliedNack(w, s, ch, t, true);
    MoveRequeues(w, s, Move(Taken(s, ch), t, Ready));
  }

  lemma ApplyRequeues(w: World, s: State, ch: nat, t: Tag)
    requires w.policy.Requeue? && BooksBalance(s) && Intact(w, s) && Out(s, ch) != [] && t in s.live
    requires s.live[t].place.Held? && CopyFits(w, s, t, s.live[t])
    requires Due(t, s.live[t]) != [] && Out(s, ch)[0] == Due(t, s.live[t])[0]
    ensures Intact(w, Next(w, s, Apply(ch)))
  {
    if s.live[t].place.phase.Succeeded? {
      AckedRequeues(w, s, ch, t);
    } else {
      NackedRequeues(w, s, ch, t);
    }
  }

  lemma ConsumerRequeues(w: World, s: State, step: Step)
    requires Intact(w, s) && Enabled(w, s, step) && (step.Deliver? || step.Handle? || step.Crash?)
    ensures Intact(w, Next(w, s, step))
  {
    ConsumerMoves(w, s, step);
    MoveRequeues(w, s, Next(w, s, step));
  }

  lemma StepRequeues(w: World, s: State, step: Step)
    requires Sound(w) && w.policy.Requeue? && Invariant(w, s) && Intact(w, s) && Enabled(w, s, step)
    ensures Intact(w, Next(w, s, step))
  {
    match step {
      case Publish(_) => PublishRequeues(w, s, step);
      case Deliver(_, _) => ConsumerRequeues(w, s, step);
      case Handle(_, _) => ConsumerRequeues(w, s, step);
      case Crash(_) => ConsumerRequeues(w, s, step);
      case Expire(t) =>
        assert CopyFits(w, s, t, s.live[t]);
        ExpireRequeues(w, s, t);
      case Apply(ch) =>
        var t := HeadIsDue(s, ch);
        ApplyRequeues(w, s, ch, t);
    }
  }

  lemma {:induction false} RunRequeues(w: World, s: State, steps: seq<Step>)
    requires Sound(w) && w.policy.Requeue? && Invariant(w, s) && Intact(w, s) && Possible(w, s, steps)
    ensures Invariant(w, Exec(w, s, steps)) && Intact(w, Exec(w, s, steps))
    decreases |steps|
  {
    if steps != [] {
      StepKeeps(w, s, steps[0]);
      StepRequeues(w, s, steps[0]);
      RunRequeues(w, Next(w, s, steps[0]), steps[1..]);
    }
  }

  // -------------------------------------------------------------------------------------------
  // The account.

  ghost function Waiting(w: World, s: State): set<Tag> {
    set t | t in s.live && Working(w, t) && s.live[t].place.Ready?
  }

  ghost function Unacknowledged(w: World, s: State): set<Tag> {
    set t | t in s.live && Working(w, t) && s.live[t].place.Held?
  }

  ghost function Gone(s: State, exit: Exit): set<Tag> {
    set t | t in s.left && s.left[t] == exit
  }

  /** After any run of the notification consumer, crashes and expiry included: every published copy is waiting,
      unacknowledged, acknowledged or expired, each once; acknowledged copies have had a completed send; no
      settlement put anything in the DLQ, which holds only what expired; and no message
      has two live copies. */
  lemma NotificationsAccountedFor(w: World, steps: seq<Step>)
    requires Sound(w) && w.policy.Requeue? && Possible(w, INITIAL, steps)
    ensures var s := Exec(w, INITIAL, steps);
            && s.roots == Waiting(w, s) + Unacknowledged(w, s) + Gone(s, Acked) + Gone(s, Expired)
            && |s.roots| == |Waiting(w, s)| + |Unacknowledged(w, s)| + |Gone(s, Acked)| + |Gone(s, Expired)|
            && Gone(s, Acked) <= s.served
            && Gone(s, DeadLettered) == {}
            && (forall t | t in s.live && t.queue == w.cfg.dlq :: s.live[t].root in Gone(s, Expired))
            && (forall t, u | t in s.live && u in s.live && s.live[t].root == s.live[u].root :: t == u)
  {
    RunRequeues(w, INITIAL, steps);
    Account(w, Exec(w, INITIAL, steps));
  }

  lemma Account(w: World, s: State)
    requires Sound(w) && Invariant(w, s) && Intact(w, s)
    ensures s.roots == Waiting(w, s) + Unacknowledged(w, s) + Gone(s, Acked) + Gone(s, Expired)
    ensures |s.roots| == |Waiting(w, s)| + |Unacknowledged(w, s)| + |Gone(s, Acked)| + |Gone(s, Expired)|
    ensures Gone(s, Acked) <= s.served && Gone(s, DeadLettered) == {}
    ensures forall t | t in s.live && t.queue == w.cfg.dlq :: s.live[t].root in Gone(s, Expired)
  {
    EachOnce(w, s);
    assert forall t | t in s.left :: LeftProperly(s, t);
    assert w.cfg.dlq !in Names(w.cfg.queues);
    forall t | t in s.live && t.queue == w.cfg.dlq ensures s.live[t].root in Gone(s, Expired) {
      assert Untouched(w, s, t, s.live[t]);
    }
  }

  lemma RootSomewhere(w: World, s: State, r: Tag)
    requires BooksBalance(s) && Intact(w, s) && r in s.roots
    ensures r in Waiting(w, s) || r in Unacknowledged(w, s) || r in Gone(s, Acked) || r in Gone(s, Expired)
  {
    assert r in s.accepted && Working(w, r);
    if r in s.left { assert LeftProperly(s, r); }
  }

  lemma PartsAreRoots(w: World, s: State)
    requires Intact(w, s)
    ensures Waiting(w, s) + Unacknowledged(w, s) <= s.roots
    ensures Gone(s, Acked) + Gone(s, Expired) <= s.roots
  {
    forall t | t in Waiting(w, s) + Unacknowledged(w, s) ensures t in s.roots { assert Untouched(w, s, t, s.live[t]); }
    forall t | t in Gone(s, Acked) + Gone(s, Expired) ensures t in s.roots { assert LeftProperly(s, t); }
  }

  lemma PartsApart(w: World, s: State)
    requires s.live.Keys !! s.left.Keys
    ensures Waiting(w, s) !! Unacknowledged(w, s) && Gone(s, Acked) !! Gone(s, Expired)
    ensures Waiting(w, s) + Unacknowledged(w, s) !! Gone(s, Acked) + Gone(s, Expired)
  {
  }

  lemma SizeOfParts(a: set<Tag>, b: set<Tag>, c: set<Tag>, d: set<Tag>)
    requires a !! b && c !! d && a + b !! c + d
    ensures |a + b + c + d| == |a| + |b| + |c| + |d|
  {
    assert a + b + c + d == (a + b) + (c + d);
  }

  lemma RootsAreParts(w: World, s: State)
    requires BooksBalance(s) && Intact(w, s)
    ensures s.roots == Waiting(w, s) + Unacknowledged(w, s) + Gone(s, Acked) + Gone(s, Expired)
  {
    PartsAreRoots(w, s);
    forall r | r in s.roots
      ensures r in Waiting(w, s) + Unacknowledged(w, s) + Gone(s, Acked) + Gone(s, Expired)
    {
      RootSomewhere(w, s, r);
    }
  }

  lemma EachOnce(w: World, s: State)
    requires BooksBalance(s) && Intact(w, s)
    ensures s.roots == Waiting(w, s) + Unacknowledged(w, s) + Gone(s, Acked) + Gone(s, Expired)
    ensures |s.roots| == |Waiting(w, s)| + |Unacknowledged(w, s)| + |Gone(s, Acked)| + |Gone(s, Expired)|
  {
    RootsAreParts(w, s);
    PartsApart(w, s);
    SizeOfParts(Waiting(w, s), Unacknowledged(w, s), Gone(s, Acked), Gone(s, Expired));
  }
}
