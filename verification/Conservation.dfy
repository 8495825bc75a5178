/** Exact bookkeeping of `consumeWithRetry` when a key reaches one queue and no channel dies: every published
    message is in exactly one place, and its attempt header counts its failures. */
module Conservation {
  import opened Wrappers
  import opened Topology
  import opened Consumer
  import opened BrokerRun
  import opened NoLoss
  import opened Termination
  import opened Sums

  /** What the runs of this module are made of. */
  predicate Orderly(w: World, step: Step) {
    match step
    case Publish(m) => Attempt(m) == Int(0) && Fan(w, m) <= 1
    case Deliver(_, _) => true
    case Handle(_, _) => true
    case Apply(_) => true
    case Expire(_) => false
    case Crash(_) => false
  }

  /** Failed handler runs after which a message is given up. */
  function Allowed(w: World): nat {
    if w.policy.Retry? && w.policy.maxAttempts > 1 then w.policy.maxAttempts else 1
  }

  /** The copy a message published as `r` currently is. */
  predicate Current(s: State, r: Tag, t: Tag) {
    t in s.live && s.live[t].root == r && Stands(s.live[t])
  }

  /** A failed run not yet in the attempt header: the settlement is on its way. */
  function Unrecorded(c: Copy): nat {
    if In(c, Failed) || In(c, Rejected) then 1 else 0
  }

  predicate Counted(w: World, s: State, r: Tag, t: Tag)
    requires t in s.live
  {
    if Working(w, t) then
      && Attempt(s.live[t].message).Int?
      && 0 <= Attempt(s.live[t].message).n < Allowed(w)
      && Failures(s, r) == Attempt(s.live[t].message).n + Unrecorded(s.live[t])
    else
      Failures(s, r) == Allowed(w)
  }

  ghost predicate Tracked(w: World, s: State, r: Tag) {
    && (forall t, u | Current(s, r, t) && Current(s, r, u) :: t == u)
    && (r in s.finished <==> forall t :: !Current(s, r, t))
    && (forall t | Current(s, r, t) :: Counted(w, s, r, t))
    && (r in s.finished ==> Failures(s, r) < Allowed(w))
  }

  ghost predicate AllTracked(w: World, s: State) {
    forall r | r in s.roots :: Tracked(w, s, r)
  }

  ghost predicate Rooted(w: World, s: State) {
    && (forall t | t in s.live :: s.live[t].root in s.roots)
    && (forall t | t in s.live && Working(w, t) :: Targets(w, s.live[t].message) == {t.queue})
    && s.failures.Keys <= s.roots <= s.accepted
    && s.finished <= s.roots
  }

  ghost predicate Conserved(w: World, s: State) {
    AllTracked(w, s) && Rooted(w, s)
  }

  ghost predicate Fits(w: World, s: State) {
    Sound(w) && w.policy.Retry? && Invariant(w, s) && Conserved(w, s)
  }

  // -------------------------------------------------------------------------------------------
  // Steps.

  /** Messages other than `r` are tracked as before when only copies of `r` changed. */
  lemma OthersTracked(w: World, s: State, s': State, r: Tag)
    requires Conserved(w, s)
    requires forall q, t | q != r && q in s.roots :: Current(s, q, t) <==> Current(s', q, t)
    requires forall q, t | q != r && q in s.roots && Current(s, q, t) ::
               t in s'.live && s'.live[t].message == s.live[t].message && Unrecorded(s'.live[t]) == Unrecorded(s.live[t])
    requires forall q | q != r && q in s.roots :: Failures(s', q) == Failures(s, q) && (q in s'.finished <==> q in s.finished)
    ensures forall q | q != r && q in s.roots :: Tracked(w, s', q)
  {
    forall q | q != r && q in s.roots ensures Tracked(w, s', q) {
      assert Tracked(w, s, q);
      forall t | Current(s', q, t) ensures Counted(w, s', q, t) {
        assert Current(s, q, t) && Counted(w, s, q, t);
      }
      if q in s.finished {
        forall t ensures !Current(s', q, t) { assert !Current(s, q, t); }
      } else {
        var t :| Current(s, q, t);
        assert Current(s', q, t);
      }
    }
  }

  lemma SingleTarget(w: World, s: State, m: Message)
    requires Fan(w, m) <= 1
    ensures forall t, u | t in Fresh(w, s, m, {}, None) && u in Fresh(w, s, m, {}, None) :: t == u
    ensures forall t | t in Fresh(w, s, m, {}, None) :: Targets(w, m) == {t.queue}
  {
    forall p, q | p in Targets(w, m) && q in Targets(w, m) ensures p == q {
      if p != q {
        assert {p, q} <= Targets(w, m);
        SubsetSize({p, q}, Targets(w, m));
      }
    }
  }

  /** At most one fresh copy arrives, the first of its message. */
  ghost predicate Arrival(w: World, s: State, s': State, copies: map<Tag, Copy>) {
    && s'.live == s.live + copies && s'.roots == s.roots + copies.Keys && s'.accepted == s.accepted + copies.Keys
    && s'.failures == s.failures && s'.finished == s.finished
    && (forall t | t in copies :: t !in s.accepted && t !in s.live && copies[t].root == t && copies[t].place.Ready?)
    && (forall t | t in copies :: Working(w, t) && Targets(w, copies[t].message) == {t.queue})
    && (forall t | t in copies :: Attempt(copies[t].message) == Int(0))
  }

  lemma ArrivedTracked(w: World, s: State, s': State, copies: map<Tag, Copy>, r: Tag)
    requires Rooted(w, s) && Arrival(w, s, s', copies) && r in copies
    ensures Tracked(w, s', r)
  {
    assert Current(s', r, r);
    assert forall t | t in s.live :: s.live[t].root != r;
    assert forall t | Current(s', r, t) :: t == r;
    assert Failures(s', r) == 0;
    assert Counted(w, s', r, r);
  }

  lemma OlderTracked(w: World, s: State, s': State, copies: map<Tag, Copy>, r: Tag)
    requires Rooted(w, s) && Arrival(w, s, s', copies) && r in s.roots && Tracked(w, s, r)
    ensures Tracked(w, s', r)
  {
    forall t ensures Current(s', r, t) <==> Current(s, r, t) {}
    forall t | Current(s', r, t) ensures Counted(w, s', r, t) {
      assert Current(s, r, t) && Counted(w, s, r, t) && s'.live[t] == s.live[t];
    }
  }

  lemma ArrivalConserves(w: World, s: State, s': State, copies: map<Tag, Copy>)
    requires Conserved(w, s) && Arrival(w, s, s', copies)
    ensures Conserved(w, s')
  {
    forall r | r in s'.roots ensures Tracked(w, s', r) {
      if r in s.roots {
        OlderTracked(w, s, s', copies, r);
      } else {
        ArrivedTracked(w, s, s', copies, r);
      }
    }
    forall t | t in s'.live ensures s'.live[t].root in s'.roots {
      if t !in copies { assert s.live[t].root in s.roots; }
    }
  }

  lemma PublishArrives(w: World, s: State, step: Step)
    requires Sound(w) && BooksBalance(s) && step.Publish? && Enabled(w, s, step) && Orderly(w, step)
    ensures Arrival(w, s, Next(w, s, step), Fresh(w, s, step.message, {}, None))
  {
    var m := step.message;
    SingleTarget(w, s, m);
    MainExchangeTargets(w, m);
    EnqueueBooks(w, s, m, {}, None);
    assert s.live.Keys <= s.accepted;
  }

  lemma PublishConserves(w: World, s: State, step: Step)
    requires Sound(w) && BooksBalance(s) && Conserved(w, s) && step.Publish? && Enabled(w, s, step) && Orderly(w, step)
    ensures Conserved(w, Next(w, s, step))
  {
    PublishArrives(w, s, step);
    ArrivalConserves(w, s, Next(w, s, step),
                     Fresh(w, s, step.message, {}, None));
  }

  lemma MovedTracked(w: World, s: State, s': State, t: Tag)
    requires t in s.live && Working(w, t) && Current(s, s.live[t].root, t) && Tracked(w, s, s.live[t].root)
    requires s'.live.Keys == s.live.Keys && s'.finished == s.finished
    requires forall u | u in s.live && u != t :: s'.live[u] == s.live[u]
    requires s'.live[t] == s.live[t].(place := s'.live[t].place) && Stands(s'.live[t])
    requires Failures(s', s.live[t].root) - Unrecorded(s'.live[t]) == Failures(s, s.live[t].root) - Unrecorded(s.live[t])
    ensures Tracked(w, s', s.live[t].root)
  {
    var r := s.live[t].root;
    assert Counted(w, s, r, t);
    assert forall u :: Current(s', r, u) <==> Current(s, r, u);
    assert Counted(w, s', r, t);
  }

  /** A delivery moves on without leaving its queue: deliver and handle. */
  lemma MoveConserves(w: World, s: State, s': State, t: Tag)
    requires Conserved(w, s) && t in s.live && Working(w, t) && Current(s, s.live[t].root, t)
    requires s'.live.Keys == s.live.Keys && s'.roots == s.roots && s'.accepted == s.accepted && s'.finished == s.finished
    requires forall u | u in s.live && u != t :: s'.live[u] == s.live[u]
    requires s'.live[t] == s.live[t].(place := s'.live[t].place) && Stands(s'.live[t])
    requires s'.failures.Keys <= s.failures.Keys + {s.live[t].root}
    requires forall q | q != s.live[t].root :: Failures(s', q) == Failures(s, q)
    requires Failures(s', s.live[t].root) - Unrecorded(s'.live[t]) == Failures(s, s.live[t].root) - Unrecorded(s.live[t])
    ensures Conserved(w, s')
  {
    MovedTracked(w, s, s', t);
    OthersTracked(w, s, s', s.live[t].root);
    assert Rooted(w, s');
    forall q | q in s'.roots ensures Tracked(w, s', q) {}
  }

  lemma DeliverConserves(w: World, s: State, step: Step)
    requires Conserved(w, s) && step.Deliver? && Enabled(w, s, step)
    ensures Conserved(w, Next(w, s, step))
  {
    MoveConserves(w, s, Next(w, s, step), step.tag);
  }

  /** A failed run is counted once, and is at first not in the attempt header. */
  lemma HandledShape(w: World, s: State, step: Step)
    requires w.policy.Retry? && step.Handle? && Enabled(w, s, step)
    ensures var s', t := Next(w, s, step), step.tag;
            && s'.live == s.live[t := s.live[t].(place := s'.live[t].place)] && Stands(s'.live[t])
            && s'.roots == s.roots && s'.accepted == s.accepted && s'.finished == s.finished
            && s'.failures.Keys <= s.failures.Keys + {s.live[t].root}
            && (forall q | q != s.live[t].root :: Failures(s', q) == Failures(s, q))
            && Failures(s', s.live[t].root) - Unrecorded(s'.live[t]) == Failures(s, s.live[t].root) - Unrecorded(s.live[t])
  {
  }

  lemma HandleConserves(w: World, s: State, step: Step)
    requires Conserved(w, s) && w.policy.Retry? && step.Handle? && Enabled(w, s, step) && Working(w, step.tag)
    ensures Conserved(w, Next(w, s, step))
  {
    HandledShape(w, s, step);
    MoveConserves(w, s, Next(w, s, step), step.tag);
  }

  lemma ReplacedTracked(w: World, s: State, s': State, t: Tag, again: Tag)
    requires t in s.live && Current(s, s.live[t].root, t) && Tracked(w, s, s.live[t].root)
    requires again !in s.live && again in s'.live
    requires forall u | u != t && u != again :: u in s'.live <==> u in s.live
    requires forall u | u in s.live && u != t :: u in s'.live && s'.live[u] == s.live[u]
    requires t in s'.live ==> !Stands(s'.live[t])
    requires s'.live[again].root == s.live[t].root && s'.live[again].place.Ready?
    requires s'.finished == s.finished && Counted(w, s', s.live[t].root, again)
    ensures Tracked(w, s', s.live[t].root)
  {
    var r := s.live[t].root;
    assert Current(s', r, again) && r !in s.finished;
    forall u | Current(s', r, u) && u != again ensures false {
      assert u != t && Current(s, r, u);
    }
  }

  /** Only copies of the message of `t` changed. */
  ghost predicate OthersKept(s: State, s': State, t: Tag, again: Tag)
    requires t in s.live && again in s'.live
  {
    && again !in s.live && s'.live[again].root == s.live[t].root
    && (forall u | u != t && u != again :: u in s'.live <==> u in s.live)
    && (forall u | u in s.live && u != t :: u in s'.live && s'.live[u] == s.live[u])
    && (t in s'.live ==> s'.live[t].root == s.live[t].root)
  }

  lemma OthersCurrent(s: State, s': State, t: Tag, again: Tag)
    requires t in s.live && again in s'.live && OthersKept(s, s', t, again)
    ensures forall q, u | q != s.live[t].root :: Current(s, q, u) <==> Current(s', q, u)
  {
    forall q, u | q != s.live[t].root ensures Current(s, q, u) <==> Current(s', q, u) {
      if u == again { assert !Current(s, q, u) && !Current(s', q, u); }
    }
  }

  /** Copy `t` stops being what its message currently is, and `again` takes over. */
  lemma Replaced(w: World, s: State, s': State, t: Tag, again: Tag)
    requires Conserved(w, s) && t in s.live && Current(s, s.live[t].root, t)
    requires again in s'.live && OthersKept(s, s', t, again)
    requires t in s'.live ==> s'.live[t].message == s.live[t].message && !Stands(s'.live[t])
    requires s'.live[again].place.Ready?
    requires Working(w, again) ==> Targets(w, s'.live[again].message) == {again.queue}
    requires s'.roots == s.roots && s'.failures == s.failures && s'.finished == s.finished && s.accepted <= s'.accepted
    requires Counted(w, s', s.live[t].root, again)
    ensures Conserved(w, s')
  {
    ReplacedTracked(w, s, s', t, again);
    OthersCurrent(s, s', t, again);
    OthersTracked(w, s, s', s.live[t].root);
    ReplacedRooted(w, s, s', t, again);
    forall q | q in s'.roots ensures Tracked(w, s', q) {}
  }

  lemma ReplacedRooted(w: World, s: State, s': State, t: Tag, again: Tag)
    requires Rooted(w, s) && t in s.live && again in s'.live
    requires forall u | u in s'.live && u != t && u != again :: u in s.live && s'.live[u] == s.live[u]
    requires t in s'.live ==> s'.live[t].root == s.live[t].root && s'.live[t].message == s.live[t].message
    requires s'.live[again].root == s.live[t].root
    requires Working(w, again) ==> Targets(w, s'.live[again].message) == {again.queue}
    requires s'.roots == s.roots && s'.failures == s.failures && s'.finished == s.finished && s.accepted <= s'.accepted
    ensures Rooted(w, s')
  {
  }

  /** Copy `t` waits for its ack, and a retry of it is back in its queue as `again`. */
  predicate RetriedAs(s: State, s': State, ch: nat, t: Tag, again: Tag)
    requires t in s.live
  {
    var c := s.live[t];
    && s'.live == s.live[t := c.(place := Held(ch, Republished))]
                        [again := Copy(Retried(c.message), Ready, c.lineage + {again}, c.root)]
    && s'.roots == s.roots && s'.accepted == s.accepted + {again}
    && s'.failures == s.failures && s'.finished == s.finished
  }

  lemma RetryShape(w: World, s: State, ch: nat, t: Tag)
    requires t in s.live && Targets(w, s.live[t].message) == {t.queue}
    ensures var c := s.live[t];
            var s' := Enqueue(w, Halfway(s, ch, t), Retried(c.message), c.lineage, Some(c.root));
            RetriedAs(s, s', ch, t, Tag(s.serial, t.queue))
  {
    RetriedKeepsMessage(s.live[t].message);
    OneFresh(w, Halfway(s, ch, t), Retried(s.live[t].message), s.live[t].lineage, s.live[t].root, t.queue);
  }

  lemma NotYet(s: State, queue: string)
    requires BooksBalance(s)
    ensures Tag(s.serial, queue) !in s.live
  {
    assert forall u | u in s.live :: u in s.accepted && u.serial < s.serial;
  }

  lemma RetryReplaces(w: World, s: State, ch: nat, t: Tag)
    requires BooksBalance(s) && Conserved(w, s) && w.policy.Retry?
    requires t in s.live && In(s.live[t], Failed) && Working(w, t)
    requires !Exhausted(Attempt(s.live[t].message), w.policy.maxAttempts)
    ensures var c := s.live[t];
            Conserved(w, Enqueue(w, Halfway(s, ch, t), Retried(c.message), c.lineage, Some(c.root)))
  {
    RetryShape(w, s, ch, t);
    NotYet(s, t.queue);
    RetriedReplaces(w, s, Enqueue(w, Halfway(s, ch, t), Retried(s.live[t].message), s.live[t].lineage, Some(s.live[t].root)),
                    ch, t, Tag(s.serial, t.queue));
  }

  lemma RetryConserves(w: World, s: State, ch: nat, t: Tag)
    requires BooksBalance(s) && Conserved(w, s) && w.policy.Retry?
    requires Out(s, ch) != [] && t in s.live && s.live[t].place == Held(ch, Failed) && Placed(w, t, s.live[t])
    requires Out(s, ch)[0] == Command.Publish(Some(t), Retried(s.live[t].message))
    ensures Conserved(w, Next(w, s, Apply(ch)))
  {
    RetryReplaces(w, s, ch, t);
    AppliedPublish(w, s, ch, t);
  }

  lemma OneFresh(w: World, s: State, m: Message, lineage: set<Tag>, root: Tag, queue: string)
    requires Targets(w, m) == {queue}
    ensures var s' := Enqueue(w, s, m, lineage, Some(root));
            && s'.live == s.live[Tag(s.serial, queue) := Copy(m, Ready, lineage + {Tag(s.serial, queue)}, root)]
            && s'.accepted == s.accepted + {Tag(s.serial, queue)} && s'.roots == s.roots
  {
    assert Tags(s.serial, {queue}) == {Tag(s.serial, queue)};
  }

  /** The retry counts the failure that was not yet in the header. */
  lemma RetryCounts(w: World, s: State, s': State, ch: nat, t: Tag, again: Tag)
    requires t in s.live && RetriedAs(s, s', ch, t, again) && Counted(w, s, s.live[t].root, t)
    requires Working(w, t) && again.queue == t.queue && In(s.live[t], Failed)
    requires w.policy.Retry? && !Exhausted(Attempt(s.live[t].message), w.policy.maxAttempts)
    ensures Counted(w, s', s.live[t].root, again)
  {
    RetriedKeepsMessage(s.live[t].message);
  }

  lemma RetriedReplaces(w: World, s: State, s': State, ch: nat, t: Tag, again: Tag)
    requires Conserved(w, s) && t in s.live && again !in s.live && RetriedAs(s, s', ch, t, again)
    requires Working(w, t) && again.queue == t.queue && In(s.live[t], Failed)
    requires w.policy.Retry? && !Exhausted(Attempt(s.live[t].message), w.policy.maxAttempts)
    ensures Conserved(w, s')
  {
    assert Current(s, s.live[t].root, t);
    assert Tracked(w, s, s.live[t].root) && Counted(w, s, s.live[t].root, t);
    RetryCounts(w, s, s', ch, t, again);
    RetriedSameTargets(w, s.live[t].message);
    Replaced(w, s, s', t, again);
  }

  lemma RejectConserves(w: World, s: State, ch: nat, t: Tag)
    requires Sound(w) && BooksBalance(s) && Conserved(w, s) && w.policy.Retry?
    requires Out(s, ch) != [] && t in s.live && Placed(w, t, s.live[t])
    requires s.live[t].place == Held(ch, Rejected) && Out(s, ch)[0] == Nack(t, false)
    ensures Conserved(w, Next(w, s, Apply(ch)))
  {
    var s1, again := Taken(s, ch), Tag(s.serial, w.cfg.dlq);
    DeadLetterShape(w, s1, t, DeadLettered);
    NotYet(s, w.cfg.dlq);
    RejectedReplaced(w, s, DeadLettering(w, s1, t, DeadLettered), t, again);
    AppliedNack(w, s, ch, t, false);
  }

  lemma RejectedReplaced(w: World, s: State, s': State, t: Tag, again: Tag)
    requires Conserved(w, s) && w.policy.Retry? && t in s.live && In(s.live[t], Rejected) && Working(w, t)
    requires Exhausted(Attempt(s.live[t].message), w.policy.maxAttempts) && !Working(w, again)
    requires again !in s.live && again in s'.live && s'.live == (s.live - {t})[again := s'.live[again]]
    requires s'.live[again].root == s.live[t].root && s'.live[again].place.Ready?
    requires s'.roots == s.roots && s'.failures == s.failures && s'.finished == s.finished && s.accepted <= s'.accepted
    ensures Conserved(w, s')
  {
    var r := s.live[t].root;
    assert Current(s, r, t) && Tracked(w, s, r) && Counted(w, s, r, t);
    Replaced(w, s, s', t, again);
  }

  lemma DeadLetterShape(w: World, s: State, t: Tag, exit: Exit)
    requires Sound(w) && t in s.live && Working(w, t)
    ensures var s', again := DeadLettering(w, s, t, exit), Tag(s.serial, w.cfg.dlq);
            && again in s'.live && s'.live == (s.live - {t})[again := s'.live[again]]
            && s'.live[again].root == s.live[t].root && s'.live[again].place.Ready?
            && s'.roots == s.roots && s'.failures == s.failures && s'.finished == s.finished
            && s'.accepted == s.accepted + {again}
            && s'.left == s.left[t := exit] && s'.served == s.served
            && !Working(w, again)
  {
    DeadLetterTargets(w, t);
    var dl := Built(w.cfg).queues[t.queue].deadLetter.value;
    var m := Message(dl.exchange, dl.key, s.live[t].message.content, s.live[t].message.properties.(expiration := None));
    MainExchangeTargets(w, m.(exchange := w.cfg.exchange));
    OneFresh(w, Leave(s, t, exit), m, s.live[t].lineage, s.live[t].root, w.cfg.dlq);
  }

  lemma AckConserves(w: World, s: State, ch: nat, t: Tag)
    requires Conserved(w, s) && Out(s, ch) != [] && t in s.live && Working(w, t)
    requires s.live[t].place in {Held(ch, Republished), Held(ch, Succeeded)} && Out(s, ch)[0] == Ack(t)
    ensures Conserved(w, Next(w, s, Apply(ch)))
  {
    var s', r := Next(w, s, Apply(ch)), s.live[t].root;
    assert s'.live == s.live - {t};
    if In(s.live[t], Succeeded) {
      FinishConserves(w, s, s', t);
    } else {
      RetiredConserves(w, s, s', t);
    }
  }

  lemma FinishConserves(w: World, s: State, s': State, t: Tag)
    requires Conserved(w, s) && t in s.live && Working(w, t) && In(s.live[t], Succeeded)
    requires s'.live == s.live - {t} && s'.roots == s.roots && s'.failures == s.failures && s'.accepted == s.accepted
    requires s'.finished == s.finished + {s.live[t].root}
    ensures Conserved(w, s')
  {
    var r := s.live[t].root;
    assert Current(s, r, t);
    FinishedTracked(w, s, s', t);
    OthersStay(s, s', t);
    OthersTracked(w, s, s', r);
    FinishedRooted(w, s, s', t);
  }

  lemma OthersStay(s: State, s': State, t: Tag)
    requires t in s.live && s'.live == s.live - {t}
    ensures forall q, u | q != s.live[t].root :: Current(s, q, u) <==> Current(s', q, u)
  {
  }

  lemma FinishedRooted(w: World, s: State, s': State, t: Tag)
    requires Rooted(w, s) && t in s.live
    requires s'.live == s.live - {t} && s'.roots == s.roots && s'.failures == s.failures && s'.accepted == s.accepted
    requires s'.finished == s.finished + {s.live[t].root}
    ensures Rooted(w, s')
  {
  }

  lemma FinishedTracked(w: World, s: State, s': State, t: Tag)
    requires t in s.live && Tracked(w, s, s.live[t].root) && Working(w, t) && In(s.live[t], Succeeded)
    requires s'.live == s.live - {t} && s'.failures == s.failures && s'.finished == s.finished + {s.live[t].root}
    ensures Tracked(w, s', s.live[t].root)
  {
    var r := s.live[t].root;
    assert Current(s, r, t) && Counted(w, s, r, t);
    forall u ensures !Current(s', r, u) {
      if Current(s', r, u) { assert Current(s, r, u); }
    }
  }

  lemma RetiredConserves(w: World, s: State, s': State, t: Tag)
    requires Conserved(w, s) && t in s.live && !Stands(s.live[t])
    requires s'.live == s.live - {t} && s'.roots == s.roots && s'.failures == s.failures && s'.accepted == s.accepted
    requires s'.finished == s.finished
    ensures Conserved(w, s')
  {
    forall r | r in s.roots ensures Tracked(w, s', r) {
      RetiredTracked(w, s, s', t, r);
    }
  }

  lemma RetiredTracked(w: World, s: State, s': State, t: Tag, r: Tag)
    requires t in s.live && !Stands(s.live[t]) && Tracked(w, s, r)
    requires s'.live == s.live - {t} && s'.failures == s.failures && s'.finished == s.finished
    ensures Tracked(w, s', r)
  {
    forall u ensures Current(s', r, u) <==> Current(s, r, u) {}
    forall u | Current(s', r, u) ensures Counted(w, s', r, u) { assert Current(s, r, u) && Counted(w, s, r, u); }
  }

  lemma StepConserves(w: World, s: State, step: Step)
    requires Fits(w, s) && Enabled(w, s, step) && Orderly(w, step)
    ensures Fits(w, Next(w, s, step))
  {
    StepKeeps(w, s, step);
    ConservedBy(w, s, step);
  }

  lemma ConservedBy(w: World, s: State, step: Step)
    requires Fits(w, s) && Enabled(w, s, step) && Orderly(w, step)
    ensures Conserved(w, Next(w, s, step))
  {
    match step {
      case Publish(_) => PublishConserves(w, s, step);
      case Deliver(_, _) => DeliverConserves(w, s, step);
      case Handle(t, _) =>
        assert CopyFits(w, s, t, s.live[t]);
        HandleConserves(w, s, step);
      case Apply(ch) =>
        var t := HeadIsDue(s, ch);
        assert CopyFits(w, s, t, s.live[t]);
        match s.live[t].place.phase {
          case Failed => RetryConserves(w, s, ch, t);
          case Rejected => RejectConserves(w, s, ch, t);
          case Republished => AckConserves(w, s, ch, t);
          case Succeeded => AckConserves(w, s, ch, t);
        }
    }
  }

  lemma {:induction false} RunConserves(w: World, s: State, steps: seq<Step>)
    requires Fits(w, s) && Possible(w, s, steps) && forall i | 0 <= i < |steps| :: Orderly(w, steps[i])
    ensures Fits(w, Exec(w, s, steps))
    decreases |steps|
  {
    if steps != [] {
      StepConserves(w, s, steps[0]);
      RunConserves(w, Next(w, s, steps[0]), steps[1..]);
    }
  }

  /** The message published as `r` is acknowledged as handled or is exactly one copy, not both; the attempt
      header of that copy, while in a work queue, is the number of recorded failures and below the limit; and
      the copy is in the DLQ, or about to be nacked into it, exactly when the limit is reached. */
  ghost predicate InOnePlace(w: World, s: State, r: Tag) {
    && (r in s.finished <==> forall t :: !Current(s, r, t))
    && (forall t, u | Current(s, r, t) && Current(s, r, u) :: t == u)
    && (forall t | Current(s, r, t) && Working(w, t) ::
          && Attempt(s.live[t].message).Int? && Attempt(s.live[t].message).n < Allowed(w)
          && Failures(s, r) == Attempt(s.live[t].message).n + Unrecorded(s.live[t]))
    && (Failures(s, r) == Allowed(w) <==>
          exists t :: Current(s, r, t) && (t.queue == w.cfg.dlq || In(s.live[t], Rejected)))
  }

  lemma WhereItIs(w: World, s: State, r: Tag)
    requires Sound(w) && w.policy.Retry? && CopiesFit(w, s) && Tracked(w, s, r)
    ensures InOnePlace(w, s, r)
  {
    assert w.cfg.dlq !in Names(w.cfg.queues);
    forall t | Current(s, r, t)
      ensures Failures(s, r) == Allowed(w) <==> t.queue == w.cfg.dlq || In(s.live[t], Rejected)
    {
      assert Counted(w, s, r, t) && CopyFits(w, s, t, s.live[t]);
    }
  }

  lemma InitialFits(w: World)
    requires Sound(w) && w.policy.Retry?
    ensures Fits(w, INITIAL)
  {
  }

  lemma FitIsInOnePlace(w: World, s: State, r: Tag)
    requires Fits(w, s) && r in s.roots
    ensures InOnePlace(w, s, r)
  {
    assert Tracked(w, s, r);
    WhereItIs(w, s, r);
  }

  lemma EveryMessageInOnePlace(w: World, steps: seq<Step>, r: Tag)
    requires Sound(w) && w.policy.Retry?
    requires Possible(w, INITIAL, steps) && forall i | 0 <= i < |steps| :: Orderly(w, steps[i])
    requires r in Exec(w, INITIAL, steps).roots
    ensures InOnePlace(w, Exec(w, INITIAL, steps), r)
  {
    InitialFits(w);
    RunConserves(w, INITIAL, steps);
    FitIsInOnePlace(w, Exec(w, INITIAL, steps), r);
  }
}
