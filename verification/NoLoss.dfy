/** Whatever the handlers do, and wherever a channel dies, no message accepted on a declared queue is lost. */
module NoLoss {
  import opened Wrappers
  import opened Topology
  import opened Consumer
  import opened BrokerRun

  // -------------------------------------------------------------------------------------------
  // Channel contents.

  lemma {:induction false} ForAppend(a: seq<Command>, b: seq<Command>, t: Tag)
    ensures For(a + b, t) == For(a, t) + For(b, t)
  {
    if a == [] {
      assert a + b == b;
    } else {
      assert (a + b)[1..] == a[1..] + b;
      ForAppend(a[1..], b, t);
    }
  }

  /** The command at the head of a channel is the next one due on some delivery held by that channel. */
  lemma HeadIsDue(s: State, ch: nat) returns (t: Tag)
    requires OutboxesFit(s) && Out(s, ch) != []
    ensures TagOf(Out(s, ch)[0]) == Some(t)
    ensures t in s.live && s.live[t].place.Held? && s.live[t].place.channel == ch
    ensures Due(t, s.live[t]) != [] && Out(s, ch)[0] == Due(t, s.live[t])[0]
    ensures For(Out(s, ch)[1..], t) == Due(t, s.live[t])[1..]
    ensures forall u | u != t :: For(Out(s, ch)[1..], u) == For(Out(s, ch), u)
  {
    assert TagOf(Out(s, ch)[0]).Some?;
    t := TagOf(Out(s, ch)[0]).value;
    assert For(Out(s, ch), t) == DueOn(s, ch, t);
  }

  // -------------------------------------------------------------------------------------------
  // Routing.

  /** A message the broker can be asked to take in. */
  predicate Routable(w: World, m: Message) {
    Ours(w, m) || (Targets(w, m) == {w.cfg.dlq} && m.properties.expiration.None?)
  }

  lemma MainExchangeTargets(w: World, m: Message)
    requires Sound(w) && Ours(w, m)
    ensures Targets(w, m) <= Names(w.cfg.queues) && w.cfg.dlq !in Names(w.cfg.queues)
  {
    RoutesStayDeclared(w.cfg, m.exchange, m.key);
  }

  lemma DeadLetterTargets(w: World, t: Tag)
    requires Sound(w) && Working(w, t)
    ensures t.queue in Built(w.cfg).queues && Built(w.cfg).queues[t.queue].deadLetter.Some?
    ensures var dl := Built(w.cfg).queues[t.queue].deadLetter.value;
            Route(Built(w.cfg), dl.exchange, dl.key) == {w.cfg.dlq}
  {
    var q :| q in w.cfg.queues && q.name == t.queue;
    TopologyOutcome(EMPTY, w.cfg);
    DeadLettersArrive(w.cfg, q);
  }

  // -------------------------------------------------------------------------------------------
  // The parts of the invariant, operation by operation.

  lemma FreshPlaced(w: World, s: State, m: Message, lineage: set<Tag>, root: Option<Tag>)
    requires Sound(w) && Routable(w, m)
    ensures forall t, c | t in Fresh(w, s, m, lineage, root) && c == Fresh(w, s, m, lineage, root)[t] ::
              Placed(w, t, c) && c.place.Ready? && c.lineage == lineage + {t} && t.serial == s.serial
  {
    if Ours(w, m) {
      MainExchangeTargets(w, m);
    }
  }

  lemma EnqueueBooks(w: World, s: State, m: Message, lineage: set<Tag>, root: Option<Tag>)
    requires BooksBalance(s)
    ensures var s' := Enqueue(w, s, m, lineage, root);
            && BooksBalance(s')
            && Fresh(w, s, m, lineage, root).Keys !! s.accepted
            && (forall t | t in s.live :: t in s'.live && s'.live[t] == s.live[t])
  {
    var copies := Fresh(w, s, m, lineage, root);
    assert forall t | t in copies :: t.serial == s.serial;
  }

  lemma EnqueueFits(w: World, s: State, m: Message, lineage: set<Tag>, root: Option<Tag>)
    requires Sound(w) && CopiesFit(w, s) && BooksBalance(s)
    requires Routable(w, m) && lineage <= s.accepted
    ensures CopiesFit(w, Enqueue(w, s, m, lineage, root)) && BooksBalance(Enqueue(w, s, m, lineage, root))
    ensures forall t | t in s.live :: t in Enqueue(w, s, m, lineage, root).live
                                      && Enqueue(w, s, m, lineage, root).live[t] == s.live[t]
  {
    var s' := Enqueue(w, s, m, lineage, root);
    EnqueueBooks(w, s, m, lineage, root);
    FreshPlaced(w, s, m, lineage, root);
    forall t | t in s'.live ensures CopyFits(w, s', t, s'.live[t]) {
      if t in s.live {
        assert CopyFits(w, s, t, s.live[t]);
      } else {
        assert t in Fresh(w, s, m, lineage, root) && s'.live[t] == Fresh(w, s, m, lineage, root)[t];
      }
    }
  }

  /** Fresh copies are due nothing, and do not change what other copies are due. */
  lemma EnqueueOutboxes(w: World, s: State, m: Message, lineage: set<Tag>, root: Option<Tag>)
    requires OutboxesFit(s) && BooksBalance(s)
    ensures OutboxesFit(Enqueue(w, s, m, lineage, root))
  {
    var s' := Enqueue(w, s, m, lineage, root);
    forall ch: nat, t: Tag ensures For(Out(s', ch), t) == DueOn(s', ch, t) {
      assert Out(s', ch) == Out(s, ch);
      assert For(Out(s, ch), t) == DueOn(s, ch, t);
      assert t in s.live ==> t.serial < s.serial;
    }
    forall ch: nat, i: nat | i < |Out(s', ch)| ensures TagOf(Out(s', ch)[i]).Some? {
      assert Out(s', ch) == Out(s, ch);
      assert TagOf(Out(s, ch)[i]).Some?;
    }
  }

  /** Every copy that stood for its lineage is, in the new state, served or represented by one that stands. */
  ghost predicate Covers(s: State, s': State) {
    && s.served <= s'.served
    && forall t | t in s.live && Stands(s.live[t]) ::
         s.live[t].lineage <= s'.served
         || exists u | u in s'.live :: Stands(s'.live[u]) && s.live[t].lineage <= s'.live[u].lineage
  }

  lemma CoveredStaysSafe(s: State, s': State)
    requires NothingLost(s) && Covers(s, s')
    ensures forall a | a in s.accepted :: Safe(s', a)
  {
    forall a | a in s.accepted ensures Safe(s', a) {
      assert Safe(s, a);
      if a !in s.served {
        var t :| t in s.live && a in s.live[t].lineage && Stands(s.live[t]);
        if !(s.live[t].lineage <= s'.served) {
          var u :| u in s'.live && Stands(s'.live[u]) && s.live[t].lineage <= s'.live[u].lineage;
        }
      }
    }
  }

  // -------------------------------------------------------------------------------------------
  // Steps.

  lemma MoveFits(w: World, s: State, t: Tag, place: Place)
    requires CopiesFit(w, s) && BooksBalance(s) && t in s.live
    requires Placed(w, t, s.live[t].(place := place))
    requires In(s.live[t].(place := place), Succeeded) ==> s.live[t].lineage <= s.served
    ensures CopiesFit(w, Move(s, t, place)) && BooksBalance(Move(s, t, place))
  {
  }

  /** Moving a copy and changing one channel keeps the channels fitting if it does for that copy and channel. */
  lemma MoveOutboxes(s: State, s': State, ch: nat, t: Tag)
    requires OutboxesFit(s) && t in s.live && s'.live.Keys == s.live.Keys
    requires forall u | u in s.live && u != t :: s'.live[u] == s.live[u]
    requires forall c: nat | c != ch :: Out(s', c) == Out(s, c) && DueOn(s, c, t) == DueOn(s', c, t)
    requires forall u | u != t :: For(Out(s', ch), u) == For(Out(s, ch), u)
    requires For(Out(s', ch), t) == DueOn(s', ch, t)
    requires forall i: nat | i < |Out(s', ch)| :: TagOf(Out(s', ch)[i]).Some?
    ensures OutboxesFit(s')
  {
    forall c: nat, u: Tag ensures For(Out(s', c), u) == DueOn(s', c, u) {
      assert For(Out(s, c), u) == DueOn(s, c, u);
    }
    forall c: nat, i: nat | i < |Out(s', c)| ensures TagOf(Out(s', c)[i]).Some? {
      if c != ch { assert TagOf(Out(s, c)[i]).Some?; }
    }
  }

  /** Deliveries, handler runs and crashes only move copies. */
  lemma ConsumerMoves(w: World, s: State, step: Step)
    requires Enabled(w, s, step) && (step.Deliver? || step.Handle? || step.Crash?)
    ensures var s' := Next(w, s, step);
            && s'.live.Keys == s.live.Keys
            && (forall t | t in s.live :: s'.live[t] == s.live[t].(place := s'.live[t].place))
            && s'.left == s.left && s'.roots == s.roots && s'.accepted == s.accepted && s.served <= s'.served
            && s'.published == s.published && s'.serial == s.serial
  {
  }

  lemma PublishKeeps(w: World, s: State, step: Step)
    requires Sound(w) && Invariant(w, s) && step.Publish? && Enabled(w, s, step)
    ensures Invariant(w, Next(w, s, step))
  {
    var m := step.message;
    var s' := Next(w, s, step);
    EnqueueFits(w, s, m, {}, None);
    EnqueueOutboxes(w, s, m, {}, None);
    assert Covers(s, s');
    CoveredStaysSafe(s, s');
    forall a | a in s'.accepted && a !in s.accepted ensures Safe(s', a) {
      assert a in s'.live && a in s'.live[a].lineage && Stands(s'.live[a]);
    }
  }

  lemma DeliverKeeps(w: World, s: State, step: Step)
    requires Invariant(w, s) && step.Deliver? && Enabled(w, s, step)
    ensures Invariant(w, Next(w, s, step))
  {
    var s' := Next(w, s, step);
    MoveFits(w, s, step.tag, Held(step.channel, Running));
    assert For(Out(s, step.channel), step.tag) == DueOn(s, step.channel, step.tag);
    assert forall i: nat | i < |Out(s, step.channel)| :: TagOf(Out(s, step.channel)[i]).Some?;
    MoveOutboxes(s, s', step.channel, step.tag);
    MovedCovers(s, s', step.tag);
    CoveredStaysSafe(s, s');
  }

  lemma MovedCovers(s: State, s': State, t: Tag)
    requires t in s.live && s'.live.Keys == s.live.Keys && s.served <= s'.served
    requires forall u | u in s.live && u != t :: s'.live[u] == s.live[u]
    requires Stands(s'.live[t]) && s'.live[t].lineage == s.live[t].lineage
    ensures Covers(s, s')
  {
    forall u | u in s.live && Stands(s.live[u])
      ensures exists v | v in s'.live :: Stands(s'.live[v]) && s.live[u].lineage <= s'.live[v].lineage
    {
      assert u in s'.live && Stands(s'.live[u]) && s.live[u].lineage <= s'.live[u].lineage;
    }
  }

  /** What a settlement adds to a channel, delivery by delivery. */
  lemma SettlementFor(policy: Policy, t: Tag, m: Message, ok: bool, c: Copy)
    requires c.message == m && In(c, PhaseAfter(policy, m, ok))
    ensures For(Settlement(policy, Delivery(t, m), ok), t) == Due(t, c)
    ensures forall u | u != t :: For(Settlement(policy, Delivery(t, m), ok), u) == []
    ensures forall x | x in Settlement(policy, Delivery(t, m), ok) :: TagOf(x).Some?
  {
    var more := Settlement(policy, Delivery(t, m), ok);
    forall u: Tag
      ensures For(more, u) == if u == t then more else []
    {
      if |more| == 2 {
        ForAppend([more[0]], [more[1]], u);
        assert more == [more[0]] + [more[1]];
      }
    }
  }

  lemma HandleOutboxes(w: World, s: State, step: Step)
    requires OutboxesFit(s) && step.Handle? && Enabled(w, s, step)
    ensures OutboxesFit(Next(w, s, step))
  {
    var s', t, c := Next(w, s, step), step.tag, s.live[step.tag];
    var ch := c.place.channel;
    var more := Settlement(w.policy, Delivery(t, c.message), step.ok);
    assert For(Out(s, ch), t) == DueOn(s, ch, t) == [];
    SettlementFor(w.policy, t, c.message, step.ok, s'.live[t]);
    assert Out(s', ch) == Out(s, ch) + more;
    forall u ensures For(Out(s', ch), u) == For(Out(s, ch), u) + For(more, u) {
      ForAppend(Out(s, ch), more, u);
    }
    forall i: nat | i < |Out(s', ch)| ensures TagOf(Out(s', ch)[i]).Some? {
      if i < |Out(s, ch)| { assert TagOf(Out(s, ch)[i]).Some?; } else { assert more[i - |Out(s, ch)|] in more; }
    }
    MoveOutboxes(s, s', ch, t);
  }

  lemma HandledPlaced(w: World, s: State, step: Step)
    requires step.Handle? && Enabled(w, s, step) && CopyFits(w, s, step.tag, s.live[step.tag])
    ensures var s', t := Next(w, s, step), step.tag; t in s'.live && CopyFits(w, s', t, s'.live[t])
  {
  }

  lemma HandleFits(w: World, s: State, step: Step)
    requires CopiesFit(w, s) && BooksBalance(s) && step.Handle? && Enabled(w, s, step)
    ensures CopiesFit(w, Next(w, s, step)) && BooksBalance(Next(w, s, step))
  {
    var s' := Next(w, s, step);
    assert CopyFits(w, s, step.tag, s.live[step.tag]);
    HandledPlaced(w, s, step);
    forall u | u in s'.live && u != step.tag ensures CopyFits(w, s', u, s'.live[u]) {
      assert CopyFits(w, s, u, s.live[u]);
    }
  }

  lemma HandleKeeps(w: World, s: State, step: Step)
    requires Invariant(w, s) && step.Handle? && Enabled(w, s, step)
    ensures Invariant(w, Next(w, s, step))
  {
    HandleOutboxes(w, s, step);
    HandleFits(w, s, step);
    MovedCovers(s, Next(w, s, step), step.tag);
    CoveredStaysSafe(s, Next(w, s, step));
  }

  lemma CrashOutboxes(w: World, s: State, step: Step)
    requires OutboxesFit(s) && step.Crash?
    ensures OutboxesFit(Next(w, s, step))
  {
    var s' := Next(w, s, step);
    forall c: nat, t: Tag ensures For(Out(s', c), t) == DueOn(s', c, t) {
      assert For(Out(s, c), t) == DueOn(s, c, t);
    }
    forall c: nat, i: nat | i < |Out(s', c)| ensures TagOf(Out(s', c)[i]).Some? {
      assert TagOf(Out(s, c)[i]).Some?;
    }
  }

  lemma CrashFits(w: World, s: State, step: Step)
    requires CopiesFit(w, s) && BooksBalance(s) && step.Crash?
    ensures CopiesFit(w, Next(w, s, step)) && BooksBalance(Next(w, s, step))
  {
    var s' := Next(w, s, step);
    assert s'.live.Keys == s.live.Keys;
    forall t | t in s'.live ensures CopyFits(w, s', t, s'.live[t]) { assert CopyFits(w, s, t, s.live[t]); }
  }

  lemma CrashCovers(w: World, s: State, step: Step)
    requires step.Crash?
    ensures Covers(s, Next(w, s, step))
  {
    var s' := Next(w, s, step);
    forall t | t in s.live && Stands(s.live[t])
      ensures exists u | u in s'.live :: Stands(s'.live[u]) && s.live[t].lineage <= s'.live[u].lineage
    {
      assert t in s'.live && Stands(s'.live[t]) && s.live[t].lineage <= s'.live[t].lineage;
    }
  }

  lemma CrashKeeps(w: World, s: State, step: Step)
    requires Invariant(w, s) && step.Crash?
    ensures Invariant(w, Next(w, s, step))
  {
    CrashOutboxes(w, s, step);
    CrashFits(w, s, step);
    CrashCovers(w, s, step);
    CoveredStaysSafe(s, Next(w, s, step));
  }

  lemma LeaveFits(w: World, s: State, t: Tag, exit: Exit)
    requires CopiesFit(w, s) && BooksBalance(s) && t in s.live
    ensures CopiesFit(w, Leave(s, t, exit)) && BooksBalance(Leave(s, t, exit))
  {
  }

  /** A copy leaves; its channel, `ch` if it had one, owes it nothing more. */
  lemma LeaveOutboxes(s: State, s': State, t: Tag)
    requires OutboxesFit(s) && s'.live == s.live - {t} && s'.outbox == s.outbox
    requires forall ch: nat :: DueOn(s, ch, t) == []
    ensures OutboxesFit(s')
  {
    forall ch: nat, u: Tag ensures For(Out(s', ch), u) == DueOn(s', ch, u) {
      assert For(Out(s, ch), u) == DueOn(s, ch, u);
    }
    forall ch: nat, i: nat | i < |Out(s', ch)| ensures TagOf(Out(s', ch)[i]).Some? {
      assert TagOf(Out(s, ch)[i]).Some?;
    }
  }

  /** The head of a channel is on its way to the broker. */
  function Taken(s: State, ch: nat): State {
    s.(outbox := s.outbox[ch := if Out(s, ch) == [] then [] else Out(s, ch)[1..]])
  }

  /** The command at the head of a channel goes to the broker and the delivery it settles moves on. */
  lemma HeadTaken(w: World, s: State, ch: nat, t: Tag, place: Place)
    requires CopiesFit(w, s) && OutboxesFit(s) && BooksBalance(s)
    requires Out(s, ch) != [] && TagOf(Out(s, ch)[0]) == Some(t)
    requires t in s.live && place in {Ready, Held(ch, Republished)}
    requires var c := s.live[t].(place := place); Due(t, c) == For(Out(s, ch)[1..], t) && Placed(w, t, c)
    ensures var s2 := Move(Taken(s, ch), t, place); CopiesFit(w, s2) && OutboxesFit(s2) && BooksBalance(s2)
  {
    var u := HeadIsDue(s, ch);
    var s1 := Taken(s, ch);
    var s2 := Move(s1, t, place);
    MoveFits(w, s1, t, place);
    forall i: nat | i < |Out(s2, ch)| ensures TagOf(Out(s2, ch)[i]).Some? {
      assert TagOf(Out(s, ch)[i + 1]).Some?;
    }
    MoveOutboxes(s, s2, ch, t);
  }

  /** Republishing the message of copy `t` puts a copy back in its queue. */
  lemma RetryKeeps(w: World, s: State, t: Tag)
    requires Sound(w) && CopiesFit(w, s) && OutboxesFit(s) && BooksBalance(s)
    requires t in s.live && Working(w, t)
    ensures var m := Retried(s.live[t].message);
            var s' := Enqueue(w, s, m, s.live[t].lineage, Some(s.live[t].root));
            && CopiesFit(w, s') && OutboxesFit(s') && BooksBalance(s')
            && (forall u | u in s.live :: u in s'.live && s'.live[u] == s.live[u])
            && Tag(s.serial, t.queue) in s'.live
            && Stands(s'.live[Tag(s.serial, t.queue)])
            && s.live[t].lineage <= s'.live[Tag(s.serial, t.queue)].lineage
            && (forall a | a in s'.accepted && a !in s.accepted ::
                  a in s'.live && a in s'.live[a].lineage && Stands(s'.live[a]))
  {
    var c := s.live[t];
    assert CopyFits(w, s, t, c);
    RetriedKeepsMessage(c.message);
    EnqueueFits(w, s, Retried(c.message), c.lineage, Some(c.root));
    EnqueueOutboxes(w, s, Retried(c.message), c.lineage, Some(c.root));
    assert Tag(s.serial, t.queue) in Fresh(w, s, Retried(c.message), c.lineage, Some(c.root));
  }

  /** The state between the move of a republished delivery and the arrival of its retry. */
  function Halfway(s: State, ch: nat, t: Tag): State
    requires t in s.live
  {
    Move(Taken(s, ch), t, Held(ch, Republished))
  }

  lemma AppliedPublish(w: World, s: State, ch: nat, t: Tag)
    requires Out(s, ch) != [] && t in s.live && s.live[t].place == Held(ch, Failed)
    requires Out(s, ch)[0] == Command.Publish(Some(t), Retried(s.live[t].message))
    ensures Next(w, s, Apply(ch))
         == Enqueue(w, Halfway(s, ch, t), Retried(s.live[t].message), s.live[t].lineage, Some(s.live[t].root))
  {
  }

  lemma HalfwayBooks(s: State, ch: nat, t: Tag)
    requires t in s.live && BooksBalance(s)
    ensures BooksBalance(Halfway(s, ch, t))
  {
    assert Halfway(s, ch, t).live.Keys == s.live.Keys;
  }

  lemma HalfwayFits(w: World, s: State, ch: nat, t: Tag)
    requires CopiesFit(w, s) && OutboxesFit(s) && BooksBalance(s) && Out(s, ch) != []
    requires t in s.live && s.live[t].place == Held(ch, Failed)
    requires Out(s, ch)[0] == Command.Publish(Some(t), Retried(s.live[t].message))
    ensures CopiesFit(w, Halfway(s, ch, t)) && OutboxesFit(Halfway(s, ch, t)) && BooksBalance(Halfway(s, ch, t))
    ensures Working(w, t)
  {
    var u := HeadIsDue(s, ch);
    assert CopyFits(w, s, t, s.live[t]);
    HeadTaken(w, s, ch, t, Held(ch, Republished));
  }

  lemma HalfwayShape(s: State, ch: nat, t: Tag)
    requires t in s.live
    ensures var s2 := Halfway(s, ch, t);
            && s2.live.Keys == s.live.Keys && s2.accepted == s.accepted && s2.served == s.served && s2.serial == s.serial
            && s2.live[t].message == s.live[t].message && s2.live[t].lineage == s.live[t].lineage
            && s2.live[t].root == s.live[t].root
            && (forall u | u in s.live && u != t :: s2.live[u] == s.live[u])
  {
  }

  lemma ApplyPublishKeeps(w: World, s: State, ch: nat, t: Tag)
    requires Sound(w) && Invariant(w, s) && Out(s, ch) != [] && t in s.live && s.live[t].place == Held(ch, Failed)
    requires Out(s, ch)[0] == Command.Publish(Some(t), Retried(s.live[t].message))
    ensures Invariant(w, Next(w, s, Apply(ch)))
  {
    HalfwayFits(w, s, ch, t);
    HalfwayShape(s, ch, t);
    RetryKeeps(w, Halfway(s, ch, t), t);
    AppliedPublish(w, s, ch, t);
    RetriedCovers(w, s, Halfway(s, ch, t), Next(w, s, Apply(ch)), t);
  }

  lemma RetriedCovers(w: World, s: State, s2: State, s': State, t: Tag)
    requires CopiesFit(w, s') && OutboxesFit(s') && BooksBalance(s') && NothingLost(s) && t in s.live
    requires s2.live.Keys == s.live.Keys && s2.accepted == s.accepted && s.served == s2.served == s'.served
    requires forall u | u in s.live && u != t :: s2.live[u] == s.live[u]
    requires forall u | u in s2.live :: u in s'.live && s'.live[u] == s2.live[u]
    requires Tag(s.serial, t.queue) in s'.live && Stands(s'.live[Tag(s.serial, t.queue)])
    requires s.live[t].lineage <= s'.live[Tag(s.serial, t.queue)].lineage
    requires forall a | a in s'.accepted && a !in s2.accepted :: a in s'.live && a in s'.live[a].lineage && Stands(s'.live[a])
    ensures Invariant(w, s')
  {
    EnqueueCovers(s, s', t, Tag(s.serial, t.queue));
    CoveredStaysSafe(s, s');
    FreshIsSafe(s, s');
  }

  /** Copy `t` stops standing for its lineage and `again` stands for it instead. */
  lemma EnqueueCovers(s: State, s': State, t: Tag, again: Tag)
    requires t in s.live && s.served <= s'.served
    requires forall u | u in s.live && u != t :: u in s'.live && s'.live[u] == s.live[u]
    requires again in s'.live && Stands(s'.live[again]) && s.live[t].lineage <= s'.live[again].lineage
    ensures Covers(s, s')
  {
    forall u | u in s.live && Stands(s.live[u])
      ensures exists v | v in s'.live :: Stands(s'.live[v]) && s.live[u].lineage <= s'.live[v].lineage
    {
      var v := if u == t then again else u;
      assert v in s'.live && Stands(s'.live[v]) && s.live[u].lineage <= s'.live[v].lineage;
    }
  }

  lemma FreshIsSafe(s: State, s': State)
    requires forall a | a in s.accepted :: Safe(s', a)
    requires forall a | a in s'.accepted && a !in s.accepted :: a in s'.live && a in s'.live[a].lineage && Stands(s'.live[a])
    ensures NothingLost(s')
  {
    forall a | a in s'.accepted ensures Safe(s', a) {
      if a !in s.accepted {
        assert a in s'.live && a in s'.live[a].lineage && Stands(s'.live[a]);
      }
    }
  }

  lemma AppliedAck(w: World, s: State, ch: nat, t: Tag)
    requires Out(s, ch) != [] && Out(s, ch)[0] == Ack(t) && t in s.live
    ensures var s' := Next(w, s, Apply(ch)); s' == Leave(Taken(s, ch), t, Acked).(finished := s'.finished)
  {
  }

  lemma AckFits(w: World, s: State, ch: nat, t: Tag)
    requires CopiesFit(w, s) && OutboxesFit(s) && BooksBalance(s) && Out(s, ch) != [] && Out(s, ch)[0] == Ack(t)
    requires t in s.live && s.live[t].place in {Held(ch, Republished), Held(ch, Succeeded)}
    ensures var s' := Leave(Taken(s, ch), t, Acked); CopiesFit(w, s') && OutboxesFit(s') && BooksBalance(s')
  {
    var u := HeadIsDue(s, ch);
    assert CopyFits(w, s, t, s.live[t]);
    assert Working(w, t);
    HeadTaken(w, s, ch, t, Ready);
    var s2 := Move(Taken(s, ch), t, Ready);
    LeaveFits(w, s2, t, Acked);
    assert Leave(s2, t, Acked).live == s.live - {t};
    LeaveOutboxes(s2, Leave(s2, t, Acked), t);
    assert Leave(s2, t, Acked) == Leave(Taken(s, ch), t, Acked);
  }

  /** Which acknowledgements have been counted is no part of the invariant. */
  lemma FinishedAside(w: World, s: State, finished: set<Tag>)
    requires CopiesFit(w, s) && OutboxesFit(s) && BooksBalance(s)
    ensures var s' := s.(finished := finished); CopiesFit(w, s') && OutboxesFit(s') && BooksBalance(s')
  {
    var s' := s.(finished := finished);
    forall t | t in s'.live ensures CopyFits(w, s', t, s'.live[t]) { assert CopyFits(w, s, t, s.live[t]); }
    OutboxesAlike(s, s');
  }

  lemma OutboxesAlike(s: State, s': State)
    requires OutboxesFit(s) && s'.outbox == s.outbox && s'.live == s.live
    ensures OutboxesFit(s')
  {
    forall c: nat, t: Tag ensures For(Out(s', c), t) == DueOn(s', c, t) {
      assert For(Out(s, c), t) == DueOn(s, c, t);
    }
    forall c: nat, i: nat | i < |Out(s', c)| ensures TagOf(Out(s', c)[i]).Some? {
      assert TagOf(Out(s, c)[i]).Some?;
    }
  }

  /** A copy that leaves was served, or stood for nothing. */
  lemma LeavingCovers(s: State, s': State, t: Tag)
    requires t in s.live && s'.live == s.live - {t} && s'.served == s.served
    requires Stands(s.live[t]) ==> s.live[t].lineage <= s.served
    ensures Covers(s, s')
  {
    forall u | u in s.live && Stands(s.live[u])
      ensures s.live[u].lineage <= s'.served
              || exists v | v in s'.live :: Stands(s'.live[v]) && s.live[u].lineage <= s'.live[v].lineage
    {
      if u != t {
        assert u in s'.live && Stands(s'.live[u]) && s.live[u].lineage <= s'.live[u].lineage;
      }
    }
  }

  lemma ApplyAckKeeps(w: World, s: State, ch: nat, t: Tag)
    requires Invariant(w, s) && Out(s, ch) != []
    requires t in s.live && s.live[t].place in {Held(ch, Republished), Held(ch, Succeeded)} && Out(s, ch)[0] == Ack(t)
    ensures Invariant(w, Next(w, s, Apply(ch)))
  {
    var s' := Next(w, s, Apply(ch));
    AppliedAck(w, s, ch, t);
    AckFits(w, s, ch, t);
    FinishedAside(w, Leave(Taken(s, ch), t, Acked), s'.finished);
    assert CopyFits(w, s, t, s.live[t]);
    LeavingCovers(s, s', t);
    CoveredStaysSafe(s, s');
  }

  lemma AppliedNack(w: World, s: State, ch: nat, t: Tag, requeue: bool)
    requires Out(s, ch) != [] && Out(s, ch)[0] == Nack(t, requeue) && t in s.live
    ensures Next(w, s, Apply(ch))
         == if requeue then Move(Taken(s, ch), t, Ready) else DeadLettering(w, Taken(s, ch), t, DeadLettered)
  {
  }

  /** Taking the nack of a delivery off its channel and the delivery out of its consumer's hands. */
  lemma BackToReady(w: World, s: State, ch: nat, t: Tag)
    requires Invariant(w, s) && Out(s, ch) != [] && Out(s, ch)[0].Nack? && Out(s, ch)[0].tag == t
    requires t in s.live && s.live[t].place in {Held(ch, Rejected), Held(ch, Returned)}
    ensures Invariant(w, Move(Taken(s, ch), t, Ready)) && Working(w, t)
  {
    var u := HeadIsDue(s, ch);
    assert CopyFits(w, s, t, s.live[t]);
    assert Working(w, t);
    HeadTaken(w, s, ch, t, Ready);
    MovedCovers(s, Move(Taken(s, ch), t, Ready), t);
    CoveredStaysSafe(s, Move(Taken(s, ch), t, Ready));
  }

  lemma ApplyRequeueKeeps(w: World, s: State, ch: nat, t: Tag)
    requires Invariant(w, s) && Out(s, ch) != []
    requires t in s.live && s.live[t].place == Held(ch, Returned) && Out(s, ch)[0] == Nack(t, true)
    ensures Invariant(w, Next(w, s, Apply(ch)))
  {
    BackToReady(w, s, ch, t);
    AppliedNack(w, s, ch, t, true);
  }

  /** From a state in which nothing is due on copy `t`, dead-lettering it puts it in the DLQ and keeps the rest. */
  lemma DeadLetteringKeeps(w: World, s: State, t: Tag, exit: Exit)
    requires Sound(w) && CopiesFit(w, s) && OutboxesFit(s) && BooksBalance(s) && t in s.live
    requires Working(w, t) && s.live[t].place.Ready?
    ensures var s' := DeadLettering(w, s, t, exit);
            && CopiesFit(w, s') && OutboxesFit(s') && BooksBalance(s')
            && Covers(s, s') && s'.served == s.served
            && s'.accepted == s.accepted + {Tag(s.serial, w.cfg.dlq)}
            && s'.live.Keys == s.live.Keys - {t} + {Tag(s.serial, w.cfg.dlq)}
            && s'.live[Tag(s.serial, w.cfg.dlq)].lineage == s.live[t].lineage + {Tag(s.serial, w.cfg.dlq)}
            && s'.live[Tag(s.serial, w.cfg.dlq)].place == Ready
  {
    var c, again := s.live[t], Tag(s.serial, w.cfg.dlq);
    DeadLetterTargets(w, t);
    var dl := Built(w.cfg).queues[t.queue].deadLetter.value;
    var m := Message(dl.exchange, dl.key, c.message.content, c.message.properties.(expiration := None));
    var s1 := Leave(s, t, exit);
    var s' := Enqueue(w, s1, m, c.lineage, Some(c.root));
    LeaveFits(w, s, t, exit);
    LeaveOutboxes(s, s1, t);
    EnqueueFits(w, s1, m, c.lineage, Some(c.root));
    EnqueueOutboxes(w, s1, m, c.lineage, Some(c.root));
    assert Tags(s.serial, {w.cfg.dlq}) == {again};
    assert again in Fresh(w, s1, m, c.lineage, Some(c.root));
    EnqueueCovers(s, s', t, again);
  }

  /** Dead-lettering does not depend on who held the copy. */
  lemma DeadLetteringIgnoresPlace(w: World, s: State, t: Tag, exit: Exit)
    requires t in s.live
    ensures DeadLettering(w, Move(s, t, Ready), t, exit) == DeadLettering(w, s, t, exit)
  {
    assert Move(s, t, Ready).live - {t} == s.live - {t};
    assert Leave(Move(s, t, Ready), t, exit) == Leave(s, t, exit);
  }

  lemma ApplyRejectKeeps(w: World, s: State, ch: nat, t: Tag)
    requires Sound(w) && Invariant(w, s) && Out(s, ch) != []
    requires t in s.live && s.live[t].place == Held(ch, Rejected) && Out(s, ch)[0] == Nack(t, false)
    ensures Invariant(w, Next(w, s, Apply(ch)))
  {
    BackToReady(w, s, ch, t);
    AppliedNack(w, s, ch, t, false);
    DeadLetteringIgnoresPlace(w, Taken(s, ch), t, DeadLettered);
    DeadLetteringKeepsAll(w, Move(Taken(s, ch), t, Ready), t, DeadLettered);
  }

  lemma DeadLetteringKeepsAll(w: World, s: State, t: Tag, exit: Exit)
    requires Sound(w) && Invariant(w, s) && t in s.live && Working(w, t) && s.live[t].place.Ready?
    ensures Invariant(w, DeadLettering(w, s, t, exit))
  {
    DeadLetteringKeeps(w, s, t, exit);
    CoveredStaysSafe(s, DeadLettering(w, s, t, exit));
    FreshIsSafe(s, DeadLettering(w, s, t, exit));
  }

  lemma ApplyKeeps(w: World, s: State, step: Step)
    requires Sound(w) && Invariant(w, s) && step.Apply? && Enabled(w, s, step)
    ensures Invariant(w, Next(w, s, step))
  {
    var t := HeadIsDue(s, step.channel);
    match s.live[t].place.phase {
      case Failed => ApplyPublishKeeps(w, s, step.channel, t);
      case Republished => ApplyAckKeeps(w, s, step.channel, t);
      case Succeeded => ApplyAckKeeps(w, s, step.channel, t);
      case Rejected => ApplyRejectKeeps(w, s, step.channel, t);
      case Returned => ApplyRequeueKeeps(w, s, step.channel, t);
    }
  }

  lemma ExpireKeeps(w: World, s: State, step: Step)
    requires Sound(w) && Invariant(w, s) && step.Expire? && Enabled(w, s, step)
    ensures Invariant(w, Next(w, s, step))
  {
    assert CopyFits(w, s, step.tag, s.live[step.tag]);
    DeadLetteringKeepsAll(w, s, step.tag, Expired);
  }

  lemma StepKeeps(w: World, s: State, step: Step)
    requires Sound(w) && Invariant(w, s) && Enabled(w, s, step)
    ensures Invariant(w, Next(w, s, step))
  {
    match step {
      case Publish(_) => PublishKeeps(w, s, step);
      case Deliver(_, _) => DeliverKeeps(w, s, step);
      case Handle(_, _) => HandleKeeps(w, s, step);
      case Apply(_) => ApplyKeeps(w, s, step);
      case Expire(_) => ExpireKeeps(w, s, step);
      case Crash(_) => CrashKeeps(w, s, step);
    }
  }

  lemma {:induction false} RunKeeps(w: World, s: State, steps: seq<Step>)
    requires Sound(w) && Invariant(w, s) && Possible(w, s, steps)
    ensures Invariant(w, Exec(w, s, steps))
    decreases |steps|
  {
    if steps != [] {
      StepKeeps(w, s, steps[0]);
      RunKeeps(w, Next(w, s, steps[0]), steps[1..]);
    }
  }

  /** No loss: after any run, crashes included, every copy ever enqueued has had a handler complete on it or on
      a descendant, or has a descendant that is ready, unacknowledged, or in the DLQ. */
  lemma NoMessageIsLost(w: World, steps: seq<Step>)
    requires Sound(w) && Possible(w, INITIAL, steps)
    ensures forall a | a in Exec(w, INITIAL, steps).accepted :: Safe(Exec(w, INITIAL, steps), a)
  {
    RunKeeps(w, INITIAL, steps);
  }
}
