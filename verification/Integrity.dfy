/** What happens to a message does not change it: whatever is retried, redelivered or dead-lettered is, but for its
    attempt, what was published. */
module Integrity {
  import opened Wrappers
  import opened Topology
  import opened Consumer
  import opened BrokerRun
  import opened NoLoss
  import opened Termination

  /** The same message, but for the attempt header, the expiration and where it is published to. */
  predicate SameMessage(m: Message, o: Message) {
    && m.content == o.content
    && m.properties.contentType == o.properties.contentType && m.properties.persistent == o.properties.persistent
    && m.properties.messageId == o.properties.messageId && m.properties.correlationId == o.properties.correlationId
    && HeadersOf(m) - {"x-attempt"} == HeadersOf(o) - {"x-attempt"}
  }

  predicate Kept(w: World, s: State, t: Tag)
    requires t in s.live
  {
    var c := s.live[t];
    && c.root.serial in s.published && SameMessage(c.message, s.published[c.root.serial])
    && (Working(w, t) ==>
          var o := s.published[c.root.serial];
          c.message.exchange == o.exchange && c.message.key == o.key && c.message.properties.expiration == o.properties.expiration)
  }

  ghost predicate AllKept(w: World, s: State) {
    && (forall n | n in s.published :: n < s.serial)
    && (forall t | t in s.live :: Kept(w, s, t))
  }

  /** Copies that are what they were before stay kept when nothing published is forgotten. */
  lemma StaysKept(w: World, s: State, s': State, t: Tag)
    requires AllKept(w, s) && t in s.live && t in s'.live && s'.live[t] == s.live[t].(place := s'.live[t].place)
    requires forall n | n in s.published :: n in s'.published && s'.published[n] == s.published[n]
    ensures Kept(w, s', t)
  {
    assert Kept(w, s, t);
  }

  /** Nothing arrives; copies move or leave. */
  lemma NoArrivalKeeps(w: World, s: State, s': State)
    requires AllKept(w, s) && s'.live.Keys <= s.live.Keys && s'.published == s.published && s'.serial == s.serial
    requires forall t | t in s'.live :: s'.live[t] == s.live[t].(place := s'.live[t].place)
    ensures AllKept(w, s')
  {
    forall t | t in s'.live ensures Kept(w, s', t) { StaysKept(w, s, s', t); }
  }

  lemma PublishedKept(w: World, s: State, m: Message)
    requires AllKept(w, s) && BooksBalance(s)
    ensures AllKept(w, Enqueue(w, s, m, {}, None))
  {
    var s', copies := Enqueue(w, s, m, {}, None), Fresh(w, s, m, {}, None);
    EnqueueBooks(w, s, m, {}, None);
    forall t | t in s'.live ensures Kept(w, s', t) {
      if t in copies {
        assert s'.live[t].root == t && t.serial == s.serial && s'.published[t.serial] == m;
      } else {
        StaysKept(w, s, s', t);
      }
    }
  }

  /** A message published again for one that is kept. */
  lemma AgainKept(w: World, s: State, m: Message, lineage: set<Tag>, root: Tag)
    requires AllKept(w, s) && BooksBalance(s) && root.serial in s.published && SameMessage(m, s.published[root.serial])
    requires forall q | q in Targets(w, m) && q in Names(w.cfg.queues) ::
               var o := s.published[root.serial];
               m.exchange == o.exchange && m.key == o.key && m.properties.expiration == o.properties.expiration
    ensures AllKept(w, Enqueue(w, s, m, lineage, Some(root)))
  {
    var s', copies := Enqueue(w, s, m, lineage, Some(root)), Fresh(w, s, m, lineage, Some(root));
    EnqueueBooks(w, s, m, lineage, Some(root));
    forall t | t in s'.live ensures Kept(w, s', t) {
      if t in copies {
        assert s'.live[t].root == root && s'.live[t].message == m && t.queue in Targets(w, m);
      } else {
        StaysKept(w, s, s', t);
      }
    }
  }

  lemma RetrySame(m: Message, o: Message)
    requires SameMessage(m, o)
    ensures SameMessage(Retried(m), o)
  {
    RetriedKeepsMessage(m);
  }

  lemma RetryKept(w: World, s: State, ch: nat, t: Tag)
    requires AllKept(w, s) && BooksBalance(s) && t in s.live && Working(w, t)
    ensures var c := s.live[t];
            AllKept(w, Enqueue(w, Halfway(s, ch, t), Retried(c.message), c.lineage, Some(c.root)))
  {
    var c, s2 := s.live[t], Halfway(s, ch, t);
    assert Kept(w, s, t);
    HalfwayBooks(s, ch, t);
    NoArrivalKeeps(w, s, s2);
    RetriedKeepsMessage(c.message);
    RetrySame(c.message, s.published[c.root.serial]);
    AgainKept(w, s2, Retried(c.message), c.lineage, c.root);
  }

  lemma LeaveKept(w: World, s: State, t: Tag, exit: Exit)
    requires AllKept(w, s) && BooksBalance(s) && t in s.live
    ensures AllKept(w, Leave(s, t, exit)) && BooksBalance(Leave(s, t, exit))
  {
    NoArrivalKeeps(w, s, Leave(s, t, exit));
  }

  lemma DeadLetterKept(w: World, s: State, t: Tag, exit: Exit)
    requires Sound(w) && AllKept(w, s) && BooksBalance(s) && t in s.live && Working(w, t)
    ensures AllKept(w, DeadLettering(w, s, t, exit))
  {
    var c := s.live[t];
    assert Kept(w, s, t);
    DeadLetterTargets(w, t);
    var dl := Built(w.cfg).queues[t.queue].deadLetter.value;
    var m := Message(dl.exchange, dl.key, c.message.content, c.message.properties.(expiration := None));
    MainExchangeTargets(w, m.(exchange := w.cfg.exchange));
    assert w.cfg.dlq !in Names(w.cfg.queues);
    LeaveKept(w, s, t, exit);
    AgainKept(w, Leave(s, t, exit), m, c.lineage, c.root);
  }

  lemma RejectKept(w: World, s: State, ch: nat, t: Tag)
    requires Sound(w) && BooksBalance(s) && AllKept(w, s) && t in s.live && Working(w, t)
    ensures AllKept(w, DeadLettering(w, Taken(s, ch), t, DeadLettered))
  {
    NoArrivalKeeps(w, s, Taken(s, ch));
    DeadLetterKept(w, Taken(s, ch), t, DeadLettered);
  }

  lemma AckKept(w: World, s: State, ch: nat, t: Tag)
    requires AllKept(w, s) && Out(s, ch) != [] && Out(s, ch)[0] == Ack(t) && t in s.live
    ensures AllKept(w, Next(w, s, Apply(ch)))
  {
    AppliedAck(w, s, ch, t);
    NoArrivalKeeps(w, s, Next(w, s, Apply(ch)));
  }

  lemma ApplyKept(w: World, s: State, ch: nat, t: Tag)
    requires Sound(w) && BooksBalance(s) && AllKept(w, s) && Out(s, ch) != [] && t in s.live && Placed(w, t, s.live[t])
    requires s.live[t].place.Held? && s.live[t].place.channel == ch
    requires Due(t, s.live[t]) != [] && Out(s, ch)[0] == Due(t, s.live[t])[0]
    ensures AllKept(w, Next(w, s, Apply(ch)))
  {
    match s.live[t].place.phase {
      case Failed =>
        AppliedPublish(w, s, ch, t);
        RetryKept(w, s, ch, t);
      case Republished => AckKept(w, s, ch, t);
      case Succeeded => AckKept(w, s, ch, t);
      case Rejected =>
        AppliedNack(w, s, ch, t, false);
        RejectKept(w, s, ch, t);
      case Returned =>
        AppliedNack(w, s, ch, t, true);
        NoArrivalKeeps(w, s, Move(Taken(s, ch), t, Ready));
    }
  }

  lemma ConsumerKept(w: World, s: State, step: Step)
    requires AllKept(w, s) && Enabled(w, s, step) && (step.Deliver? || step.Handle? || step.Crash?)
    ensures AllKept(w, Next(w, s, step))
  {
    ConsumerMoves(w, s, step);
    NoArrivalKeeps(w, s, Next(w, s, step));
  }

  lemma StepKept(w: World, s: State, step: Step)
    requires Sound(w) && Invariant(w, s) && AllKept(w, s) && Enabled(w, s, step)
    ensures AllKept(w, Next(w, s, step))
  {
    match step {
      case Publish(m) => PublishedKept(w, s, m);
      case Deliver(_, _) => ConsumerKept(w, s, step);
      case Handle(_, _) => ConsumerKept(w, s, step);
      case Crash(_) => ConsumerKept(w, s, step);
      case Apply(ch) =>
        var t := HeadIsDue(s, ch);
        assert CopyFits(w, s, t, s.live[t]);
        ApplyKept(w, s, ch, t);
      case Expire(t) =>
        assert CopyFits(w, s, t, s.live[t]);
        DeadLetterKept(w, s, t, Expired);
    }
  }

  lemma {:induction false} RunKept(w: World, s: State, steps: seq<Step>)
    requires Sound(w) && Invariant(w, s) && AllKept(w, s) && Possible(w, s, steps)
    ensures AllKept(w, Exec(w, s, steps))
    decreases |steps|
  {
    if steps != [] {
      StepKeeps(w, s, steps[0]);
      StepKept(w, s, steps[0]);
      RunKept(w, Next(w, s, steps[0]), steps[1..]);
    }
  }

  /** After any run under either policy, every copy, in a work queue or in the DLQ, carries the content, ids and
      other headers of the message it was published as; in a work queue also its exchange, key and expiration. */
  lemma MessagesStayIntact(w: World, steps: seq<Step>)
    requires Sound(w) && Possible(w, INITIAL, steps)
    ensures AllKept(w, Exec(w, INITIAL, steps))
  {
    RunKept(w, INITIAL, steps);
  }
}
