/** When retries do not come to an end: a message whose attempt header is no number, and the notification
    consumer's policy of handing a failed message back to its queue. */
module Endless {
  import opened Wrappers
  import opened Consumer
  import opened BrokerRun
  import opened NoLoss
  import opened Termination

  ghost predicate Within(w: World, s: State, bound: nat) {
    forall steps | Possible(w, s, steps) && Quiet(steps) && Crashes(steps) == 0 :: HandlerRuns(steps) <= bound
  }

  /** Some number of handler runs that no run without crashes and further publishing exceeds. */
  ghost predicate Bounded(w: World, s: State) {
    exists bound: nat :: Within(w, s, bound)
  }

  /** Copy `t` will be retried for as long as its handler fails. */
  predicate Spins(w: World, s: State, t: Tag) {
    && t in s.live && s.live[t].place.Ready? && Working(w, t) && t.serial < s.serial
    && t.queue in Targets(w, s.live[t].message)
    && Out(s, 0) == []
    && (w.policy.Requeue? || Attempt(s.live[t].message).NaN?)
  }

  lemma DeliverAndFail(w: World, s: State, t: Tag) returns (s': State)
    requires Spins(w, s, t)
    ensures Possible(w, s, [Deliver(t, 0), Handle(t, false)])
    ensures s' == Exec(w, s, [Deliver(t, 0), Handle(t, false)])
    ensures t in s'.live && s'.live[t].message == s.live[t].message && s'.serial == s.serial
    ensures s'.live[t].place == Held(0, if w.policy.Requeue? then Returned else Failed)
    ensures Out(s', 0) == Settlement(w.policy, Delivery(t, s.live[t].message), false)
  {
    var s1 := Next(w, s, Deliver(t, 0));
    s' := Next(w, s1, Handle(t, false));
    assert [Deliver(t, 0), Handle(t, false)][1..] == [Handle(t, false)];
    assert Exec(w, s1, [Handle(t, false)]) == Exec(w, s', []);
  }

  /** The notification consumer: back to where it was. */
  lemma SpinByRequeue(w: World, s: State, t: Tag)
    requires Spins(w, s, t) && w.policy.Requeue?
    ensures Possible(w, s, [Deliver(t, 0), Handle(t, false)] + [Apply(0)])
    ensures Spins(w, Exec(w, s, [Deliver(t, 0), Handle(t, false)] + [Apply(0)]), t)
  {
    var s2 := DeliverAndFail(w, s, t);
    var s3 := Next(w, s2, Apply(0));
    assert Exec(w, s2, [Apply(0)]) == Exec(w, s3, []);
    PossibleAppend(w, s, [Deliver(t, 0), Handle(t, false)], [Apply(0)]);
  }

  /** A retry without a number: a new copy in the same queue. */
  lemma SpinByRetry(w: World, s: State, t: Tag)
    requires Spins(w, s, t) && w.policy.Retry?
    ensures Possible(w, s, [Deliver(t, 0), Handle(t, false)] + [Apply(0), Apply(0)])
    ensures Spins(w, Exec(w, s, [Deliver(t, 0), Handle(t, false)] + [Apply(0), Apply(0)]), Tag(s.serial, t.queue))
  {
    var s2 := DeliverAndFail(w, s, t);
    var m := Retried(s.live[t].message);
    RetriedKeepsMessage(s.live[t].message);
    var s3, again := RepublishAndAck(w, s2, t);
    assert again == Tag(s.serial, t.queue);
    assert Targets(w, m) == Targets(w, s.live[t].message);
    PossibleAppend(w, s, [Deliver(t, 0), Handle(t, false)], [Apply(0), Apply(0)]);
  }

  lemma Republish(w: World, s: State, t: Tag) returns (s': State, again: Tag)
    requires t in s.live && s.live[t].place == Held(0, Failed) && t.serial < s.serial
    requires t.queue in Targets(w, Retried(s.live[t].message))
    requires Out(s, 0) == [Command.Publish(Some(t), Retried(s.live[t].message)), Ack(t)]
    ensures s' == Next(w, s, Apply(0)) && Out(s', 0) == [Ack(t)] && t in s'.live
    ensures again == Tag(s.serial, t.queue) && again != t && again in s'.live && s'.live[again].place.Ready?
    ensures s'.live[again].message == Retried(s.live[t].message) && again.serial < s'.serial
  {
    again := Tag(s.serial, t.queue);
    assert again in Fresh(w, s, Retried(s.live[t].message), s.live[t].lineage, Some(s.live[t].root));
    AppliedPublish(w, s, 0, t);
    s' := Next(w, s, Apply(0));
  }

  lemma RepublishAndAck(w: World, s: State, t: Tag) returns (s': State, again: Tag)
    requires t in s.live && s.live[t].place == Held(0, Failed) && t.serial < s.serial
    requires t.queue in Targets(w, Retried(s.live[t].message))
    requires Out(s, 0) == [Command.Publish(Some(t), Retried(s.live[t].message)), Ack(t)]
    ensures Possible(w, s, [Apply(0), Apply(0)]) && s' == Exec(w, s, [Apply(0), Apply(0)])
    ensures again == Tag(s.serial, t.queue) && again in s'.live && s'.live[again].place.Ready?
    ensures s'.live[again].message == Retried(s.live[t].message)
    ensures again.serial < s'.serial && Out(s', 0) == []
  {
    var s3;
    s3, again := Republish(w, s, t);
    AppliedAck(w, s3, 0, t);
    s' := Next(w, s3, Apply(0));
    assert [Apply(0), Apply(0)][1..] == [Apply(0)];
    assert Possible(w, s3, [Apply(0)]) && Exec(w, s3, [Apply(0)]) == Exec(w, s', []);
  }

  lemma SpinOnce(w: World, s: State, t: Tag) returns (steps: seq<Step>, again: Tag)
    requires Spins(w, s, t)
    ensures Possible(w, s, steps) && Quiet(steps) && Crashes(steps) == 0 && HandlerRuns(steps) == 1
    ensures Spins(w, Exec(w, s, steps), again)
  {
    CountPair(Deliver(t, 0), Handle(t, false));
    if w.policy.Requeue? {
      SpinByRequeue(w, s, t);
      CountsAppend([Deliver(t, 0), Handle(t, false)], [Apply(0)]);
      steps, again := [Deliver(t, 0), Handle(t, false)] + [Apply(0)], t;
    } else {
      SpinByRetry(w, s, t);
      CountPair(Apply(0), Apply(0));
      CountsAppend([Deliver(t, 0), Handle(t, false)], [Apply(0), Apply(0)]);
      steps, again := [Deliver(t, 0), Handle(t, false)] + [Apply(0), Apply(0)], Tag(s.serial, t.queue);
    }
  }

  lemma {:induction false} PossibleAppend(w: World, s: State, a: seq<Step>, b: seq<Step>)
    requires Possible(w, s, a) && Possible(w, Exec(w, s, a), b)
    ensures Possible(w, s, a + b) && Exec(w, s, a + b) == Exec(w, Exec(w, s, a), b)
    decreases |a|
  {
    if a == [] {
      assert a + b == b;
    } else {
      assert (a + b)[0] == a[0] && (a + b)[1..] == a[1..] + b;
      PossibleAppend(w, Next(w, s, a[0]), a[1..], b);
    }
  }

  lemma {:induction false} CountsAppend(a: seq<Step>, b: seq<Step>)
    ensures HandlerRuns(a + b) == HandlerRuns(a) + HandlerRuns(b) && Crashes(a + b) == Crashes(a) + Crashes(b)
  {
    if a == [] {
      assert a + b == b;
    } else {
      assert (a + b)[1..] == a[1..] + b;
      CountsAppend(a[1..], b);
    }
  }

  lemma CountPair(a: Step, b: Step)
    ensures HandlerRuns([a, b]) == (if a.Handle? then 1 else 0) + (if b.Handle? then 1 else 0)
    ensures Crashes([a, b]) == (if a.Crash? then 1 else 0) + (if b.Crash? then 1 else 0)
  {
    assert HandlerRuns([b]) == (if b.Handle? then 1 else 0) && Crashes([b]) == (if b.Crash? then 1 else 0);
    assert [a, b][1..] == [b];
  }

  lemma {:induction false} SpinFor(w: World, s: State, t: Tag, n: nat) returns (steps: seq<Step>)
    requires Spins(w, s, t)
    ensures Possible(w, s, steps) && Quiet(steps) && Crashes(steps) == 0 && HandlerRuns(steps) == n
    decreases n
  {
    if n == 0 {
      steps := [];
    } else {
      var first, again := SpinOnce(w, s, t);
      var rest := SpinFor(w, Exec(w, s, first), again, n - 1);
      PossibleAppend(w, s, first, rest);
      CountsAppend(first, rest);
      steps := first + rest;
    }
  }

  lemma PublishedSpins(w: World, m: Message) returns (t: Tag)
    requires Sound(w) && Ours(w, m) && Targets(w, m) != {}
    requires w.policy.Requeue? || Attempt(m).NaN?
    ensures Spins(w, Published(w, m), t)
  {
    var q :| q in Targets(w, m);
    MainExchangeTargets(w, m);
    t := Tag(0, q);
    assert t in Fresh(w, INITIAL, m, {}, None);
  }

  lemma SpinsPast(w: World, s: State, t: Tag, bound: nat)
    requires Spins(w, s, t)
    ensures !Within(w, s, bound)
  {
    var steps := SpinFor(w, s, t, bound + 1);
  }

  lemma CountedIsBounded(w: World, m: Message)
    requires Sound(w) && w.policy.Retry?
    requires Ours(w, m) && Attempt(m).Int?
    ensures Bounded(w, Published(w, m))
  {
    var s := Published(w, m);
    var bound := HandlerBound(Fan(w, m), Remaining(w.policy.maxAttempts, Attempt(m).n));
    forall steps | Possible(w, s, steps) && Quiet(steps) && Crashes(steps) == 0
      ensures HandlerRuns(steps) <= bound
    {
      HandlerRunsBounded(w, m, steps);
    }
    assert Within(w, s, bound);
  }

  /** A published message that reaches a queue can cause only so many handler runs exactly when the consumer
      counts attempts and the message's attempt header is a number. */
  lemma BoundedExactlyWhenCounted(w: World, m: Message)
    requires Sound(w) && Ours(w, m) && Targets(w, m) != {}
    ensures Bounded(w, Published(w, m)) <==>
            w.policy.Retry? && Attempt(m).Int?
  {
    if w.policy.Retry? && Attempt(m).Int? {
      CountedIsBounded(w, m);
    } else {
      var t := PublishedSpins(w, m);
      forall bound: nat ensures !Within(w, Published(w, m), bound) {
        SpinsPast(w, Published(w, m), t, bound);
      }
    }
  }
}
