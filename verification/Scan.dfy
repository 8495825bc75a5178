/** `deletePattern`: SCAN until the cursor comes back to 0, deleting each batch. Between a SCAN and the DEL that
    follows, and between rounds, other clients insert and remove keys; a batch may repeat keys. */
module Scan {

  type Store = map<string, string>

  /** What another client does to one key. */
  datatype Change = Put(key: string, value: string) | Remove(key: string)

  /** One turn of the loop, as the rest of the world decides it: what happens before the SCAN, the batch it
      returns, and what happens before the DEL. */
  datatype Round = Round(before: seq<Change>, batch: seq<string>, between: seq<Change>)

  function Changed(store: Store, changes: seq<Change>): Store
    decreases |changes|
  {
    if changes == [] then store
    else match changes[0]
      case Put(k, v) => Changed(store[k := v], changes[1..])
      case Remove(k) => Changed(store - {k}, changes[1..])
  }

  /** ioredis puts its key prefix in front of each key of a DEL. */
  function Prefixed(prefix: string, batch: seq<string>): set<string> {
    set k | k in batch :: prefix + k
  }

  /** DEL: keys go one by one, each counted if it was still there. */
  function Deleted(prefix: string, store: Store, batch: seq<string>): (Store, nat)
    decreases |batch|
  {
    if batch == [] then (store, 0)
    else
      var k := prefix + batch[0];
      var rest := Deleted(prefix, store - {k}, batch[1..]);
      (rest.0, rest.1 + if k in store then 1 else 0)
  }

  /** A batch with repetitions deletes, and counts, each key once. */
  lemma {:induction false} DeletedTakes(prefix: string, store: Store, batch: seq<string>)
    ensures Deleted(prefix, store, batch).0 == store - Prefixed(prefix, batch)
    ensures Deleted(prefix, store, batch).1 == |store.Keys * Prefixed(prefix, batch)|
    decreases |batch|
  {
    if batch == [] {
      NothingToDelete(prefix, store);
    } else {
      var k := prefix + batch[0];
      DeletedTakes(prefix, store - {k}, batch[1..]);
      PrefixedCons(prefix, batch);
      MinusTwice(store, k, Prefixed(prefix, batch[1..]));
      CountOne(store.Keys, k, Prefixed(prefix, batch[1..]));
    }
  }

  lemma PrefixedCons(prefix: string, batch: seq<string>)
    requires batch != []
    ensures Prefixed(prefix, batch) == {prefix + batch[0]} + Prefixed(prefix, batch[1..])
  {
    assert forall k :: k in batch <==> k == batch[0] || k in batch[1..];
  }

  lemma MinusTwice(store: Store, k: string, later: set<string>)
    ensures (store - {k}) - later == store - ({k} + later)
    ensures (store - {k}).Keys == store.Keys - {k}
  {
  }

  lemma CountOne(keys: set<string>, k: string, later: set<string>)
    ensures |keys * ({k} + later)| == |(keys - {k}) * later| + if k in keys then 1 else 0
  {
    var rest := (keys - {k}) * later;
    if k in keys {
      assert keys * ({k} + later) == {k} + rest;
    } else {
      assert keys * ({k} + later) == rest;
    }
  }

  lemma NothingToDelete(prefix: string, store: Store)
    ensures Prefixed(prefix, []) == {} && store - Prefixed(prefix, []) == store && store.Keys * Prefixed(prefix, []) == {}
  {
  }

  /** The stores the SCANs of a loop see, the stores its DELs start from, and the store it leaves. */
  function Scanned(prefix: string, store: Store, rounds: seq<Round>): (r: seq<Store>)
    ensures |r| == |rounds|
    decreases |rounds|
  {
    if rounds == [] then []
    else [Changed(store, rounds[0].before)] + Scanned(prefix, AfterRound(prefix, store, rounds[0]), rounds[1..])
  }

  function BeforeDel(store: Store, round: Round): Store {
    Changed(Changed(store, round.before), round.between)
  }

  function AfterRound(prefix: string, store: Store, round: Round): Store {
    BeforeDel(store, round) - Prefixed(prefix, round.batch)
  }

  function After(prefix: string, store: Store, rounds: seq<Round>): Store
    decreases |rounds|
  {
    if rounds == [] then store else After(prefix, AfterRound(prefix, store, rounds[0]), rounds[1..])
  }

  /** The keys each DEL of the loop took out of the store. */
  function Removals(prefix: string, store: Store, rounds: seq<Round>): (r: seq<set<string>>)
    ensures |r| == |rounds|
    decreases |rounds|
  {
    if rounds == [] then []
    else [BeforeDel(store, rounds[0]).Keys - AfterRound(prefix, store, rounds[0]).Keys]
         + Removals(prefix, AfterRound(prefix, store, rounds[0]), rounds[1..])
  }

  function Sizes(sets: seq<set<string>>): nat {
    if sets == [] then 0 else |sets[0]| + Sizes(sets[1..])
  }

  // -------------------------------------------------------------------------------------------
  // The imperative form.

  /** A client whose SCANs follow a script that ends: the cursor is "0" with the last batch. */
  class Client {
    const prefix: string
    var store: Store
    var script: seq<Round>

    method ScanBatch(cursor: string) returns (next: string, batch: seq<string>)
      requires script != []
      modifies this
      ensures script == old(script)[1..] && batch == old(script)[0].batch
      ensures next == "0" <==> script == []
      ensures store == BeforeDel(old(store), old(script)[0])
    {
      store := BeforeDel(store, script[0]);
      batch := script[0].batch;
      script := script[1..];
      next := if script == [] then "0" else "1";
    }

    method Del(keys: seq<string>) returns (n: nat)
      modifies this`store
      ensures store == old(store) - Prefixed(prefix, keys)
      ensures n == |old(store).Keys * Prefixed(prefix, keys)|
    {
      var r := Deleted(prefix, store, keys);
      DeletedTakes(prefix, store, keys);
      store := r.0;
      n := r.1;
    }
  }

  lemma LoopTurn(prefix: string, store: Store, rounds: seq<Round>)
    requires rounds != []
    ensures After(prefix, store, rounds) == After(prefix, AfterRound(prefix, store, rounds[0]), rounds[1..])
    ensures Sizes(Removals(prefix, store, rounds))
         == |BeforeDel(store, rounds[0]).Keys * Prefixed(prefix, rounds[0].batch)|
            + Sizes(Removals(prefix, AfterRound(prefix, store, rounds[0]), rounds[1..]))
  {
    assert BeforeDel(store, rounds[0]).Keys - AfterRound(prefix, store, rounds[0]).Keys
        == BeforeDel(store, rounds[0]).Keys * Prefixed(prefix, rounds[0].batch);
    assert Removals(prefix, store, rounds)[1..] == Removals(prefix, AfterRound(prefix, store, rounds[0]), rounds[1..]);
  }

  method DeletePattern(client: Client) returns (deleted: nat)
    requires client.script != []
    modifies client
    ensures client.script == []
    ensures client.store == After(client.prefix, old(client.store), old(client.script))
    ensures deleted == Sizes(Removals(client.prefix, old(client.store), old(client.script)))
  {
    var cursor := "0";
    deleted := 0;
    var again := true;
    while again
      invariant again <==> client.script != []
      invariant After(client.prefix, client.store, client.script)
             == After(client.prefix, old(client.store), old(client.script))
      invariant deleted + Sizes(Removals(client.prefix, client.store, client.script))
             == Sizes(Removals(client.prefix, old(client.store), old(client.script)))
      decreases |client.script|
    {
      LoopTurn(client.prefix, client.store, client.script);
      var next, batch := client.ScanBatch(cursor);
      cursor := next;
      if batch != [] {
        var n := client.Del(batch);
        deleted := deleted + n;
      } else {
        NothingToDelete(client.prefix, client.store);
      }
      again := cursor != "0";
    }
  }

  // -------------------------------------------------------------------------------------------
  // What the loop achieves.

  /** SCAN's promise for one full iteration: batches hold only keys that match, and every matching key that was
      in the store all the time is in some batch. */
  ghost predicate Honest(prefix: string, matches: string -> bool, store: Store, rounds: seq<Round>) {
    && (forall i, k | 0 <= i < |rounds| && k in rounds[i].batch :: matches(k))
    && (forall k | matches(k) && AllTheTime(prefix, store, rounds, k) ::
          exists i :: 0 <= i < |rounds| && k in rounds[i].batch)
  }

  /** The key was there at each SCAN, and in between neither another client nor the loop itself removed it. */
  ghost predicate AllTheTime(prefix: string, store: Store, rounds: seq<Round>, k: string) {
    && Throughout(prefix, store, rounds, k)
    && NeverRemoved(rounds, k)
    && forall i | 0 <= i < |rounds| :: k !in Prefixed(prefix, rounds[i].batch)
  }

  ghost predicate Throughout(prefix: string, store: Store, rounds: seq<Round>, k: string) {
    forall i | 0 <= i < |rounds| :: k in Scanned(prefix, store, rounds)[i]
  }

  /** Nobody else removes the key. */
  predicate NeverRemoved(rounds: seq<Round>, k: string) {
    forall i | 0 <= i < |rounds| :: Remove(k) !in rounds[i].before && Remove(k) !in rounds[i].between
  }

  /** Nobody else writes the key. */
  predicate NeverPut(rounds: seq<Round>, k: string) {
    forall i | 0 <= i < |rounds| :: Unwritten(rounds[i].before, k) && Unwritten(rounds[i].between, k)
  }

  predicate Unwritten(changes: seq<Change>, k: string) {
    forall i | 0 <= i < |changes| :: changes[i].Put? ==> changes[i].key != k
  }

  lemma BareBatch(batch: seq<string>)
    ensures forall k :: k in Prefixed("", batch) <==> k in batch
  {
    assert forall k: string :: "" + k == k;
  }

  lemma {:induction false} UnwrittenGone(store: Store, changes: seq<Change>, k: string)
    requires Unwritten(changes, k) && k in Changed(store, changes)
    ensures k in store && Remove(k) !in changes
    decreases |changes|
  {
    if changes != [] {
      assert changes == [changes[0]] + changes[1..];
      var c := changes[0];
      UnwrittenGone(if c.Put? then store[c.key := c.value] else store - {c.key}, changes[1..], k);
    }
  }

  /** A key nobody else writes, and that is there at the end, was there all the time. */
  lemma {:induction false} UnwrittenSurvivor(prefix: string, store: Store, rounds: seq<Round>, k: string)
    requires NeverPut(rounds, k) && k in After(prefix, store, rounds)
    ensures k in store && AllTheTime(prefix, store, rounds, k)
    decreases |rounds|
  {
    if rounds != [] {
      var r, rest := rounds[0], rounds[1..];
      assert rounds == [r] + rest;
      UnwrittenSurvivor(prefix, AfterRound(prefix, store, r), rest, k);
      UnwrittenGone(Changed(store, r.before), r.between, k);
      UnwrittenGone(store, r.before, k);
      SurvivorCons(prefix, store, r, rest, k);
    }
  }

  lemma SurvivorCons(prefix: string, store: Store, r: Round, rest: seq<Round>, k: string)
    requires AllTheTime(prefix, AfterRound(prefix, store, r), rest, k) && k !in Prefixed(prefix, r.batch)
    requires k in Changed(store, r.before) && Remove(k) !in r.before && Remove(k) !in r.between
    ensures AllTheTime(prefix, store, [r] + rest, k)
  {
    var rounds := [r] + rest;
    assert rounds[1..] == rest;
    assert forall i | 0 < i < |rounds| :: rounds[i] == rest[i - 1];
  }

  /** With no key prefix, no matching key is left that nobody else wrote meanwhile. */
  lemma MatchesGone(matches: string -> bool, store: Store, rounds: seq<Round>, k: string)
    requires Honest("", matches, store, rounds) && matches(k) && NeverPut(rounds, k)
    ensures k !in After("", store, rounds)
  {
    if k in After("", store, rounds) {
      UnwrittenSurvivor("", store, rounds, k);
      var i :| 0 <= i < |rounds| && k in rounds[i].batch;
      BareBatch(rounds[i].batch);
      assert false;
    }
  }

  lemma {:induction false} WrittenStays(store: Store, changes: seq<Change>, k: string)
    requires Remove(k) !in changes && k in store
    ensures k in Changed(store, changes)
    decreases |changes|
  {
    if changes != [] {
      assert changes == [changes[0]] + changes[1..];
      var c := changes[0];
      WrittenStays(if c.Put? then store[c.key := c.value] else store - {c.key}, changes[1..], k);
    }
  }

  lemma {:induction false} NeverNamed(prefix: string, store: Store, rounds: seq<Round>, k: string)
    requires k in store && NeverRemoved(rounds, k)
    requires forall i | 0 <= i < |rounds| :: k !in Prefixed(prefix, rounds[i].batch)
    ensures AllTheTime(prefix, store, rounds, k)
    decreases |rounds|
  {
    if rounds != [] {
      var r, rest := rounds[0], rounds[1..];
      assert rounds == [r] + rest;
      WrittenStays(store, r.before, k);
      WrittenStays(Changed(store, r.before), r.between, k);
      NeverNamed(prefix, AfterRound(prefix, store, r), rest, k);
      SurvivorCons(prefix, store, r, rest, k);
    }
  }

  lemma {:induction false} UnwrittenAfter(prefix: string, store: Store, rounds: seq<Round>, k: string)
    requires NeverPut(rounds, k) && k !in store
    ensures k !in After(prefix, store, rounds)
  {
    if k in After(prefix, store, rounds) {
      UnwrittenSurvivor(prefix, store, rounds, k);
    }
  }

  /** Deleted in round `i`, and not written in a later one. */
  lemma {:induction false} DeletedInRound(prefix: string, store: Store, rounds: seq<Round>, k: string, i: nat)
    requires i < |rounds| && k in Prefixed(prefix, rounds[i].batch) && NeverPut(rounds[i + 1..], k)
    ensures k !in After(prefix, store, rounds)
    decreases |rounds|
  {
    var store1 := AfterRound(prefix, store, rounds[0]);
    if i == 0 {
      UnwrittenAfter(prefix, store1, rounds[1..], k);
    } else {
      assert rounds[1..][i - 1] == rounds[i] && rounds[1..][i..] == rounds[i + 1..];
      DeletedInRound(prefix, store1, rounds[1..], k, i - 1);
    }
  }

  /** A matching key that others may overwrite but not remove is named by some DEL; and whatever others do to
      it, it is gone if nobody writes it in a round after one whose DEL named it. */
  lemma OverwrittenGone(matches: string -> bool, store: Store, rounds: seq<Round>, k: string)
    requires Honest("", matches, store, rounds) && matches(k)
    ensures k in store && NeverRemoved(rounds, k) ==> exists i :: 0 <= i < |rounds| && k in rounds[i].batch
    ensures forall i | 0 <= i < |rounds| && k in rounds[i].batch && NeverPut(rounds[i + 1..], k) ::
              k !in After("", store, rounds)
  {
    if k in store && NeverRemoved(rounds, k) && forall i | 0 <= i < |rounds| :: k !in rounds[i].batch {
      forall i | 0 <= i < |rounds| ensures k !in Prefixed("", rounds[i].batch) { BareBatch(rounds[i].batch); }
      NeverNamed("", store, rounds, k);
    }
    forall i | 0 <= i < |rounds| && k in rounds[i].batch && NeverPut(rounds[i + 1..], k)
      ensures k !in After("", store, rounds)
    {
      BareBatch(rounds[i].batch);
      DeletedInRound("", store, rounds, k, i);
    }
  }

  /** Everything the other clients do, in order. */
  function AllChanges(rounds: seq<Round>): seq<Change> {
    if rounds == [] then [] else rounds[0].before + rounds[0].between + AllChanges(rounds[1..])
  }

  predicate SameAt(a: Store, b: Store, k: string) {
    (k in a <==> k in b) && (k in a ==> a[k] == b[k])
  }

  lemma {:induction false} ChangedAppend(store: Store, a: seq<Change>, b: seq<Change>)
    ensures Changed(store, a + b) == Changed(Changed(store, a), b)
    decreases |a|
  {
    if a == [] {
      assert a + b == b;
    } else {
      assert (a + b)[0] == a[0] && (a + b)[1..] == a[1..] + b;
      var c := a[0];
      ChangedAppend(if c.Put? then store[c.key := c.value] else store - {c.key}, a[1..], b);
    }
  }

  lemma {:induction false} ChangedAlike(s: Store, t: Store, changes: seq<Change>, k: string)
    requires SameAt(s, t, k)
    ensures SameAt(Changed(s, changes), Changed(t, changes), k)
    decreases |changes|
  {
    if changes != [] {
      var c := changes[0];
      ChangedAlike(if c.Put? then s[c.key := c.value] else s - {c.key},
                   if c.Put? then t[c.key := c.value] else t - {c.key}, changes[1..], k);
    }
  }

  /** To a key no DEL names, the loop might as well not have run. */
  lemma {:induction false} LoopInvisible(prefix: string, s: Store, t: Store, rounds: seq<Round>, k: string)
    requires SameAt(s, t, k) && forall i | 0 <= i < |rounds| :: k !in Prefixed(prefix, rounds[i].batch)
    ensures SameAt(After(prefix, s, rounds), Changed(t, AllChanges(rounds)), k)
    decreases |rounds|
  {
    if rounds != [] {
      var r := rounds[0];
      var t1 := Changed(Changed(t, r.before), r.between);
      ChangedAlike(s, t, r.before, k);
      ChangedAlike(Changed(s, r.before), Changed(t, r.before), r.between, k);
      LoopInvisible(prefix, AfterRound(prefix, s, r), t1, rounds[1..], k);
      ChangedAppend(t, r.before, r.between);
      ChangedAppend(t, r.before + r.between, AllChanges(rounds[1..]));
    }
  }

  /** With no key prefix, a key that does not match ends as the other clients alone would have left it. */
  lemma OthersUnaffected(matches: string -> bool, store: Store, rounds: seq<Round>, k: string)
    requires Honest("", matches, store, rounds) && !matches(k)
    ensures SameAt(After("", store, rounds), Changed(store, AllChanges(rounds)), k)
  {
    forall i | 0 <= i < |rounds| ensures k !in Prefixed("", rounds[i].batch) { BareBatch(rounds[i].batch); }
    LoopInvisible("", store, store, rounds, k);
  }

  /** Each DEL takes out only keys that match. */
  lemma {:induction false} OnlyMatchesRemoved(matches: string -> bool, store: Store, rounds: seq<Round>)
    requires forall i, k | 0 <= i < |rounds| && k in rounds[i].batch :: matches(k)
    ensures forall i, k | 0 <= i < |rounds| && k in Removals("", store, rounds)[i] :: matches(k)
    decreases |rounds|
  {
    if rounds != [] {
      OnlyMatchesRemoved(matches, AfterRound("", store, rounds[0]), rounds[1..]);
      assert forall k | k in Prefixed("", rounds[0].batch) :: matches(k) by {
        assert forall k | k in rounds[0].batch :: "" + k == k && matches(k);
      }
    }
  }

  /** What becomes of one key, for any key prefix: named by no DEL, it ends as the other clients alone would have
      left it; named by one, it is gone unless somebody writes it in a later round. */
  lemma KeyThroughLoop(prefix: string, store: Store, rounds: seq<Round>, k: string)
    ensures (forall i | 0 <= i < |rounds| :: k !in Prefixed(prefix, rounds[i].batch)) ==>
              SameAt(After(prefix, store, rounds), Changed(store, AllChanges(rounds)), k)
    ensures forall i | 0 <= i < |rounds| && k in Prefixed(prefix, rounds[i].batch) && NeverPut(rounds[i + 1..], k) ::
              k !in After(prefix, store, rounds)
  {
    if forall i | 0 <= i < |rounds| :: k !in Prefixed(prefix, rounds[i].batch) {
      LoopInvisible(prefix, store, store, rounds, k);
    }
    forall i | 0 <= i < |rounds| && k in Prefixed(prefix, rounds[i].batch) && NeverPut(rounds[i + 1..], k)
      ensures k !in After(prefix, store, rounds)
    {
      DeletedInRound(prefix, store, rounds, k, i);
    }
  }

  /** With no key prefix, the loop leaves no matching key that nobody else wrote meanwhile, and leaves every other
      key as the other clients alone would have. */
  lemma PatternDeleted(matches: string -> bool, store: Store, rounds: seq<Round>, k: string)
    requires Honest("", matches, store, rounds)
    ensures matches(k) && NeverPut(rounds, k) ==> k !in After("", store, rounds)
    ensures !matches(k) ==> SameAt(After("", store, rounds), Changed(store, AllChanges(rounds)), k)
  {
    if matches(k) && NeverPut(rounds, k) { MatchesGone(matches, store, rounds, k); }
    if !matches(k) { OthersUnaffected(matches, store, rounds, k); }
  }

  /** Whatever honest SCANs return, no matching key is left that nobody else writes. */
  ghost predicate Invalidates(prefix: string, matches: string -> bool) {
    forall store, rounds, k | Honest(prefix, matches, store, rounds) && NeverPut(rounds, k) && matches(k) ::
      k !in After(prefix, store, rounds)
  }

  /** SCAN patterns and replies carry no prefix but DEL adds one, so invalidation works for a pattern that can
      match anything exactly when the prefix is empty. The default configuration's prefix is not. */
  lemma InvalidatesExactlyWithoutPrefix(prefix: string, matches: string -> bool, key: string)
    requires matches(key)
    ensures Invalidates(prefix, matches) <==> prefix == ""
  {
    if prefix == "" {
      forall store, rounds, k | Honest(prefix, matches, store, rounds) && NeverPut(rounds, k) && matches(k)
        ensures k !in After(prefix, store, rounds)
      {
        MatchesGone(matches, store, rounds, k);
      }
    } else {
      var store, rounds := map[key := ""], [Round([], [key], [])];
      assert key != prefix + key by { assert |prefix + key| != |key|; }
      assert After(prefix, store, rounds[1..]) == store;
      assert AfterRound(prefix, store, rounds[0]) == store;
      assert Honest(prefix, matches, store, rounds) by {
        forall k | Throughout(prefix, store, rounds, k) ensures k == key {
          assert k in Scanned(prefix, store, rounds)[0];
        }
        assert key in rounds[0].batch;
      }
      assert key in After(prefix, store, rounds);
    }
  }
}
