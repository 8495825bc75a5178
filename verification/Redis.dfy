/** The Redis commands RedisService uses, and RedisService's own operations on one client. */
module Redis {
  import opened Wrappers
  import Json
  import JsonRoundTrip
  import JsonGrammar
  import JsonParsing

  datatype Entry = Entry(text: string, expiry: Option<int>)
  type Store = map<string, Entry>

  /** An entry is readable strictly before its deadline. */
  predicate Alive(e: Entry, now: int) {
    e.expiry.Some? ==> now < e.expiry.value
  }

  predicate Live(store: Store, now: int, key: string) {
    key in store && Alive(store[key], now)
  }

  // -------------------------------------------------------------------------------------------
  // What the service's operations do to a store.

  /** `get`: JSON `null` for a missing key, which JavaScript cannot tell from a cached `null`. */
  function Cached(store: Store, now: int, key: string): Json.Value {
    if Live(store, now, key) then Json.Decode(store[key].text) else Json.Null
  }

  function EntryFor(now: int, v: Json.Value, ttl: int): Entry {
    Entry(Json.Encode(v), if ttl > 0 then Some(now + ttl) else None)
  }

  /** `set`: a TTL that is not positive means none. */
  function Saved(store: Store, now: int, key: string, v: Json.Value, ttl: int): Store {
    store[key := EntryFor(now, v, ttl)]
  }

  /** The integer a text stands for, where INCR accepts it. */
  function IntegerOf(text: string): Option<int> {
    match Json.ReadNumber(text)
    case Got(Num(n), rest) => if rest == "" && Json.IntText(n) == text then Some(n) else None
    case _ => None
  }

  /** INCR: a missing key counts from 0 and gets no deadline, a live one keeps its own. */
  function Incremented(store: Store, now: int, key: string): (r: (Store, Option<int>)) {
    if !Live(store, now, key) then (store[key := Entry(Json.IntText(1), None)], Some(1))
    else
      match IntegerOf(store[key].text)
      case Some(n) => (store[key := store[key].(text := Json.IntText(n + 1))], Some(n + 1))
      case None => (store, None)
  }

  /** EXPIRE NX: only a key without a deadline gets one; a deadline not in the future deletes it. */
  function ExpiredNX(store: Store, now: int, key: string, ttl: int): Store {
    if !Live(store, now, key) || store[key].expiry.Some? then store
    else if ttl <= 0 then store - {key}
    else store[key := store[key].(expiry := Some(now + ttl))]
  }

  /** `incrWithTtl`: both commands in one transaction; an INCR that errs reads as 0. */
  function Counted(store: Store, now: int, key: string, ttl: int): (Store, int) {
    var (incremented, n) := Incremented(store, now, key);
    (ExpiredNX(incremented, now, key, ttl), if n.Some? then n.value else 0)
  }

  /** How a write ends: carried out, not carried out, or carried out with the reply lost. */
  datatype WriteOutcome = Written | Refused | Unconfirmed

  /** `getOrSet`, called while nothing else happens: what it returns, how often it fetches, and the store after. */
  function GotOrSet(store: Store, now: int, key: string, ttl: int, fetched: Option<Json.Value>, readFails: bool,
                    write: WriteOutcome): (Option<Json.Value>, nat, Store)
  {
    if !readFails && Cached(store, now, key) != Json.Null then (Some(Cached(store, now, key)), 0, store)
    else if fetched.Some? && fetched.value != Json.Null && !write.Refused? then
      (fetched, 1, Saved(store, now, key, fetched.value, ttl))
    else (fetched, 1, store)
  }

  // -------------------------------------------------------------------------------------------
  // The imperative form.

  /** How `exec` ends: carried out, aborted, or rejected, in which case it may have been carried out. */
  datatype ExecOutcome = Executed | Aborted | Rejected(carriedOut: bool)

  class Client {
    var store: Store
    var now: int

    method Get(key: string) returns (raw: Option<string>)
      ensures raw == if Live(store, now, key) then Some(store[key].text) else None
    {
      raw := if key in store && Alive(store[key], now) then Some(store[key].text) else None;
    }

    method Set(key: string, text: string, seconds: Option<int>)
      modifies this`store
      ensures store == old(store)[key := Entry(text, if seconds.Some? then Some(now + seconds.value) else None)]
    {
      store := store[key := Entry(text, if seconds.Some? then Some(now + seconds.value) else None)];
    }
  }

  class RedisService {
    const client: Client
    const defaultTtl: int

    constructor (client: Client, configured: Option<int>)
      ensures this.client == client
      ensures defaultTtl == if configured.Some? then configured.value else 300
    {
      this.client := client;
      defaultTtl := if configured.Some? then configured.value else 300;
    }

    method Get(key: string) returns (v: Json.Value)
      ensures v == Cached(client.store, client.now, key)
    {
      var raw := client.Get(key);
      if raw.None? { return Json.Null; }
      var parsed := Json.Parse(raw.value);
      v := if parsed.Some? then parsed.value else Json.Str(raw.value);
    }

    /** Without a TTL, the default one. */
    method Set(key: string, v: Json.Value, ttl: Option<int>)
      modifies client`store
      ensures client.store
           == Saved(old(client.store), client.now, key, v, if ttl.Some? then ttl.value else defaultTtl)
    {
      var ttlSeconds := if ttl.Some? then ttl.value else defaultTtl;
      var payload := if v.Str? then v.s else Json.Print(v);
      if ttlSeconds > 0 {
        client.Set(key, payload, Some(ttlSeconds));
      } else {
        client.Set(key, payload, None);
      }
    }

    /** Read-through: `fetched` is what the source answers if it is asked (nothing, if it throws), and the result
        is absent exactly when the source was asked and threw. Neither a failed read nor a failed write shows. */
    method GetOrSet(key: string, ttl: int, fetched: Option<Json.Value>, readFails: bool, write: WriteOutcome)
      returns (value: Option<Json.Value>, fetches: nat)
      modifies client`store
      ensures (value, fetches, client.store)
           == GotOrSet(old(client.store), client.now, key, ttl, fetched, readFails, write)
    {
      fetches := 0;
      if !readFails {
        var hit := Get(key);
        if hit != Json.Null { return Some(hit), fetches; }
      }
      fetches := fetches + 1;
      if fetched.None? { return None, fetches; }
      if fetched.value != Json.Null && !write.Refused? {
        Set(key, fetched.value, Some(ttl));
      }
      value := fetched;
    }

    /** Nothing is returned where the source's promise rejects. */
    method IncrWithTtl(key: string, ttl: int, exec: ExecOutcome) returns (n: Option<int>)
      modifies client`store
      ensures n == match exec
                   case Executed => Some(Counted(old(client.store), client.now, key, ttl).1)
                   case Aborted => Some(0)
                   case Rejected(_) => None
      ensures client.store == if exec.Executed? || exec == Rejected(true)
                              then Counted(old(client.store), client.now, key, ttl).0
                              else old(client.store)
    {
      if exec.Aborted? { return Some(0); }
      if exec == Rejected(false) { return None; }
      var r := Incremented(client.store, client.now, key);
      client.store := ExpiredNX(r.0, client.now, key, ttl);
      if exec.Rejected? { return None; }
      n := if r.1.Some? then r.1 else Some(0);
    }
  }

  /** `get` right after `set` gives the value back exactly when it is no string that is JSON text, whatever the TTL. */
  lemma GetAfterSet(store: Store, now: int, key: string, v: Json.Value, ttl: int)
    requires JsonRoundTrip.Valid(v)
    ensures Cached(Saved(store, now, key, v, ttl), now, key) == v <==>
              (v.Str? ==> forall w :: !JsonGrammar.IsJson(v.s, w))
  {
    JsonParsing.CodecRoundTrip(v);
  }

  /** What `get` returns: null where there is nothing or nothing any more, what the text is JSON for, or the text. */
  lemma GetMeans(store: Store, now: int, key: string)
    ensures key !in store || (store[key].expiry.Some? && store[key].expiry.value <= now) ==>
              Cached(store, now, key) == Json.Null
    ensures key in store && (store[key].expiry.None? || now < store[key].expiry.value) ==>
              && (forall v | JsonGrammar.IsJson(store[key].text, v) :: Cached(store, now, key) == v)
              && ((forall v :: !JsonGrammar.IsJson(store[key].text, v)) ==>
                    Cached(store, now, key) == Json.Str(store[key].text))
  {
    if key in store { JsonParsing.DecodeMeans(store[key].text); }
  }

  lemma CountTextReads(n: int)
    ensures IntegerOf(Json.IntText(n)) == Some(n)
  {
    JsonRoundTrip.IntegerReads(n);
  }

  /** How long an entry is there: for exactly its TTL, or until it is overwritten if that is not positive; and no
      other key is affected, then or later. */
  lemma EntryLife(store: Store, now: int, key: string, v: Json.Value, ttl: int, t: int)
    requires t >= now
    ensures var after := Saved(store, now, key, v, ttl);
            && Cached(after, t, key) == (if ttl <= 0 || t < now + ttl then Json.Decode(Json.Encode(v)) else Json.Null)
            && forall k | k != key :: Cached(after, t, k) == Cached(store, t, k)
  {
  }

  /** INCR accepts exactly the texts it writes. */
  lemma IntegerTexts(text: string, n: int)
    ensures IntegerOf(text) == Some(n) <==> text == Json.IntText(n)
  {
    if text == Json.IntText(n) { CountTextReads(n); }
  }

  /** What `incrWithTtl` does once INCR has left the key with this entry. */
  lemma ExpiredExactly(incremented: Store, now: int, key: string, ttl: int)
    requires Live(incremented, now, key)
    ensures var after := ExpiredNX(incremented, now, key, ttl);
            BecomesEntry(after, key, incremented[key].text, incremented[key].expiry, now, ttl)
            && after - {key} == incremented - {key}
  {
  }

  lemma CountedFirst(store: Store, now: int, key: string, ttl: int)
    requires !Live(store, now, key)
    ensures var (after, n) := Counted(store, now, key, ttl);
            n == 1 && BecomesEntry(after, key, "1", None, now, ttl) && after - {key} == store - {key}
  {
    assert Json.IntText(1) == Json.Digits(1) == "1";
    var incremented := store[key := Entry("1", None)];
    assert Incremented(store, now, key).0 == incremented && incremented - {key} == store - {key};
    ExpiredExactly(incremented, now, key, ttl);
  }

  lemma CountedAgain(store: Store, now: int, key: string, ttl: int, m: int)
    requires Live(store, now, key) && store[key].text == Json.IntText(m)
    ensures var (after, n) := Counted(store, now, key, ttl);
            n == m + 1 && BecomesEntry(after, key, Json.IntText(m + 1), store[key].expiry, now, ttl)
            && after - {key} == store - {key}
  {
    IntegerTexts(store[key].text, m);
    var incremented := store[key := store[key].(text := Json.IntText(m + 1))];
    assert Incremented(store, now, key).0 == incremented && incremented - {key} == store - {key};
    ExpiredExactly(incremented, now, key, ttl);
  }

  lemma CountedRefused(store: Store, now: int, key: string, ttl: int)
    requires Live(store, now, key) && forall m :: store[key].text != Json.IntText(m)
    ensures var (after, n) := Counted(store, now, key, ttl);
            n == 0 && BecomesEntry(after, key, store[key].text, store[key].expiry, now, ttl)
            && after - {key} == store - {key}
  {
    if IntegerOf(store[key].text).Some? { IntegerTexts(store[key].text, IntegerOf(store[key].text).value); }
    assert Incremented(store, now, key).0 == store;
    ExpiredExactly(store, now, key, ttl);
  }

  /** Exactly what `incrWithTtl` does to a key that is not there, to one that holds an integer, and to one that
      holds anything else; no other key is affected. */
  lemma CountedExactly(store: Store, now: int, key: string, ttl: int)
    ensures var (after, n) := Counted(store, now, key, ttl);
            && (!Live(store, now, key) ==> n == 1 && BecomesEntry(after, key, "1", None, now, ttl))
            && (forall m | Live(store, now, key) && store[key].text == Json.IntText(m) ::
                  n == m + 1 && BecomesEntry(after, key, Json.IntText(m + 1), store[key].expiry, now, ttl))
            && (Live(store, now, key) && (forall m :: store[key].text != Json.IntText(m)) ==>
                  n == 0 && BecomesEntry(after, key, store[key].text, store[key].expiry, now, ttl))
            && after - {key} == store - {key}
  {
    if !Live(store, now, key) {
      CountedFirst(store, now, key, ttl);
    } else if m :| store[key].text == Json.IntText(m) {
      CountedAgain(store, now, key, ttl, m);
      forall k | store[key].text == Json.IntText(k) ensures k == m {
        CountTextReads(k);
        CountTextReads(m);
      }
    } else {
      CountedRefused(store, now, key, ttl);
    }
  }

  /** The key holds this text; its deadline is the one it had or else the TTL from now; and it is gone if that
      TTL is not positive. */
  predicate BecomesEntry(after: Store, key: string, text: string, expiry: Option<int>, now: int, ttl: int) {
    if expiry.None? && ttl <= 0 then key !in after
    else key in after && after[key] == Entry(text, if expiry.Some? then expiry else Some(now + ttl))
  }
}
