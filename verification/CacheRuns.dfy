/** Concurrent `getOrSet` calls on a shared store, each in three parts (read, fetch, write) between which
    anything can happen: other calls, changes of the source, deletions, the passing of time, lost reads and
    writes. There is no lock, so what holds is a bound on staleness, and an exact condition for freshness. */
module CacheRuns {
  import opened Wrappers
  import Json
  import opened Redis

  /** What the source holds for every key, since when. */
  datatype Version = Version(since: int, values: map<string, Json.Value>)

  function ValueOf(v: Version, key: string): Json.Value {
    if key in v.values then v.values[key] else Json.Null
  }

  /** Where an entry came from: the version fetched, when it was fetched, when it was written, for what TTL, and
      by which call. */
  datatype Origin = Origin(version: nat, fetched: int, written: int, ttl: int, writer: nat)

  /** The last three have returned. `written` is when what was fetched reached Redis, if it did. */
  datatype Phase =
    | Reading
    | Fetching
    | Writing(value: Json.Value, version: nat, fetched: int)
    | Hit(value: Json.Value, origin: Origin, at: int)
    | Fetched(value: Json.Value, version: nat, at: int, written: Option<int>)
    | Threw

  datatype Call = Call(key: string, ttl: int, phase: Phase)

  /** `origins` is history: of the value under each key. */
  datatype State = State(
    now: int,
    store: Store,
    versions: seq<Version>,
    calls: map<nat, Call>,
    next: nat,
    origins: map<string, Origin>)

  datatype Step =
    | Begin(key: string, ttl: int)
    | Read(id: nat, fails: bool)
    | Fetch(id: nat, throws: bool)
    | Write(id: nat, outcome: WriteOutcome)
    | Del(key: string)
    | Change(key: string, value: Json.Value)
    | Tick(ticks: nat)

  function Source(s: State, key: string): Json.Value
    requires s.versions != []
  {
    ValueOf(s.versions[|s.versions| - 1], key)
  }

  predicate Enabled(s: State, step: Step) {
    s.versions != [] &&
    match step
    case Read(id, _) => id in s.calls && s.calls[id].phase.Reading?
    case Fetch(id, _) => id in s.calls && s.calls[id].phase.Fetching?
    case Write(id, _) => id in s.calls && s.calls[id].phase.Writing?
    case _ => true
  }

  function At(s: State, id: nat, phase: Phase): State
    requires id in s.calls
  {
    s.(calls := s.calls[id := s.calls[id].(phase := phase)])
  }

  function Next(s: State, step: Step): State
    requires Enabled(s, step)
  {
    match step
    case Begin(key, ttl) => s.(calls := s.calls[s.next := Call(key, ttl, Reading)], next := s.next + 1)
    case Read(id, fails) =>
      var key := s.calls[id].key;
      if !fails && Cached(s.store, s.now, key) != Json.Null then
        At(s, id, Hit(Cached(s.store, s.now, key), if key in s.origins then s.origins[key] else Origin(0, 0, 0, 0, 0), s.now))
      else At(s, id, Fetching)
    case Fetch(id, throws) =>
      if throws then At(s, id, Threw)
      else At(s, id, Writing(Source(s, s.calls[id].key), |s.versions| - 1, s.now))
    case Write(id, outcome) =>
      var c := s.calls[id];
      if c.phase.value != Json.Null && !outcome.Refused? then
        At(s, id, Fetched(c.phase.value, c.phase.version, c.phase.fetched, Some(s.now)))
          .(store := Saved(s.store, s.now, c.key, c.phase.value, c.ttl),
            origins := s.origins[c.key := Origin(c.phase.version, c.phase.fetched, s.now, c.ttl, id)])
      else
        At(s, id, Fetched(c.phase.value, c.phase.version, c.phase.fetched, None))
    case Del(key) => s.(store := s.store - {key})
    case Change(key, value) =>
      s.(versions := s.versions + [Version(s.now, s.versions[|s.versions| - 1].values[key := value])])
    case Tick(ticks) => s.(now := s.now + ticks)
  }

  predicate Possible(s: State, steps: seq<Step>)
    decreases |steps|
  {
    steps == [] || (Enabled(s, steps[0]) && Possible(Next(s, steps[0]), steps[1..]))
  }

  function Exec(s: State, steps: seq<Step>): State
    requires Possible(s, steps)
    decreases |steps|
  {
    if steps == [] then s else Exec(Next(s, steps[0]), steps[1..])
  }

  function Initial(now: int, values: map<string, Json.Value>): State {
    State(now, map[], [Version(now, values)], map[], 0, map[])
  }

  // -------------------------------------------------------------------------------------------
  // Bounded staleness.

  /** Version `v` was the source's at time `t`. */
  predicate HeldAt(versions: seq<Version>, v: nat, t: int) {
    v < |versions| && versions[v].since <= t && (v + 1 < |versions| ==> t <= versions[v + 1].since)
  }

  /** The version was the source's when it was fetched, which was before it was written. */
  predicate Sourced(s: State, o: Origin) {
    HeldAt(s.versions, o.version, o.fetched) && o.fetched <= o.written <= s.now
  }

  /** A call for the key with this TTL fetched that version then, and its write reached Redis then. */
  predicate WrittenBy(s: State, key: string, o: Origin) {
    && o.writer in s.calls
    && var w := s.calls[o.writer];
       w.key == key && w.ttl == o.ttl
       && w.phase.Fetched? && w.phase == Fetched(w.phase.value, o.version, o.fetched, Some(o.written))
  }

  predicate Traced(s: State, key: string, o: Origin) {
    Sourced(s, o) && WrittenBy(s, key, o)
  }

  predicate EntrySourced(s: State, key: string)
    requires key in s.store
  {
    && key in s.origins
    && var o := s.origins[key];
       Traced(s, key, o) && s.store[key] == EntryFor(o.written, ValueOf(s.versions[o.version], key), o.ttl)
  }

  /** What a call returns: on a hit, what the codec makes of a value that another call fetched when the source
      held it, and wrote, for a positive TTL less than that TTL before; otherwise, a value the source held when
      the call's own fetch ran. */
  predicate CallSourced(s: State, c: Call) {
    match c.phase
    case Reading => true
    case Fetching => true
    case Threw => true
    case Writing(value, v, at) => HeldAt(s.versions, v, at) && at <= s.now && value == ValueOf(s.versions[v], c.key)
    case Fetched(value, v, at, _) => HeldAt(s.versions, v, at) && at <= s.now && value == ValueOf(s.versions[v], c.key)
    case Hit(value, o, at) =>
      && Traced(s, c.key, o) && o.written <= at <= s.now && (o.ttl > 0 ==> at < o.written + o.ttl)
      && value == Json.Decode(Json.Encode(ValueOf(s.versions[o.version], c.key)))
  }

  ghost predicate Numbered(s: State) {
    s.versions != [] && forall id | id in s.calls :: id < s.next
  }

  ghost predicate AllSourced(s: State) {
    && Numbered(s) && s.versions[|s.versions| - 1].since <= s.now
    && (forall key | key in s.store :: EntrySourced(s, key))
    && (forall id | id in s.calls :: CallSourced(s, s.calls[id]))
  }

  predicate Extends(s: State, s': State) {
    && |s'.versions| == |s.versions| + 1 && s'.versions[..|s.versions|] == s.versions
    && s'.versions[|s.versions|].since == s.now
  }

  /** Time passes, versions are added, and calls that have returned stay as they are. */
  ghost predicate Grows(s: State, s': State) {
    && s.versions != [] && s.versions[|s.versions| - 1].since <= s.now <= s'.now
    && (s'.versions == s.versions || Extends(s, s'))
    && (forall id | id in s.calls && s.calls[id].phase.Fetched? :: id in s'.calls && s'.calls[id] == s.calls[id])
  }

  lemma StepGrows(s: State, step: Step)
    requires Numbered(s) && s.versions[|s.versions| - 1].since <= s.now && Enabled(s, step)
    ensures Grows(s, Next(s, step))
  {
    assert step.Change? ==> Extends(s, Next(s, step));
  }

  lemma StaysHeld(s: State, s': State, v: nat, t: int)
    requires Grows(s, s') && HeldAt(s.versions, v, t) && t <= s.now
    ensures HeldAt(s'.versions, v, t) && s'.versions[v] == s.versions[v]
  {
    if Extends(s, s') {
      assert s'.versions[..|s.versions|][v] == s.versions[v];
      if v + 1 < |s.versions| { assert s'.versions[..|s.versions|][v + 1] == s.versions[v + 1]; }
    }
  }

  lemma StaysTraced(s: State, s': State, key: string, o: Origin)
    requires Grows(s, s') && Traced(s, key, o)
    ensures Traced(s', key, o) && s'.versions[o.version] == s.versions[o.version]
  {
    StaysHeld(s, s', o.version, o.fetched);
  }

  /** What was sourced stays so. */
  lemma LaterSourced(s: State, s': State, c: Call)
    requires Grows(s, s') && CallSourced(s, c)
    ensures CallSourced(s', c)
  {
    match c.phase {
      case Writing(_, v, at) => StaysHeld(s, s', v, at);
      case Fetched(_, v, at, _) => StaysHeld(s, s', v, at);
      case Hit(_, o, _) => StaysTraced(s, s', c.key, o);
      case _ =>
    }
  }

  lemma EntryLater(s: State, s': State, key: string)
    requires Grows(s, s') && key in s.store && EntrySourced(s, key)
    requires key in s'.store && s'.store[key] == s.store[key] && key in s'.origins && s'.origins[key] == s.origins[key]
    ensures EntrySourced(s', key)
  {
    StaysTraced(s, s', key, s.origins[key]);
  }

  /** The entry a write leaves, when it reaches Redis. */
  lemma WrittenSourced(s: State, id: nat, outcome: WriteOutcome)
    requires Enabled(s, Write(id, outcome)) && CallSourced(s, s.calls[id])
    requires s.calls[id].phase.value != Json.Null && !outcome.Refused?
    ensures var s', key := Next(s, Write(id, outcome)), s.calls[id].key; key in s'.store && EntrySourced(s', key)
  {
  }

  lemma StoreSourced(s: State, step: Step, key: string)
    requires AllSourced(s) && Enabled(s, step) && key in Next(s, step).store
    ensures EntrySourced(Next(s, step), key)
  {
    if step.Write? && s.calls[step.id].key == key && s.calls[step.id].phase.value != Json.Null && !step.outcome.Refused? {
      assert CallSourced(s, s.calls[step.id]);
      WrittenSourced(s, step.id, step.outcome);
    } else {
      UntouchedEntry(s, step, key);
      StepGrows(s, step);
      assert EntrySourced(s, key);
      EntryLater(s, Next(s, step), key);
    }
  }

  lemma UntouchedEntry(s: State, step: Step, key: string)
    requires Enabled(s, step) && key in Next(s, step).store
    requires step.Write? && s.calls[step.id].key == key ==> s.calls[step.id].phase.value == Json.Null || step.outcome.Refused?
    ensures key in s.store && Next(s, step).store[key] == s.store[key]
    ensures key in s.origins ==> key in Next(s, step).origins && Next(s, step).origins[key] == s.origins[key]
  {
  }

  /** Only a beginning, a read, a fetch and a write change a call. */
  lemma WhoMoves(s: State, step: Step, id: nat)
    requires Enabled(s, step) && id in Next(s, step).calls
    ensures || (id in s.calls && Next(s, step).calls[id] == s.calls[id])
            || (step.Begin? && Next(s, step).calls[id] == Call(step.key, step.ttl, Reading))
            || ((step.Read? || step.Fetch? || step.Write?) && id == step.id)
  {
  }

  lemma CallsSourced(s: State, step: Step, id: nat)
    requires AllSourced(s) && Enabled(s, step) && id in Next(s, step).calls
    ensures CallSourced(Next(s, step), Next(s, step).calls[id])
  {
    WhoMoves(s, step, id);
    if id in s.calls && Next(s, step).calls[id] == s.calls[id] {
      StepGrows(s, step);
      LaterSourced(s, Next(s, step), s.calls[id]);
    } else if step.Read? {
      ReadSourced(s, step);
    } else if step.Write? || step.Fetch? {
      assert CallSourced(s, s.calls[step.id]);
      MovedOnSourced(s, step);
    }
  }

  lemma MovedOnSourced(s: State, step: Step)
    requires Enabled(s, step) && (step.Write? || step.Fetch?) && CallSourced(s, s.calls[step.id])
    requires s.versions[|s.versions| - 1].since <= s.now
    ensures CallSourced(Next(s, step), Next(s, step).calls[step.id])
  {
  }

  /** A hit is on a live entry: that is where the deadline comes in. */
  lemma ReadSourced(s: State, step: Step)
    requires AllSourced(s) && Enabled(s, step) && step.Read?
    ensures CallSourced(Next(s, step), Next(s, step).calls[step.id])
  {
    var key := s.calls[step.id].key;
    if !step.fails && Cached(s.store, s.now, key) != Json.Null {
      assert EntrySourced(s, key) && Alive(s.store[key], s.now);
      StepGrows(s, step);
      StaysTraced(s, Next(s, step), key, s.origins[key]);
    }
  }

  lemma StepSourced(s: State, step: Step)
    requires AllSourced(s) && Enabled(s, step)
    ensures AllSourced(Next(s, step))
  {
    forall key | key in Next(s, step).store ensures EntrySourced(Next(s, step), key) {
      StoreSourced(s, step, key);
    }
    forall id | id in Next(s, step).calls ensures CallSourced(Next(s, step), Next(s, step).calls[id]) {
      CallsSourced(s, step, id);
    }
    NumberedStep(s, step);
  }

  lemma NumberedStep(s: State, step: Step)
    requires Numbered(s) && s.versions[|s.versions| - 1].since <= s.now && Enabled(s, step)
    ensures var s' := Next(s, step); Numbered(s') && s'.versions[|s'.versions| - 1].since <= s'.now
  {
  }

  lemma {:induction false} RunSourced(s: State, steps: seq<Step>)
    requires AllSourced(s) && Possible(s, steps)
    ensures AllSourced(Exec(s, steps))
    decreases |steps|
  {
    if steps != [] {
      StepSourced(s, steps[0]);
      RunSourced(Next(s, steps[0]), steps[1..]);
    }
  }

  /** Bounded staleness: over every interleaving, a call that was served from the cache at time T returns what
      the codec makes of a value that some other call for the key fetched while the source held it, and wrote
      less than that call's TTL before T, unless that TTL is not positive; a call that was not returns a value
      the source held when its fetch ran. */
  lemma BoundedStaleness(now: int, values: map<string, Json.Value>, steps: seq<Step>)
    requires Possible(Initial(now, values), steps)
    ensures var s := Exec(Initial(now, values), steps);
            forall id | id in s.calls :: CallSourced(s, s.calls[id])
  {
    RunSourced(Initial(now, values), steps);
  }

  // -------------------------------------------------------------------------------------------
  // Freshness, exactly.

  /** Serving this text for a key whose source holds `v` returns `v`, or misses. */
  predicate Agrees(text: string, v: Json.Value) {
    Json.Decode(text) == v || Json.Decode(text) == Json.Null
  }

  ghost predicate CleanEntry(s: State, key: string, v: Json.Value) {
    Live(s.store, s.now, key) ==> Agrees(s.store[key].text, v)
  }

  ghost predicate CleanCalls(s: State, key: string, v: Json.Value) {
    forall id | id in s.calls && s.calls[id].key == key && s.calls[id].phase.Writing? ::
      s.calls[id].phase.value == Json.Null || Agrees(Json.Encode(s.calls[id].phase.value), v)
  }

  /** What the cache holds for the key, what a call is about to write there, and what the codec would make of
      the current value: all agree with the source. */
  ghost predicate Clean(s: State, key: string) {
    && s.versions != []
    && CleanEntry(s, key, Source(s, key))
    && CleanCalls(s, key, Source(s, key))
    && (Source(s, key) == Json.Null || Agrees(Json.Encode(Source(s, key)), Source(s, key)))
  }

  /** The source keeps its value for the key. */
  predicate Keeps(steps: seq<Step>, key: string) {
    forall i | 0 <= i < |steps| :: !(steps[i].Change? && steps[i].key == key)
  }

  /** What a finished call returned, if it returned. */
  function Returned(c: Call): Option<Json.Value> {
    match c.phase
    case Hit(v, _, _) => Some(v)
    case Fetched(v, _, _, _) => Some(v)
    case _ => None
  }

  /** Calls for the key that began at or after call number `first` return the source's value. */
  ghost predicate FreshSince(s: State, key: string, first: nat, v: Json.Value) {
    forall id | id in s.calls && id >= first && s.calls[id].key == key :: Fresh(s.calls[id], v)
  }

  lemma SourceKept(s: State, step: Step, key: string)
    requires Enabled(s, step) && !(step.Change? && step.key == key)
    ensures Next(s, step).versions != [] && Source(Next(s, step), key) == Source(s, key)
  {
  }

  lemma CleanEntryStep(s: State, step: Step, key: string)
    requires Clean(s, key) && Enabled(s, step)
    ensures CleanEntry(Next(s, step), key, Source(s, key))
  {
    if step.Write? && s.calls[step.id].key == key {
      assert s.calls[step.id].phase.value == Json.Null
             || Agrees(Json.Encode(s.calls[step.id].phase.value), Source(s, key));
    }
  }

  lemma CleanCallsStep(s: State, step: Step, key: string)
    requires Clean(s, key) && Enabled(s, step)
    ensures CleanCalls(Next(s, step), key, Source(s, key))
  {
    var s' := Next(s, step);
    forall id | id in s'.calls && s'.calls[id].key == key && s'.calls[id].phase.Writing?
      ensures s'.calls[id].phase.value == Json.Null || Agrees(Json.Encode(s'.calls[id].phase.value), Source(s, key))
    {
      if step.Fetch? && id == step.id {
        assert s'.calls[id].phase.value == Source(s, key);
      } else {
        assert id in s.calls && s'.calls[id] == s.calls[id];
      }
    }
  }

  /** One call for the key, before and after a step. */
  predicate Fresh(c: Call, v: Json.Value) {
    (Returned(c).Some? ==> Returned(c).value == v) && (c.phase.Writing? ==> c.phase.value == v)
  }

  lemma FreshRead(s: State, id: nat, fails: bool, v: Json.Value)
    requires Enabled(s, Read(id, fails)) && CleanEntry(s, s.calls[id].key, v)
    ensures Fresh(Next(s, Read(id, fails)).calls[id], v)
  {
  }

  lemma FreshFetchOrWrite(s: State, step: Step, v: Json.Value)
    requires Enabled(s, step) && (step.Fetch? || step.Write?) && Fresh(s.calls[step.id], v)
    requires v == Source(s, s.calls[step.id].key)
    ensures Fresh(Next(s, step).calls[step.id], v)
  {
  }

  lemma FreshStep(s: State, step: Step, key: string, first: nat)
    requires Clean(s, key) && Enabled(s, step) && FreshSince(s, key, first, Source(s, key))
    ensures FreshSince(Next(s, step), key, first, Source(s, key))
  {
    var s', v := Next(s, step), Source(s, key);
    forall id | id in s'.calls && id >= first && s'.calls[id].key == key ensures Fresh(s'.calls[id], v) {
      WhoMoves(s, step, id);
      if id in s.calls && s'.calls[id] == s.calls[id] {
        assert Fresh(s.calls[id], v);
      } else if step.Read? {
        FreshRead(s, step.id, step.fails, v);
      } else if step.Fetch? || step.Write? {
        assert s.calls[id].key == key && Fresh(s.calls[id], v);
        FreshFetchOrWrite(s, step, v);
      }
    }
  }

  lemma CleanStep(s: State, step: Step, key: string, first: nat)
    requires Clean(s, key) && Enabled(s, step) && !(step.Change? && step.key == key)
    requires FreshSince(s, key, first, Source(s, key))
    ensures Clean(Next(s, step), key) && Source(Next(s, step), key) == Source(s, key)
    ensures FreshSince(Next(s, step), key, first, Source(s, key))
  {
    SourceKept(s, step, key);
    CleanEntryStep(s, step, key);
    CleanCallsStep(s, step, key);
    FreshStep(s, step, key, first);
  }

  lemma {:induction false} CleanRun(s: State, steps: seq<Step>, key: string, first: nat)
    requires Clean(s, key) && Possible(s, steps) && Keeps(steps, key)
    requires FreshSince(s, key, first, Source(s, key))
    ensures FreshSince(Exec(s, steps), key, first, Source(s, key))
    decreases |steps|
  {
    if steps != [] {
      CleanStep(s, steps[0], key, first);
      CleanRun(Next(s, steps[0]), steps[1..], key, first);
    }
  }

  /** A run from here that keeps the source after which a call begun in it has returned something else. */
  ghost predicate GoesStale(s: State, key: string, steps: seq<Step>, late: nat) {
    && s.versions != [] && Possible(s, steps) && Keeps(steps, key) && late >= s.next
    && late in Exec(s, steps).calls && Exec(s, steps).calls[late].key == key
    && Returned(Exec(s, steps).calls[late]).Some? && Returned(Exec(s, steps).calls[late]).value != Source(s, key)
  }

  /** Every call begun from here on returns the source's value, in every run that does not change it. */
  ghost predicate AlwaysFresh(s: State, key: string)
    requires s.versions != []
  {
    forall steps, late :: !GoesStale(s, key, steps, late)
  }

  lemma Then(s: State, step: Step, rest: seq<Step>, key: string)
    requires Enabled(s, step) && Possible(Next(s, step), rest)
    ensures Possible(s, [step] + rest) && Exec(s, [step] + rest) == Exec(Next(s, step), rest)
    ensures Keeps(rest, key) && !step.Change? ==> Keeps([step] + rest, key)
  {
    assert ([step] + rest)[1..] == rest;
  }

  lemma StalerBefore(s: State, step: Step, key: string, rest: seq<Step>, late: nat)
    requires Enabled(s, step) && !step.Change? && GoesStale(Next(s, step), key, rest, late)
    ensures GoesStale(s, key, [step] + rest, late)
  {
    Then(s, step, rest, key);
  }

  /** From a live entry that disagrees, the next call is stale. */
  lemma StaleHit(s: State, key: string) returns (steps: seq<Step>)
    requires Numbered(s) && Live(s.store, s.now, key) && !Agrees(s.store[key].text, Source(s, key))
    ensures GoesStale(s, key, steps, s.next)
  {
    var s1 := Next(s, Begin(key, 1));
    var s2 := Next(s1, Read(s.next, false));
    assert Exec(s2, []) == s2;
    Then(s1, Read(s.next, false), [], key);
    Then(s, Begin(key, 1), [Read(s.next, false)] + [], key);
    steps := [Begin(key, 1)] + ([Read(s.next, false)] + []);
  }

  /** A call about to write a value that disagrees makes the next call stale. */
  lemma StaleWrite(s: State, key: string, id: nat) returns (steps: seq<Step>)
    requires Numbered(s) && id in s.calls && s.calls[id].key == key && s.calls[id].phase.Writing?
    requires s.calls[id].phase.value != Json.Null && !Agrees(Json.Encode(s.calls[id].phase.value), Source(s, key))
    ensures GoesStale(s, key, steps, s.next)
  {
    var rest := StaleHit(Next(s, Write(id, Written)), key);
    StalerBefore(s, Write(id, Written), key, rest, s.next);
    steps := [Write(id, Written)] + rest;
  }

  lemma BegunReading(s: State, key: string)
    requires Numbered(s)
    ensures var s' := Next(s, Begin(key, 1));
            && Numbered(s') && s.next in s'.calls && s'.calls[s.next] == Call(key, 1, Reading)
            && s'.versions == s.versions
  {
  }

  lemma FetchedSource(s: State, key: string, id: nat) returns (s2: State, s3: State)
    requires Numbered(s) && id in s.calls && s.calls[id].key == key && s.calls[id].phase.Reading?
    ensures Enabled(s, Read(id, true)) && s2 == Next(s, Read(id, true))
    ensures Enabled(s2, Fetch(id, false)) && s3 == Next(s2, Fetch(id, false))
    ensures Numbered(s3) && s3.versions == s.versions && id in s3.calls && s3.calls[id].key == key
    ensures s3.calls[id].phase.Writing? && s3.calls[id].phase.value == Source(s, key)
  {
    s2 := Next(s, Read(id, true));
    s3 := Next(s2, Fetch(id, false));
  }

  /** The same if the call is yet to read and fetch. */
  lemma StaleFetch(s: State, key: string, id: nat) returns (steps: seq<Step>, late: nat)
    requires Numbered(s) && id in s.calls && s.calls[id].key == key && s.calls[id].phase.Reading?
    requires Source(s, key) != Json.Null && !Agrees(Json.Encode(Source(s, key)), Source(s, key))
    ensures GoesStale(s, key, steps, late)
  {
    var s2, s3 := FetchedSource(s, key, id);
    steps := StaleWrite(s3, key, id);
    late := s3.next;
    StalerBefore(s2, Fetch(id, false), key, steps, late);
    steps := [Fetch(id, false)] + steps;
    StalerBefore(s, Read(id, true), key, steps, late);
    steps := [Read(id, true)] + steps;
  }

  /** A source value the codec does not preserve is returned changed by the second call. */
  lemma StaleCodec(s: State, key: string) returns (steps: seq<Step>, late: nat)
    requires Numbered(s) && Source(s, key) != Json.Null && !Agrees(Json.Encode(Source(s, key)), Source(s, key))
    ensures GoesStale(s, key, steps, late)
  {
    BegunReading(s, key);
    steps, late := StaleFetch(Next(s, Begin(key, 1)), key, s.next);
    StalerBefore(s, Begin(key, 1), key, steps, late);
    steps := [Begin(key, 1)] + steps;
  }

  /** After a point, every new call returns the source's value, as long as that stays, exactly when at that
      point the cached entry and every write already under way agree with it and the codec preserves it. So
      deleting the key after a change is enough exactly when no older fetch is still to be written. */
  lemma FreshExactlyWhenClean(s: State, key: string)
    requires Numbered(s)
    ensures AlwaysFresh(s, key) <==> Clean(s, key)
  {
    if Clean(s, key) {
      forall steps, late | Possible(s, steps) && Keeps(steps, key) ensures !GoesStale(s, key, steps, late) {
        CleanRun(s, steps, key, s.next);
      }
    } else if Live(s.store, s.now, key) && !Agrees(s.store[key].text, Source(s, key)) {
      var steps := StaleHit(s, key);
    } else if Source(s, key) != Json.Null && !Agrees(Json.Encode(Source(s, key)), Source(s, key)) {
      var steps, late := StaleCodec(s, key);
    } else {
      var id :| id in s.calls && s.calls[id].key == key && s.calls[id].phase.Writing?
                && s.calls[id].phase.value != Json.Null && !Agrees(Json.Encode(s.calls[id].phase.value), Source(s, key));
      var steps := StaleWrite(s, key, id);
    }
  }

  /** Deleting a key makes what follows fresh exactly when no call still has an older value to write, and the
      codec preserves the current one. */
  lemma DeletionSuffices(s: State, key: string)
    requires Numbered(s)
    ensures AlwaysFresh(Next(s, Del(key)), key) <==>
              CleanCalls(s, key, Source(s, key))
              && (Source(s, key) == Json.Null || Agrees(Json.Encode(Source(s, key)), Source(s, key)))
  {
    FreshExactlyWhenClean(Next(s, Del(key)), key);
  }

  /** How that fails: a call fetches, the source changes, and the key is deleted for that reason, before the
      call writes. A call begun after all of this is served the old value. */
  lemma OldValueComesBack(now: int, key: string, was: Json.Value, is_: Json.Value, ttl: int)
    returns (steps: seq<Step>, later: seq<Step>, late: nat)
    requires was != is_ && was != Json.Null && Json.Decode(Json.Encode(was)) == was
    ensures Possible(Initial(now, map[key := was]), steps)
    ensures var s := Exec(Initial(now, map[key := was]), steps);
            s.versions != [] && Source(s, key) == is_ && key !in s.store && GoesStale(s, key, later, late)
  {
    var s0 := Initial(now, map[key := was]);
    var s1 := Next(s0, Begin(key, ttl));
    var s2 := Next(s1, Read(0, false));
    var s3 := Next(s2, Fetch(0, false));
    var s4 := Next(s3, Change(key, is_));
    var s5 := Next(s4, Del(key));
    assert s5.calls[0].phase.value == was;
    later := StaleWrite(s5, key, 0);
    late := s5.next;
    Then(s4, Del(key), [], key);
    Then(s3, Change(key, is_), [Del(key)] + [], key);
    Then(s2, Fetch(0, false), [Change(key, is_)] + ([Del(key)] + []), key);
    Then(s1, Read(0, false), [Fetch(0, false)] + ([Change(key, is_)] + ([Del(key)] + [])), key);
    steps := [Read(0, false)] + ([Fetch(0, false)] + ([Change(key, is_)] + ([Del(key)] + [])));
    Then(s0, Begin(key, ttl), steps, key);
    steps := [Begin(key, ttl)] + steps;
  }

  // -------------------------------------------------------------------------------------------
  // An entry is served while its TTL lasts.

  /** Neither deletes the key nor writes it. */
  predicate Spares(s: State, step: Step, key: string)
    requires Enabled(s, step)
  {
    && step != Del(key)
    && (step.Write? ==> s.calls[step.id].key != key || s.calls[step.id].phase.value == Json.Null || step.outcome.Refused?)
  }

  predicate AllSpare(s: State, steps: seq<Step>, key: string)
    requires Possible(s, steps)
    decreases |steps|
  {
    steps == [] || (Spares(s, steps[0], key) && AllSpare(Next(s, steps[0]), steps[1..], key))
  }

  lemma {:induction false} SparedStays(s: State, steps: seq<Step>, key: string)
    requires Possible(s, steps) && AllSpare(s, steps, key) && key in s.store
    ensures key in Exec(s, steps).store && Exec(s, steps).store[key] == s.store[key] && Exec(s, steps).now >= s.now
    decreases |steps|
  {
    if steps != [] {
      SparedStays(Next(s, steps[0]), steps[1..], key);
    }
  }

  /** After a write that reached Redis, and as long as nobody deletes or writes the key, a read that does not fail
      is a hit on what was written for exactly its TTL, if that is positive, and forever if not; unless what was
      written decodes to null. */
  lemma ServedForItsTtl(s: State, id: nat, outcome: WriteOutcome, steps: seq<Step>, reader: nat)
    requires Enabled(s, Write(id, outcome)) && s.calls[id].phase.value != Json.Null && !outcome.Refused?
    requires var s1, key := Next(s, Write(id, outcome)), s.calls[id].key;
             Possible(s1, steps) && AllSpare(s1, steps, key)
             && Enabled(Exec(s1, steps), Read(reader, false)) && Exec(s1, steps).calls[reader].key == key
    ensures var s2 := Exec(Next(s, Write(id, outcome)), steps);
            var served := Json.Decode(Json.Encode(s.calls[id].phase.value));
            var after := Next(s2, Read(reader, false)).calls[reader].phase;
            if (s.calls[id].ttl <= 0 || s2.now < s.now + s.calls[id].ttl) && served != Json.Null
            then after.Hit? && after.value == served && after.at == s2.now
            else after.Fetching?
  {
    var s1, key := Next(s, Write(id, outcome)), s.calls[id].key;
    SparedStays(s1, steps, key);
    EntryLife(s.store, s.now, key, s.calls[id].phase.value, s.calls[id].ttl, Exec(s1, steps).now);
  }

  // -------------------------------------------------------------------------------------------
  // A call with nothing in between is `getOrSet`.

  /** Fetching after a read: what is left of the call. */
  lemma SerialFetch(s: State, id: nat, outcome: WriteOutcome)
    requires Enabled(s, Fetch(id, false))
    ensures var s2 := Next(Next(s, Fetch(id, false)), Write(id, outcome));
            && Returned(s2.calls[id]) == Some(Source(s, s.calls[id].key))
            && s2.store == if Source(s, s.calls[id].key) != Json.Null && !outcome.Refused?
                           then Saved(s.store, s.now, s.calls[id].key, Source(s, s.calls[id].key), s.calls[id].ttl)
                           else s.store
  {
  }

  /** The parts of a call, one right after the other, return and store what the operation does. */
  lemma SerialCall(s: State, key: string, ttl: int, readFails: bool, throws: bool, outcome: WriteOutcome)
    requires Numbered(s)
    ensures var id, s2 := s.next, Next(Next(s, Begin(key, ttl)), Read(s.next, readFails));
            var fetched := if throws then None else Some(Source(s, key));
            var (value, fetches, store) := GotOrSet(s.store, s.now, key, ttl, fetched, readFails, outcome);
            if fetches == 0 then Returned(s2.calls[id]) == value && s2.store == store
            else
              && s2.calls[id].phase.Fetching?
              && var s3 := Next(s2, Fetch(id, throws));
                 if throws then s3.calls[id].phase.Threw? && value == None && s3.store == store
                 else var s4 := Next(s3, Write(id, outcome)); Returned(s4.calls[id]) == value && s4.store == store
  {
    var s2 := Next(Next(s, Begin(key, ttl)), Read(s.next, readFails));
    if s2.calls[s.next].phase.Fetching? && !throws { SerialFetch(s2, s.next, outcome); }
  }
}
