/** Exchanges, queues and bindings of a broker, and `assertTopology`, which declares them. */
module Topology {
  import opened Wrappers
  import Topic

  datatype Exchange = Exchange(kind: string, durable: bool)
  datatype DeadLetter = DeadLetter(exchange: string, key: string)
  datatype Queue = Queue(durable: bool, deadLetter: Option<DeadLetter>)
  datatype Binding = Binding(queue: string, exchange: string, pattern: string)
  datatype Topology = Topology(exchanges: map<string, Exchange>, queues: map<string, Queue>, bindings: set<Binding>)

  datatype QueueConfig = QueueConfig(name: string, routingKey: string)
  /** `retryDelayMs` is declared by the source's type and read by nothing. */
  datatype Config = Config(exchange: string, dlx: string, dlq: string, queues: seq<QueueConfig>, retryDelayMs: int)

  const TOPIC := Exchange("topic", true)
  const PLAIN := Queue(true, None)
  const EMPTY := Topology(map[], map[], {})

  function WorkQueue(cfg: Config, q: QueueConfig): Queue {
    Queue(true, Some(DeadLetter(cfg.dlx, q.routingKey)))
  }

  /** Whether an exchange of this kind passes a message with this key along a binding. */
  predicate Passes(kind: string, pattern: string, key: string) {
    match kind
    case "topic" => Topic.Matches(pattern, key)
    case "direct" => pattern == key
    case "fanout" => true
    case _ => false
  }

  /** The exchange every queue is bound to by its own name. */
  const DEFAULT_EXCHANGE := ""

  /** Queues an exchange hands a message with this key to. */
  function Route(t: Topology, exchange: string, key: string): set<string> {
    if exchange == DEFAULT_EXCHANGE then (if key in t.queues then {key} else {})
    else if exchange in t.exchanges then
      set b | b in t.bindings && b.exchange == exchange && Passes(t.exchanges[exchange].kind, b.pattern, key) :: b.queue
    else {}
  }

  /** Queues that receive what queue `q` dead-letters, by a nack without requeue or by expiry. */
  function DeadLetterRoute(t: Topology, q: string): set<string> {
    if q in t.queues && t.queues[q].deadLetter.Some?
    then Route(t, t.queues[q].deadLetter.value.exchange, t.queues[q].deadLetter.value.key)
    else {}
  }

  // -------------------------------------------------------------------------------------------
  // Declarations, as the broker answers them.

  datatype Declaration =
    | AssertExchange(exchange: string, args: Exchange)
    | AssertQueue(queue: string, qargs: Queue)
    | BindQueue(binding: Binding)

  /** A redeclaration with other arguments is refused (PRECONDITION_FAILED), and so are a binding between
      things that do not exist (NOT_FOUND) and a declaration of the default exchange (ACCESS_REFUSED). */
  predicate Accepts(t: Topology, d: Declaration) {
    match d
    case AssertExchange(e, args) => e != DEFAULT_EXCHANGE && (e in t.exchanges ==> t.exchanges[e] == args)
    case AssertQueue(q, args) => q in t.queues ==> t.queues[q] == args
    case BindQueue(b) => b.queue in t.queues && b.exchange in t.exchanges && b.exchange != DEFAULT_EXCHANGE
  }

  function Effect(t: Topology, d: Declaration): Topology {
    match d
    case AssertExchange(e, args) => t.(exchanges := t.exchanges[e := args])
    case AssertQueue(q, args) => t.(queues := t.queues[q := args])
    case BindQueue(b) => t.(bindings := t.bindings + {b})
  }

  datatype Outcome = Outcome(ok: bool, topology: Topology)

  /** Declarations in order, up to the first refusal. */
  function Run(t: Topology, ds: seq<Declaration>): Outcome
    decreases |ds|
  {
    if ds == [] then Outcome(true, t)
    else if Accepts(t, ds[0]) then Run(Effect(t, ds[0]), ds[1..])
    else Outcome(false, t)
  }

  function PerQueue(cfg: Config, qs: seq<QueueConfig>): seq<Declaration> {
    if qs == [] then []
    else
      [AssertQueue(qs[0].name, WorkQueue(cfg, qs[0]))]
      + ([BindQueue(Binding(qs[0].name, cfg.exchange, qs[0].routingKey))] + PerQueue(cfg, qs[1..]))
  }

  function Script(cfg: Config): seq<Declaration> {
    [AssertExchange(cfg.exchange, TOPIC)]
    + ([AssertExchange(cfg.dlx, TOPIC)]
    + ([AssertQueue(cfg.dlq, PLAIN)]
    + ([BindQueue(Binding(cfg.dlq, cfg.dlx, "#"))] + PerQueue(cfg, cfg.queues))))
  }

  // -------------------------------------------------------------------------------------------
  // The imperative form.

  class Broker {
    var exchanges: map<string, Exchange>
    var queues: map<string, Queue>
    var bindings: set<Binding>

    function View(): Topology
      reads this
    {
      Topology(exchanges, queues, bindings)
    }

    method AssertExchange(name: string, args: Exchange) returns (ok: bool)
      modifies this
      ensures ok == Accepts(old(View()), Declaration.AssertExchange(name, args))
      ensures View() == if ok then Effect(old(View()), Declaration.AssertExchange(name, args)) else old(View())
    {
      ok := name != DEFAULT_EXCHANGE && (name in exchanges ==> exchanges[name] == args);
      if ok { exchanges := exchanges[name := args]; }
    }

    method AssertQueue(name: string, args: Queue) returns (ok: bool)
      modifies this
      ensures ok == Accepts(old(View()), Declaration.AssertQueue(name, args))
      ensures View() == if ok then Effect(old(View()), Declaration.AssertQueue(name, args)) else old(View())
    {
      ok := name in queues ==> queues[name] == args;
      if ok { queues := queues[name := args]; }
    }

    method BindQueue(queue: string, exchange: string, pattern: string) returns (ok: bool)
      modifies this
      ensures ok == Accepts(old(View()), Declaration.BindQueue(Binding(queue, exchange, pattern)))
      ensures View() == if ok then Effect(old(View()), Declaration.BindQueue(Binding(queue, exchange, pattern))) else old(View())
    {
      ok := queue in queues && exchange in exchanges && exchange != DEFAULT_EXCHANGE;
      if ok { bindings := bindings + {Binding(queue, exchange, pattern)}; }
    }
  }

  lemma RunCons(t: Topology, d: Declaration, rest: seq<Declaration>)
    ensures Run(t, [d] + rest) == if Accepts(t, d) then Run(Effect(t, d), rest) else Outcome(false, t)
  {
    assert ([d] + rest)[1..] == rest;
  }

  lemma RunPrologue(t: Topology, cfg: Config)
    ensures
      var d0, d1, d2 := AssertExchange(cfg.exchange, TOPIC), AssertExchange(cfg.dlx, TOPIC), AssertQueue(cfg.dlq, PLAIN);
      var d3 := BindQueue(Binding(cfg.dlq, cfg.dlx, "#"));
      var t1 := Effect(t, d0);
      var t2 := Effect(t1, d1);
      var t3 := Effect(t2, d2);
      Run(t, Script(cfg)) ==
      if !Accepts(t, d0) then Outcome(false, t)
      else if !Accepts(t1, d1) then Outcome(false, t1)
      else if !Accepts(t2, d2) then Outcome(false, t2)
      else if !Accepts(t3, d3) then Outcome(false, t3)
      else Run(Effect(t3, d3), PerQueue(cfg, cfg.queues))
  {
    var d0, d1, d2 := AssertExchange(cfg.exchange, TOPIC), AssertExchange(cfg.dlx, TOPIC), AssertQueue(cfg.dlq, PLAIN);
    var d3 := BindQueue(Binding(cfg.dlq, cfg.dlx, "#"));
    var t1 := Effect(t, d0);
    var t2 := Effect(t1, d1);
    var t3 := Effect(t2, d2);
    var r3 := [d3] + PerQueue(cfg, cfg.queues);
    var r2 := [d2] + r3;
    RunCons(t, d0, [d1] + r2);
    RunCons(t1, d1, r2);
    RunCons(t2, d2, r3);
    RunCons(t3, d3, PerQueue(cfg, cfg.queues));
  }

  lemma RunPerQueue(t: Topology, cfg: Config, qs: seq<QueueConfig>)
    requires qs != []
    ensures
      var d0, d1 := AssertQueue(qs[0].name, WorkQueue(cfg, qs[0])),
                    BindQueue(Binding(qs[0].name, cfg.exchange, qs[0].routingKey));
      var t1 := Effect(t, d0);
      Run(t, PerQueue(cfg, qs)) ==
      if !Accepts(t, d0) then Outcome(false, t)
      else if !Accepts(t1, d1) then Outcome(false, t1)
      else Run(Effect(t1, d1), PerQueue(cfg, qs[1..]))
  {
    var d0, d1 := AssertQueue(qs[0].name, WorkQueue(cfg, qs[0])),
                  BindQueue(Binding(qs[0].name, cfg.exchange, qs[0].routingKey));
    RunCons(t, d0, [d1] + PerQueue(cfg, qs[1..]));
    RunCons(Effect(t, d0), d1, PerQueue(cfg, qs[1..]));
  }

  /** `ok` is false where the source's promise rejects. */
  method AssertTopology(broker: Broker, cfg: Config) returns (ok: bool)
    modifies broker
    ensures Outcome(ok, broker.View()) == Run(old(broker.View()), Script(cfg))
  {
    ghost var t := broker.View();
    RunPrologue(t, cfg);
    ok := broker.AssertExchange(cfg.exchange, TOPIC);
    if !ok { return; }
    ok := broker.AssertExchange(cfg.dlx, TOPIC);
    if !ok { return; }
    ok := broker.AssertQueue(cfg.dlq, PLAIN);
    if !ok { return; }
    ok := broker.BindQueue(cfg.dlq, cfg.dlx, "#");
    if !ok { return; }
    for i := 0 to |cfg.queues|
      invariant ok
      invariant Run(t, Script(cfg)) == Run(broker.View(), PerQueue(cfg, cfg.queues[i..]))
    {
      var q := cfg.queues[i];
      RunPerQueue(broker.View(), cfg, cfg.queues[i..]);
      ok := broker.AssertQueue(q.name, WorkQueue(cfg, q));
      if !ok { return; }
      ok := broker.BindQueue(q.name, cfg.exchange, q.routingKey);
      if !ok { return; }
    }
  }

  // -------------------------------------------------------------------------------------------
  // Convergence: a run repeated after any prefix of itself ends as the run alone would.

  /** Something the topology already holds, so that declaring it again changes nothing. */
  predicate Holds(t: Topology, d: Declaration) {
    match d
    case AssertExchange(e, args) => e != DEFAULT_EXCHANGE && e in t.exchanges && t.exchanges[e] == args
    case AssertQueue(q, args) => q in t.queues && t.queues[q] == args
    case BindQueue(b) =>
      b.queue in t.queues && b.exchange in t.exchanges && b.exchange != DEFAULT_EXCHANGE && b in t.bindings
  }

  lemma {:induction false} RunAppend(t: Topology, a: seq<Declaration>, b: seq<Declaration>)
    ensures Run(t, a + b) == if Run(t, a).ok then Run(Run(t, a).topology, b) else Run(t, a)
    decreases |a|
  {
    if a == [] {
      assert a + b == b;
    } else {
      assert (a + b)[0] == a[0] && (a + b)[1..] == a[1..] + b;
      if Accepts(t, a[0]) {
        RunAppend(Effect(t, a[0]), a[1..], b);
      }
    }
  }

  lemma {:induction false} HeldStays(t: Topology, ds: seq<Declaration>, d: Declaration)
    requires Holds(t, d)
    ensures Holds(Run(t, ds).topology, d)
    decreases |ds|
  {
    if ds != [] && Accepts(t, ds[0]) {
      HeldStays(Effect(t, ds[0]), ds[1..], d);
    }
  }

  /** After a run, each declaration it got through is held. */
  lemma {:induction false} RunHolds(t: Topology, ds: seq<Declaration>)
    requires Run(t, ds).ok
    ensures forall d | d in ds :: Holds(Run(t, ds).topology, d)
    decreases |ds|
  {
    if ds != [] {
      HeldStays(Effect(t, ds[0]), ds[1..], ds[0]);
      RunHolds(Effect(t, ds[0]), ds[1..]);
      assert forall d | d in ds :: d == ds[0] || d in ds[1..];
    }
  }

  lemma {:induction false} HeldIsNoOp(t: Topology, ds: seq<Declaration>)
    requires forall d | d in ds :: Holds(t, d)
    ensures Run(t, ds) == Outcome(true, t)
    decreases |ds|
  {
    if ds != [] {
      assert Holds(t, ds[0]);
      assert Effect(t, ds[0]) == t;
      HeldIsNoOp(t, ds[1..]);
    }
  }

  /** A refused run stopped before its first refused declaration. */
  lemma {:induction false} FailurePoint(t: Topology, ds: seq<Declaration>) returns (n: nat)
    requires !Run(t, ds).ok
    ensures n < |ds| && Run(t, ds[..n]) == Outcome(true, Run(t, ds).topology)
    ensures !Accepts(Run(t, ds).topology, ds[n])
    decreases |ds|
  {
    if Accepts(t, ds[0]) {
      var m := FailurePoint(Effect(t, ds[0]), ds[1..]);
      n := m + 1;
      assert ds[..n] == [ds[0]] + ds[1..][..m];
      RunCons(t, ds[0], ds[1..][..m]);
    } else {
      n := 0;
    }
  }

  /** From the broker left by any prefix of an earlier run, whether or not that run was refused, a full rerun
      answers and leaves what one clean run would have. */
  lemma RerunConverges(t: Topology, cfg: Config, n: nat)
    requires n <= |Script(cfg)|
    ensures Run(Run(t, Script(cfg)[..n]).topology, Script(cfg)) == Run(t, Script(cfg))
  {
    RerunAfterPrefix(t, Script(cfg), n);
  }

  lemma RerunAfterPrefix(t: Topology, ds: seq<Declaration>, n: nat)
    requires n <= |ds|
    ensures Run(Run(t, ds[..n]).topology, ds) == Run(t, ds)
  {
    var done := n;
    var mid := Run(t, ds[..n]);
    assert ds[..n] + ds[n..] == ds;
    RunAppend(t, ds[..n], ds[n..]);
    if !mid.ok {
      done := FailurePoint(t, ds[..n]);
      assert ds[..n][..done] == ds[..done];
    }
    RunHolds(t, ds[..done]);
    HeldIsNoOp(mid.topology, ds[..done]);
    RunAppend(mid.topology, ds[..done], ds[done..]);
    assert ds[..done] + ds[done..] == ds;
  }

  // -------------------------------------------------------------------------------------------
  // What a run needs, and what it leaves.

  /** Nothing already declared, by the broker or by the configuration itself, contradicts the configuration. */
  predicate Agrees(t: Topology, cfg: Config) {
    && cfg.exchange != DEFAULT_EXCHANGE && cfg.dlx != DEFAULT_EXCHANGE
    && (cfg.exchange in t.exchanges ==> t.exchanges[cfg.exchange] == TOPIC)
    && (cfg.dlx in t.exchanges ==> t.exchanges[cfg.dlx] == TOPIC)
    && (cfg.dlq in t.queues ==> t.queues[cfg.dlq] == PLAIN)
    && (forall q | q in cfg.queues :: q.name != cfg.dlq)
    && (forall q | q in cfg.queues :: q.name in t.queues ==> t.queues[q.name] == WorkQueue(cfg, q))
    && (forall q, r | q in cfg.queues && r in cfg.queues :: q.name == r.name ==> q == r)
  }

  function Names(qs: seq<QueueConfig>): set<string> {
    set q | q in qs :: q.name
  }

  function Bindings(cfg: Config, qs: seq<QueueConfig>): set<Binding> {
    set q | q in qs :: Binding(q.name, cfg.exchange, q.routingKey)
  }

  /** The topology `u` holds what `t` held, what the configuration asks for, and nothing else. */
  ghost predicate Extends(t: Topology, cfg: Config, u: Topology) {
    && u.exchanges == t.exchanges[cfg.exchange := TOPIC][cfg.dlx := TOPIC]
    && u.queues.Keys == t.queues.Keys + {cfg.dlq} + Names(cfg.queues)
    && (forall n | n in t.queues :: u.queues[n] == t.queues[n])
    && u.queues[cfg.dlq] == PLAIN
    && (forall q | q in cfg.queues :: u.queues[q.name] == WorkQueue(cfg, q))
    && u.bindings == t.bindings + {Binding(cfg.dlq, cfg.dlx, "#")} + Bindings(cfg, cfg.queues)
  }

  ghost predicate AgreesOn(t: Topology, cfg: Config, qs: seq<QueueConfig>) {
    && (forall q | q in qs :: q.name in t.queues ==> t.queues[q.name] == WorkQueue(cfg, q))
    && (forall q, r | q in qs && r in qs :: q.name == r.name ==> q == r)
  }

  ghost predicate ExtendsBy(t: Topology, cfg: Config, qs: seq<QueueConfig>, u: Topology) {
    && u.exchanges == t.exchanges
    && u.queues.Keys == t.queues.Keys + Names(qs)
    && (forall n | n in t.queues :: u.queues[n] == t.queues[n])
    && (forall q | q in qs :: u.queues[q.name] == WorkQueue(cfg, q))
    && u.bindings == t.bindings + Bindings(cfg, qs)
  }

  function AfterQueue(t: Topology, cfg: Config, q: QueueConfig): Topology {
    Effect(Effect(t, AssertQueue(q.name, WorkQueue(cfg, q))), BindQueue(Binding(q.name, cfg.exchange, q.routingKey)))
  }

  lemma AgreesOnTail(t: Topology, cfg: Config, qs: seq<QueueConfig>)
    requires qs != [] && Accepts(t, AssertQueue(qs[0].name, WorkQueue(cfg, qs[0])))
    ensures AgreesOn(t, cfg, qs) <==> AgreesOn(AfterQueue(t, cfg, qs[0]), cfg, qs[1..])
  {
    var q, t1 := qs[0], AfterQueue(t, cfg, qs[0]);
    assert forall r | r in qs :: r == q || r in qs[1..];
    assert forall r | r in qs[1..] :: r in qs;
    if AgreesOn(t1, cfg, qs[1..]) {
      forall r | r in qs[1..] && r.name == q.name ensures r == q {
        assert t1.queues[r.name] == WorkQueue(cfg, r);
      }
    }
  }

  lemma ExtendsByTail(t: Topology, cfg: Config, qs: seq<QueueConfig>, u: Topology)
    requires qs != [] && AgreesOn(t, cfg, qs)
    requires ExtendsBy(AfterQueue(t, cfg, qs[0]), cfg, qs[1..], u)
    ensures ExtendsBy(t, cfg, qs, u)
  {
    var q, t1 := qs[0], AfterQueue(t, cfg, qs[0]);
    assert forall r :: r in qs <==> r == q || r in qs[1..];
    assert Names(qs) == {q.name} + Names(qs[1..]);
    assert Bindings(cfg, qs) == {Binding(q.name, cfg.exchange, q.routingKey)} + Bindings(cfg, qs[1..]);
    assert u.queues[q.name] == t1.queues[q.name];
    forall n | n in t.queues ensures u.queues[n] == t.queues[n] {
      assert u.queues[n] == t1.queues[n];
    }
  }

  lemma {:induction false} PerQueueOutcome(t: Topology, cfg: Config, qs: seq<QueueConfig>)
    requires cfg.exchange in t.exchanges && cfg.exchange != DEFAULT_EXCHANGE
    ensures var o := Run(t, PerQueue(cfg, qs));
            && (o.ok <==> AgreesOn(t, cfg, qs))
            && (o.ok ==> ExtendsBy(t, cfg, qs, o.topology))
    decreases |qs|
  {
    if qs == [] {
      assert PerQueue(cfg, qs) == [];
    } else {
      RunPerQueue(t, cfg, qs);
      if Accepts(t, AssertQueue(qs[0].name, WorkQueue(cfg, qs[0]))) {
        var t1 := AfterQueue(t, cfg, qs[0]);
        PerQueueOutcome(t1, cfg, qs[1..]);
        AgreesOnTail(t, cfg, qs);
        if Run(t1, PerQueue(cfg, qs[1..])).ok {
          ExtendsByTail(t, cfg, qs, Run(t1, PerQueue(cfg, qs[1..])).topology);
        }
      } else {
        assert qs[0] in qs;
      }
    }
  }

  /** `assertTopology` goes through exactly when nothing contradicts the configuration, and then adds what the
      configuration names and nothing more. */
  lemma TopologyOutcome(t: Topology, cfg: Config)
    ensures var o := Run(t, Script(cfg));
            && (o.ok <==> Agrees(t, cfg))
            && (o.ok ==> Extends(t, cfg, o.topology))
  {
    RunPrologue(t, cfg);
    var t4 := Topology(t.exchanges[cfg.exchange := TOPIC][cfg.dlx := TOPIC], t.queues[cfg.dlq := PLAIN],
                       t.bindings + {Binding(cfg.dlq, cfg.dlx, "#")});
    if cfg.exchange != DEFAULT_EXCHANGE { PerQueueOutcome(t4, cfg, cfg.queues); }
  }

  /** What a completed call leaves declared, whatever the broker held: two durable topic exchanges; a durable DLQ
      without dead-letter arguments, bound for every key; and durable queues that dead-letter to the dead-letter
      exchange under the key they are bound with. */
  lemma DeclaredArguments(t: Topology, cfg: Config)
    requires Run(t, Script(cfg)).ok
    ensures var u := Run(t, Script(cfg)).topology;
            && cfg.exchange in u.exchanges && u.exchanges[cfg.exchange] == Exchange("topic", true)
            && cfg.dlx in u.exchanges && u.exchanges[cfg.dlx] == Exchange("topic", true)
            && cfg.dlq in u.queues && u.queues[cfg.dlq] == Queue(true, None)
            && Binding(cfg.dlq, cfg.dlx, "#") in u.bindings
            && (forall q | q in cfg.queues ::
                  && q.name in u.queues && u.queues[q.name] == Queue(true, Some(DeadLetter(cfg.dlx, q.routingKey)))
                  && Binding(q.name, cfg.exchange, q.routingKey) in u.bindings)
  {
    TopologyOutcome(t, cfg);
    var u := Run(t, Script(cfg)).topology;
    forall q | q in cfg.queues
      ensures q.name in u.queues && Binding(q.name, cfg.exchange, q.routingKey) in u.bindings
    {
      assert q.name in Names(cfg.queues);
      assert Binding(q.name, cfg.exchange, q.routingKey) in Bindings(cfg, cfg.queues);
    }
  }

  lemma SameQueuesAgree(t: Topology, cfg: Config, other: Config)
    requires other == cfg.(queues := other.queues) && forall q :: q in other.queues <==> q in cfg.queues
    ensures Agrees(t, cfg) ==> Agrees(t, other)
  {
    assert forall q | q in cfg.queues :: WorkQueue(other, q) == WorkQueue(cfg, q);
  }

  lemma SameQueuesExtend(t: Topology, cfg: Config, other: Config, u: Topology, v: Topology)
    requires other == cfg.(queues := other.queues) && forall q :: q in other.queues <==> q in cfg.queues
    requires Extends(t, cfg, u) && Extends(t, other, v)
    ensures u == v
  {
    assert Names(other.queues) == Names(cfg.queues) && Bindings(other, other.queues) == Bindings(cfg, cfg.queues);
    assert u.queues.Keys == v.queues.Keys;
    forall n | n in u.queues ensures u.queues[n] == v.queues[n] {
      if n !in t.queues && n != cfg.dlq {
        var q :| q in cfg.queues && q.name == n;
        assert WorkQueue(other, q) == WorkQueue(cfg, q);
      }
    }
    assert u.queues == v.queues;
  }

  /** A queue of the configuration cannot also be declared without dead-letter arguments: after the call, the plain
      declaration is refused; after the plain declaration, the call is. */
  lemma PlainDeclarationClashes(t: Topology, cfg: Config, q: QueueConfig)
    requires q in cfg.queues
    ensures var d := AssertQueue(q.name, PLAIN);
            && (Run(t, Script(cfg)).ok ==> !Accepts(Run(t, Script(cfg)).topology, d))
            && (Accepts(t, d) ==> !Run(Effect(t, d), Script(cfg)).ok)
  {
    TopologyOutcome(t, cfg);
    TopologyOutcome(Effect(t, AssertQueue(q.name, PLAIN)), cfg);
  }

  /** The order of `config.queues` and repeated entries do not matter. */
  lemma QueueOrderIrrelevant(t: Topology, cfg: Config, queues: seq<QueueConfig>)
    requires forall q :: q in queues <==> q in cfg.queues
    ensures var o, p := Run(t, Script(cfg)), Run(t, Script(cfg.(queues := queues)));
            o.ok == p.ok && (o.ok ==> o.topology == p.topology)
  {
    var other := cfg.(queues := queues);
    TopologyOutcome(t, cfg);
    TopologyOutcome(t, other);
    SameQueuesAgree(t, cfg, other);
    SameQueuesAgree(t, other, cfg);
    if Run(t, Script(cfg)).ok {
      SameQueuesExtend(t, cfg, other, Run(t, Script(cfg)).topology, Run(t, Script(other)).topology);
    }
  }

  // -------------------------------------------------------------------------------------------
  // The topology of a fresh broker.

  function Built(cfg: Config): Topology {
    Run(EMPTY, Script(cfg)).topology
  }

  /** A dead letter of a declared queue always reaches the DLQ. It reaches nothing else exactly when the main
      and the dead-letter exchange differ: when they are one, it also comes straight back to the queue that
      gave it up, because its dead-letter key is that queue's own binding pattern. */
  lemma DeadLettersArrive(cfg: Config, q: QueueConfig)
    requires Agrees(EMPTY, cfg) && q in cfg.queues
    ensures cfg.dlq in DeadLetterRoute(Built(cfg), q.name)
    ensures DeadLetterRoute(Built(cfg), q.name) == {cfg.dlq} <==> cfg.exchange != cfg.dlx
    ensures cfg.exchange == cfg.dlx ==> q.name in DeadLetterRoute(Built(cfg), q.name)
  {
    var u := Built(cfg);
    TopologyOutcome(EMPTY, cfg);
    Topic.HashMatchesAll(q.routingKey);
    Topic.PatternMatchesItself(q.routingKey);
    assert Binding(cfg.dlq, cfg.dlx, "#") in u.bindings;
    assert Binding(q.name, cfg.exchange, q.routingKey) in u.bindings;
  }

  /** Only a name in the configuration, or the DLQ by way of the dead-letter exchange or under its own name, is
      ever routed to. */
  lemma RoutesStayDeclared(cfg: Config, exchange: string, key: string)
    requires Agrees(EMPTY, cfg)
    ensures forall q | q in Route(Built(cfg), exchange, key) :: q in Names(cfg.queues) || q == cfg.dlq
    ensures cfg.exchange != cfg.dlx ==> cfg.dlq !in Route(Built(cfg), cfg.exchange, key)
    ensures forall n :: n in Route(Built(cfg), "", n) <==> n in Names(cfg.queues) || n == cfg.dlq
    ensures forall n, q | q in Route(Built(cfg), "", n) :: q == n
  {
    TopologyOutcome(EMPTY, cfg);
  }
}
