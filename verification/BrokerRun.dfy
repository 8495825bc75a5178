/** A broker with the declared topology, and any number of consumers on channels of their own, as a transition
    system. Any ready copy may be delivered, to any channel; the commands of one channel reach the broker in
    order; a channel can die with any number of its commands still unsent. */
module BrokerRun {
  import opened Wrappers
  import opened Topology
  import opened Consumer

  /** How a consumer settles: `consumeWithRetry`, or the notification consumer. */
  datatype Policy = Retry(maxAttempts: int) | Requeue

  datatype World = World(cfg: Config, policy: Policy)

  /** What the run theorems ask of the configuration: `assertTopology` accepts it on a fresh broker, and dead
      letters have an exchange of their own. */
  predicate Sound(w: World) {
    Agrees(EMPTY, w.cfg) && w.cfg.exchange != w.cfg.dlx
  }

  /** Where a consumer is with a delivery: its handler has not returned; or it has, and these commands are on
      their way: republish and ack, ack of a republished delivery, ack, nack, nack with requeue. */
  datatype Phase = Running | Failed | Republished | Succeeded | Rejected | Returned

  datatype Place = Ready | Held(channel: nat, phase: Phase)

  /** A copy of a message in one queue. Its lineage is the copies it descends from, itself included; its root
      is the oldest of them. */
  datatype Copy = Copy(message: Message, place: Place, lineage: set<Tag>, root: Tag)

  datatype Exit = Acked | DeadLettered | Expired

  /** `live` and `outbox` are the broker's queues and the channels; the rest is history:
      every copy ever enqueued, those with a completed handler run on them or a descendant of theirs, how
      copies left their queue, the copies a publisher's message was first enqueued as, the failed handler
      runs each of those led to, those whose handling was acknowledged, and what was published, by serial number. */
  datatype State = State(
    serial: nat,
    live: map<Tag, Copy>,
    outbox: map<nat, seq<Command>>,
    accepted: set<Tag>,
    served: set<Tag>,
    left: map<Tag, Exit>,
    roots: set<Tag>,
    failures: map<Tag, nat>,
    finished: set<Tag>,
    published: map<nat, Message>)

  const INITIAL := State(0, map[], map[], {}, {}, map[], {}, map[], {}, map[])

  datatype Step =
    | Publish(message: Message)
    | Deliver(tag: Tag, channel: nat)
    | Handle(tag: Tag, ok: bool)
    | Apply(channel: nat)
    | Expire(tag: Tag)
    | Crash(channel: nat)

  function Out(s: State, ch: nat): seq<Command> {
    if ch in s.outbox then s.outbox[ch] else []
  }

  function Failures(s: State, root: Tag): nat {
    if root in s.failures then s.failures[root] else 0
  }

  function Targets(w: World, m: Message): set<string> {
    Route(Built(w.cfg), m.exchange, m.key)
  }

  predicate Working(w: World, t: Tag) {
    t.queue in Names(w.cfg.queues)
  }

  /** What publishers send: through the main exchange, or straight to a queue by its name, as the client of the
      users' events does; not to the DLQ. */
  predicate Ours(w: World, m: Message) {
    m.exchange == w.cfg.exchange || (m.exchange == DEFAULT_EXCHANGE && m.key != w.cfg.dlq)
  }

  // -------------------------------------------------------------------------------------------
  // Steps.

  predicate Enabled(w: World, s: State, step: Step) {
    match step
    case Publish(m) => Ours(w, m)
    case Deliver(t, _) => t in s.live && s.live[t].place.Ready? && Working(w, t)
    case Handle(t, _) => t in s.live && In(s.live[t], Running)
    case Apply(ch) => Out(s, ch) != []
    case Expire(t) => t in s.live && s.live[t].place.Ready? && s.live[t].message.properties.expiration.Some?
    case Crash(_) => true
  }

  function Tags(serial: nat, queues: set<string>): set<Tag> {
    set q | q in queues :: Tag(serial, q)
  }

  function Fresh(w: World, s: State, m: Message, lineage: set<Tag>, root: Option<Tag>): map<Tag, Copy> {
    map t | t in Tags(s.serial, Targets(w, m)) ::
      Copy(m, Ready, lineage + {t}, if root.Some? then root.value else t)
  }

  /** The broker takes a message in: one copy to every queue it is routed to. */
  function Enqueue(w: World, s: State, m: Message, lineage: set<Tag>, root: Option<Tag>): State {
    var copies := Fresh(w, s, m, lineage, root);
    s.(serial := s.serial + 1,
       live := s.live + copies,
       accepted := s.accepted + copies.Keys,
       roots := if root.None? then s.roots + copies.Keys else s.roots,
       published := if root.None? then s.published[s.serial := m] else s.published)
  }

  function Move(s: State, t: Tag, place: Place): State
    requires t in s.live
  {
    s.(live := s.live[t := s.live[t].(place := place)])
  }

  function Leave(s: State, t: Tag, exit: Exit): State {
    s.(live := s.live - {t}, left := s.left[t := exit])
  }

  /** A dead-lettered message is published to the queue's dead-letter exchange, its expiration removed. */
  function DeadLettering(w: World, s: State, t: Tag, exit: Exit): State
    requires t in s.live
  {
    var c, queues := s.live[t], Built(w.cfg).queues;
    if t.queue in queues && queues[t.queue].deadLetter.Some? then
      var dl := queues[t.queue].deadLetter.value;
      Enqueue(w, Leave(s, t, exit),
              Message(dl.exchange, dl.key, c.message.content, c.message.properties.(expiration := None)),
              c.lineage, Some(c.root))
    else
      Leave(s, t, exit)
  }

  function Settlement(policy: Policy, d: Delivery, ok: bool): seq<Command> {
    match policy
    case Retry(max) => RetrySettlement(d, ok, max)
    case Requeue => RequeueSettlement(d, ok)
  }

  function PhaseAfter(policy: Policy, m: Message, ok: bool): Phase {
    if ok then Succeeded
    else match policy
      case Retry(max) => if Exhausted(Attempt(m), max) then Rejected else Failed
      case Requeue => Returned
  }

  predicate In(c: Copy, phase: Phase) {
    c.place.Held? && c.place.phase == phase
  }

  /** The broker carries out one command. */
  function Perform(w: World, s: State, c: Command): State {
    match c
    case Publish(cause, m) =>
      if cause.Some? && cause.value in s.live && s.live[cause.value].place.Held? then
        var t := cause.value;
        Enqueue(w, Move(s, t, Held(s.live[t].place.channel, Republished)), m, s.live[t].lineage, Some(s.live[t].root))
      else
        Enqueue(w, s, m, {}, None)
    case Ack(t) =>
      if t in s.live then
        Leave(s, t, Acked).(finished := if In(s.live[t], Succeeded) then s.finished + {s.live[t].root} else s.finished)
      else s
    case Nack(t, requeue) =>
      if t !in s.live then s
      else if requeue then Move(s, t, Ready)
      else DeadLettering(w, s, t, DeadLettered)
  }

  function Released(live: map<Tag, Copy>, ch: nat): map<Tag, Copy> {
    map t | t in live :: if live[t].place.Held? && live[t].place.channel == ch then live[t].(place := Ready) else live[t]
  }

  function Next(w: World, s: State, step: Step): State
    requires Enabled(w, s, step)
  {
    match step
    case Publish(m) => Enqueue(w, s, m, {}, None)
    case Deliver(t, ch) => Move(s, t, Held(ch, Running))
    case Handle(t, ok) =>
      var c := s.live[t];
      var ch := c.place.channel;
      Move(s, t, Held(ch, PhaseAfter(w.policy, c.message, ok)))
        .(outbox := s.outbox[ch := Out(s, ch) + Settlement(w.policy, Delivery(t, c.message), ok)],
          served := if ok then s.served + c.lineage else s.served,
          failures := if ok then s.failures else s.failures[c.root := Failures(s, c.root) + 1])
    case Apply(ch) => Perform(w, s.(outbox := s.outbox[ch := Out(s, ch)[1..]]), Out(s, ch)[0])
    case Expire(t) => DeadLettering(w, s, t, Expired)
    case Crash(ch) => s.(outbox := s.outbox - {ch}, live := Released(s.live, ch))
  }

  // -------------------------------------------------------------------------------------------
  // Runs.

  predicate Possible(w: World, s: State, steps: seq<Step>)
    decreases |steps|
  {
    steps == [] || (Enabled(w, s, steps[0]) && Possible(w, Next(w, s, steps[0]), steps[1..]))
  }

  function Exec(w: World, s: State, steps: seq<Step>): State
    requires Possible(w, s, steps)
    decreases |steps|
  {
    if steps == [] then s else Exec(w, Next(w, s, steps[0]), steps[1..])
  }

  // -------------------------------------------------------------------------------------------
  // The invariant of every run.

  function TagOf(c: Command): Option<Tag> {
    match c
    case Publish(cause, _) => cause
    case Ack(t) => Some(t)
    case Nack(t, _) => Some(t)
  }

  /** The commands of a channel that settle delivery `t`. */
  function For(cs: seq<Command>, t: Tag): seq<Command> {
    if cs == [] then []
    else if TagOf(cs[0]) == Some(t) then [cs[0]] + For(cs[1..], t)
    else For(cs[1..], t)
  }

  /** The commands still to come, by phase. */
  function Due(t: Tag, c: Copy): seq<Command> {
    if c.place.Ready? then []
    else match c.place.phase
      case Running => []
      case Failed => [Command.Publish(Some(t), Retried(c.message)), Ack(t)]
      case Republished => [Ack(t)]
      case Succeeded => [Ack(t)]
      case Rejected => [Nack(t, false)]
      case Returned => [Nack(t, true)]
  }

  function DueOn(s: State, ch: nat, t: Tag): seq<Command> {
    if t in s.live && s.live[t].place.Held? && s.live[t].place.channel == ch then Due(t, s.live[t]) else []
  }

  ghost predicate OutboxesFit(s: State) {
    && (forall ch: nat, t: Tag :: For(Out(s, ch), t) == DueOn(s, ch, t))
    && (forall ch: nat, i: nat | i < |Out(s, ch)| :: TagOf(Out(s, ch)[i]).Some?)
  }

  predicate Placed(w: World, t: Tag, c: Copy) {
    if Working(w, t) then
      && Ours(w, c.message)
      && t.queue in Targets(w, c.message)
      && (c.place.Held? ==> match w.policy
          case Retry(max) =>
            && !c.place.phase.Returned?
            && (c.place.phase in {Failed, Republished} ==> !Exhausted(Attempt(c.message), max))
            && (c.place.phase.Rejected? ==> Exhausted(Attempt(c.message), max))
          case Requeue => c.place.phase in {Running, Succeeded, Returned})
    else
      t.queue == w.cfg.dlq && c.place.Ready? && c.message.properties.expiration.None?
  }

  predicate CopyFits(w: World, s: State, t: Tag, c: Copy) {
    && Placed(w, t, c)
    && t in c.lineage
    && c.lineage <= s.accepted
    && (In(c, Succeeded) ==> c.lineage <= s.served)
  }

  ghost predicate CopiesFit(w: World, s: State) {
    forall t | t in s.live :: CopyFits(w, s, t, s.live[t])
  }

  /** Every copy ever enqueued is still live or has left, not both. */
  ghost predicate BooksBalance(s: State) {
    && (forall t | t in s.accepted :: t.serial < s.serial)
    && s.accepted == s.live.Keys + s.left.Keys
    && s.live.Keys !! s.left.Keys
  }

  /** A copy that stands for its lineage: its republication, if any, is not yet with the broker. */
  predicate Stands(c: Copy) {
    !In(c, Republished)
  }

  /** A completed handler run on the copy or a descendant, or a descendant ready, unacknowledged or in the DLQ. */
  ghost predicate Safe(s: State, a: Tag) {
    a in s.served || exists t | t in s.live :: a in s.live[t].lineage && Stands(s.live[t])
  }

  ghost predicate NothingLost(s: State) {
    forall a | a in s.accepted :: Safe(s, a)
  }

  ghost predicate Invariant(w: World, s: State) {
    CopiesFit(w, s) && OutboxesFit(s) && BooksBalance(s) && NothingLost(s)
  }
}
