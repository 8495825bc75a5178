/** PostsService under interleaving: `like` and `unlike` read a document, and write all of it back later. */
module PostRuns {
  import opened Wrappers
  import opened Posts

  /** A like or unlike that has read its document and not yet written it back. */
  datatype Pending = Pending(id: string, post: Post)

  /** `likes` is history: who has ever asked to like what. */
  datatype State = State(docs: seq<Post>, pending: map<nat, Pending>, next: nat, likes: set<(string, string)>)

  /** Creation, update and deletion are one database operation each; a like or unlike is two. */
  datatype Step =
    | Atomic(op: Operation)
    | Read(op: Operation)
    | WriteBack(call: nat)

  predicate Enabled(s: State, step: Step) {
    match step
    case Atomic(op) =>
      !op.Like? && !op.Unlike? && (op.Create? ==> Find(s.docs, op.id).None?)
    case Read(op) => op.Like? || op.Unlike?
    case WriteBack(call) => call in s.pending
  }

  /** What a like or unlike will write back for the document it read, if anything. */
  function ToWrite(p: Post, op: Operation): Option<Post>
    requires op.Like? || op.Unlike?
  {
    if op.Unlike? then Some(Unliked(p, op.user))
    else if op.user in p.likedBy then None
    else Some(Liked(p, op.user))
  }

  function Next(s: State, step: Step): State
    requires Enabled(s, step)
  {
    match step
    case Atomic(op) => s.(docs := Applied(s.docs, op).0)
    case Read(op) =>
      var asked := if op.Like? then s.(likes := s.likes + {(op.id, op.user)}) else s;
      var i := Find(s.docs, op.id);
      if i.None? then asked
      else
        var w := ToWrite(s.docs[i.value], op);
        if w.None? then asked
        else asked.(pending := s.pending[s.next := Pending(op.id, w.value)], next := s.next + 1)
    case WriteBack(call) =>
      var p := s.pending[call];
      s.(docs := Replaced(s.docs, p.id, Whole(p.post)).0, pending := s.pending - {call})
  }

  predicate Possible(s: State, steps: seq<Step>)
    decreases |steps|
  {
    steps == [] || (Enabled(s, steps[0]) && Possible(Next(s, steps[0]), steps[1..]))
  }

  function Exec(s: State, steps: seq<Step>): State
    requires Possible(s, steps)
    decreases |steps|
  {
    if steps == [] then s else Exec(Next(s, steps[0]), steps[1..])
  }

  const INITIAL := State([], map[], 0, {})

  // -------------------------------------------------------------------------------------------
  // What survives any interleaving.

  predicate Consistent(p: Post, likes: set<(string, string)>) {
    p.likesCount == |p.likedBy| && NoRepeats(p.likedBy) && forall u | u in p.likedBy :: (p.id, u) in likes
  }

  ghost predicate AllConsistent(s: State) {
    && (forall i | 0 <= i < |s.docs| :: Consistent(s.docs[i], s.likes))
    && (forall c | c in s.pending :: s.pending[c].post.id == s.pending[c].id && Consistent(s.pending[c].post, s.likes))
  }

  /** Data that does not speak of likes. */
  predicate SilentOnLikes(step: Step) {
    step.Atomic? && (step.op.Create? || step.op.Update?) ==> step.op.data.likesCount.None? && step.op.data.likedBy.None?
  }

  lemma AtomicConsistent(s: State, op: Operation)
    requires AllConsistent(s) && Enabled(s, Atomic(op)) && SilentOnLikes(Atomic(op))
    ensures AllConsistent(Next(s, Atomic(op)))
  {
    var docs := Applied(s.docs, op).0;
    forall i | 0 <= i < |docs| ensures Consistent(docs[i], s.likes) {
      if i < |s.docs| { assert Consistent(s.docs[i], s.likes); }
      if !op.Create? && Find(s.docs, op.id).Some? { assert Consistent(s.docs[Find(s.docs, op.id).value], s.likes); }
    }
  }

  lemma StepConsistent(s: State, step: Step)
    requires AllConsistent(s) && Enabled(s, step) && SilentOnLikes(step)
    ensures AllConsistent(Next(s, step))
  {
    if step.Atomic? {
      AtomicConsistent(s, step.op);
    } else if step.Read? && Find(s.docs, step.op.id).Some? {
      var p := s.docs[Find(s.docs, step.op.id).value];
      assert Consistent(p, s.likes);
      RemovedMeans(p.likedBy, step.op.user);
    }
  }

  lemma {:induction false} RunConsistent(s: State, steps: seq<Step>)
    requires AllConsistent(s) && Possible(s, steps) && forall i | 0 <= i < |steps| :: SilentOnLikes(steps[i])
    ensures AllConsistent(Exec(s, steps))
    decreases |steps|
  {
    if steps != [] {
      StepConsistent(s, steps[0]);
      RunConsistent(Next(s, steps[0]), steps[1..]);
    }
  }

  /** Whatever is in flight, every stored post and every document about to be written back counts its likers
      right, lists none twice, and lists only users who asked to like it, as long as no creation or update sets
      the likes itself. */
  lemma LikesStayConsistent(steps: seq<Step>)
    requires Possible(INITIAL, steps) && forall i | 0 <= i < |steps| :: SilentOnLikes(steps[i])
    ensures AllConsistent(Exec(INITIAL, steps))
  {
    RunConsistent(INITIAL, steps);
  }

  // -------------------------------------------------------------------------------------------
  // What does not survive, exactly.

  /** Things a request has made true of a post. */
  datatype Fact = IsDeleted | IsLikedBy(user: string) | IsNotLikedBy(user: string)

  predicate Holds(f: Fact, p: Post) {
    match f
    case IsDeleted => p.deletedAt.Some?
    case IsLikedBy(user) => user in p.likedBy
    case IsNotLikedBy(user) => user !in p.likedBy
  }

  /** The requests that take the fact back. */
  predicate Undoes(f: Fact, id: string, step: Step) {
    if step.Atomic? && step.op.Update? && step.op.id == id then
      var data := step.op.data;
      match f
      case IsDeleted => data.deletedAt == Some(None)
      case IsLikedBy(user) => data.likedBy.Some? && user !in data.likedBy.value
      case IsNotLikedBy(user) => data.likedBy.Some? && user in data.likedBy.value
    else match f
      case IsDeleted => false
      case IsLikedBy(user) => step == Read(Unlike(id, user))
      case IsNotLikedBy(user) => step == Read(Like(id, user))
  }

  ghost predicate Stands(s: State, id: string, f: Fact) {
    && Find(s.docs, id).Some? && Holds(f, s.docs[Find(s.docs, id).value])
    && s.docs[Find(s.docs, id).value].id == id
  }

  /** The fact stays true of the post in every run in which nobody takes it back. */
  ghost predicate Lasts(s: State, id: string, f: Fact) {
    forall steps | Possible(s, steps) && (forall i | 0 <= i < |steps| :: !Undoes(f, id, steps[i])) ::
      Stands(Exec(s, steps), id, f)
  }

  /** Every write already under way for the post also makes the fact true. */
  ghost predicate NoStaleWrite(s: State, id: string, f: Fact) {
    forall c | c in s.pending && s.pending[c].id == id :: Holds(f, s.pending[c].post)
  }

  ghost predicate WellNamed(s: State) {
    forall c | c in s.pending :: s.pending[c].post.id == s.pending[c].id
  }

  /** A step leaves the fact true of the stored post, or writes back a document. */
  lemma PostAfter(s: State, step: Step, id: string, f: Fact)
    requires WellNamed(s) && Enabled(s, step) && !Undoes(f, id, step) && Stands(s, id, f)
    ensures Find(Next(s, step).docs, id) == Find(s.docs, id)
    ensures var q := Next(s, step).docs[Find(s.docs, id).value];
            || (q.id == id && Holds(f, q))
            || (step.WriteBack? && s.pending[step.call].id == id && q == s.pending[step.call].post)
  {
    match step {
      case Atomic(op) => AppliedToPost(s.docs, op, id);
      case Read(_) =>
      case WriteBack(call) =>
        var p := s.pending[call];
        var i := Find(s.docs, p.id);
        if i.Some? { FindReplace(s.docs, i.value, p.post, id); }
    }
  }

  /** A like or unlike that reads the fact writes it back, unless it is the request that undoes it. */
  lemma ReadCarries(p: Post, op: Operation, id: string, f: Fact)
    requires (op.Like? || op.Unlike?) && op.id == id && !Undoes(f, id, Read(op)) && Holds(f, p)
    ensures ToWrite(p, op).Some? ==> Holds(f, ToWrite(p, op).value) && ToWrite(p, op).value.id == p.id
  {
    RemovedMeans(p.likedBy, op.user);
  }

  lemma PendingStep(s: State, step: Step, id: string, f: Fact)
    requires WellNamed(s) && Enabled(s, step) && !Undoes(f, id, step)
    requires Stands(s, id, f) && NoStaleWrite(s, id, f)
    ensures NoStaleWrite(Next(s, step), id, f) && WellNamed(Next(s, step))
  {
    if step.Read? && step.op.id == id {
      ReadCarries(s.docs[Find(s.docs, id).value], step.op, id, f);
    }
  }

  lemma FactStep(s: State, step: Step, id: string, f: Fact)
    requires WellNamed(s) && Enabled(s, step) && !Undoes(f, id, step)
    requires Stands(s, id, f) && NoStaleWrite(s, id, f)
    ensures Stands(Next(s, step), id, f) && NoStaleWrite(Next(s, step), id, f) && WellNamed(Next(s, step))
  {
    PostAfter(s, step, id, f);
    PendingStep(s, step, id, f);
  }

  lemma {:induction false} FactRun(s: State, steps: seq<Step>, id: string, f: Fact)
    requires WellNamed(s) && Possible(s, steps) && forall i | 0 <= i < |steps| :: !Undoes(f, id, steps[i])
    requires Stands(s, id, f) && NoStaleWrite(s, id, f)
    ensures Stands(Exec(s, steps), id, f)
    decreases |steps|
  {
    if steps != [] {
      FactStep(s, steps[0], id, f);
      FactRun(Next(s, steps[0]), steps[1..], id, f);
    }
  }

  /** A deletion, a like or an unlike lasts, until someone asks otherwise, exactly when no like or unlike of the
      post that read it before is still to write back a document in which it has not happened. */
  lemma LastsExactlyWithoutStaleWrites(s: State, id: string, f: Fact)
    requires WellNamed(s) && Stands(s, id, f)
    ensures Lasts(s, id, f) <==> NoStaleWrite(s, id, f)
  {
    if NoStaleWrite(s, id, f) {
      forall steps | Possible(s, steps) && (forall i | 0 <= i < |steps| :: !Undoes(f, id, steps[i]))
        ensures Stands(Exec(s, steps), id, f)
      {
        FactRun(s, steps, id, f);
      }
    } else {
      var c :| c in s.pending && s.pending[c].id == id && !Holds(f, s.pending[c].post);
      var steps := [WriteBack(c)];
      var s' := Next(s, WriteBack(c));
      assert Possible(s', steps[1..]) && Exec(s, steps) == s';
      FindReplace(s.docs, Find(s.docs, id).value, s.pending[c].post, id);
      assert !Stands(s', id, f);
    }
  }

  /** The simplest loss: two users like a post at once, and one of them is not among its likers. */
  lemma LikeLost(p: Post, u: string, v: string)
    requires u != v && u !in p.likedBy && v !in p.likedBy
    ensures var s := State([p], map[], 0, {});
            var steps := [Read(Like(p.id, u)), Read(Like(p.id, v)), WriteBack(0), WriteBack(1)];
            Possible(s, steps) && Exec(s, steps).docs == [Liked(p, v)] && u !in Liked(p, v).likedBy
  {
    var s := State([p], map[], 0, {});
    var s1 := Next(s, Read(Like(p.id, u)));
    var s2 := Next(s1, Read(Like(p.id, v)));
    var s3 := Next(s2, WriteBack(0));
    var s4 := Next(s3, WriteBack(1));
    var steps := [Read(Like(p.id, u)), Read(Like(p.id, v)), WriteBack(0), WriteBack(1)];
    assert steps[1..][1..][1..][1..] == [];
    assert steps[1..][1..][1..] == [WriteBack(1)];
    assert steps[1..][1..] == [WriteBack(0), WriteBack(1)];
    assert Exec(s4, []) == s4;
    assert Possible(s3, steps[1..][1..][1..]) && Exec(s3, steps[1..][1..][1..]) == s4;
    assert Possible(s2, steps[1..][1..]) && Exec(s2, steps[1..][1..]) == s4;
    assert Possible(s1, steps[1..]) && Exec(s1, steps[1..]) == s4;
  }

  /** And the simplest revival: a post is deleted while a like of it is in flight, and is back. */
  lemma DeletionUndone(p: Post, u: string, at: int)
    requires u !in p.likedBy && p.deletedAt.None?
    ensures var s := State([p], map[], 0, {});
            var steps := [Read(Like(p.id, u)), Atomic(Delete(p.id, at)), WriteBack(0)];
            Possible(s, steps) && Exec(s, steps).docs == [Liked(p, u)] && Liked(p, u).deletedAt.None?
  {
    var s := State([p], map[], 0, {});
    var s1 := Next(s, Read(Like(p.id, u)));
    var s2 := Next(s1, Atomic(Delete(p.id, at)));
    var s3 := Next(s2, WriteBack(0));
    var steps := [Read(Like(p.id, u)), Atomic(Delete(p.id, at)), WriteBack(0)];
    assert steps[1..][1..][1..] == [];
    assert steps[1..][1..] == [WriteBack(0)];
    assert Exec(s3, []) == s3;
    assert Possible(s2, steps[1..][1..]) && Exec(s2, steps[1..][1..]) == s3;
    assert Possible(s1, steps[1..]) && Exec(s1, steps[1..]) == s3;
  }

  // -------------------------------------------------------------------------------------------
  // A like or unlike with nothing in between is the service's operation.

  lemma SerialCall(s: State, op: Operation)
    requires op.Like? || op.Unlike?
    requires forall c | c in s.pending :: c < s.next
    ensures var s1 := Next(s, Read(op));
            if s.next in s1.pending then Next(s1, WriteBack(s.next)).docs == Applied(s.docs, op).0
            else s1.docs == s.docs == Applied(s.docs, op).0
  {
    var i := Find(s.docs, op.id);
    if i.Some? && op.Like? && op.user in s.docs[i.value].likedBy {
      assert s.docs[i.value := s.docs[i.value]] == s.docs;
    }
  }
}
