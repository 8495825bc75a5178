/** Posts and the operations of PostsService on their collection, one at a time. */
module Posts {
  import opened Wrappers

  datatype Post = Post(
    id: string,
    userId: string,
    title: string,
    content: string,
    images: seq<string>,
    tags: seq<string>,
    status: string,
    likesCount: int,
    likedBy: seq<string>,
    deletedAt: Option<int>,
    createdAt: int)

  /** What the data of a creation or an update may set; what is absent is left alone. The service passes on
      whatever it is given, so this is every field of the schema, and `deletedAt` may be set to null. */
  datatype Fields = Fields(
    userId: Option<string>,
    title: Option<string>,
    content: Option<string>,
    images: Option<seq<string>>,
    tags: Option<seq<string>>,
    status: Option<string>,
    likesCount: Option<int>,
    likedBy: Option<seq<string>>,
    deletedAt: Option<Option<int>>)

  /** The fields the controller declares for a creation and for an update. */
  predicate Declared(c: Fields) {
    c.userId.None? && c.likesCount.None? && c.likedBy.None? && c.deletedAt.None?
  }

  function Or<T>(o: Option<T>, otherwise: T): T {
    if o.Some? then o.value else otherwise
  }

  function Updated(p: Post, c: Fields): Post {
    p.(userId := Or(c.userId, p.userId),
       title := Or(c.title, p.title),
       content := Or(c.content, p.content),
       images := Or(c.images, p.images),
       tags := Or(c.tags, p.tags),
       status := Or(c.status, p.status),
       likesCount := Or(c.likesCount, p.likesCount),
       likedBy := Or(c.likedBy, p.likedBy),
       deletedAt := Or(c.deletedAt, p.deletedAt))
  }

  /** A new document: the data over the given user, over the schema's defaults. */
  function Drafted(userId: string, data: Fields, id: string, now: int): Post {
    Updated(Post(id, userId, "", "", [], [], "draft", 0, [], None, now), data)
  }

  /** What saving a new document checks; updates are not checked. */
  predicate Savable(p: Post) {
    p.userId != "" && p.title != "" && p.content != "" && p.status in {"draft", "published", "archived"}
  }

  function Removed(users: seq<string>, user: string): seq<string> {
    if users == [] then []
    else (if users[0] == user then [] else [users[0]]) + Removed(users[1..], user)
  }

  /** The document `like` has in hand after its read. */
  function Liked(p: Post, user: string): Post {
    if user in p.likedBy then p else p.(likedBy := p.likedBy + [user], likesCount := |p.likedBy| + 1)
  }

  function Unliked(p: Post, user: string): Post {
    var left := Removed(p.likedBy, user);
    p.(likedBy := left, likesCount := |left|)
  }

  // -------------------------------------------------------------------------------------------
  // The collection.

  /** The document with this id, if there is one. */
  function Find(docs: seq<Post>, id: string): (i: Option<nat>)
    ensures i.Some? ==> i.value < |docs| && docs[i.value].id == id
    ensures i.None? ==> forall j | 0 <= j < |docs| :: docs[j].id != id
  {
    if docs == [] then None
    else if docs[0].id == id then Some(0)
    else
      var i := Find(docs[1..], id);
      if i.Some? then Some(i.value + 1) else None
  }

  predicate UniqueIds(docs: seq<Post>) {
    forall i, j | 0 <= i < j < |docs| :: docs[i].id != docs[j].id
  }

  datatype Result = Found(post: Post) | NotFound | Invalid

  /** What `findOneAndUpdate` is given: some fields, a deletion time, or a whole document. */
  datatype UpdateQuery = Set(fields: Fields) | DeletedAt(at: int) | Whole(post: Post)

  function Patched(p: Post, u: UpdateQuery): Post {
    match u
    case Set(c) => Updated(p, c)
    case DeletedAt(at) => p.(deletedAt := Some(at))
    case Whole(post) => post
  }

  /** `findOneAndUpdate` by id, and what it resolves or rejects with. */
  function Replaced(docs: seq<Post>, id: string, u: UpdateQuery): (seq<Post>, Result) {
    var i := Find(docs, id);
    if i.Some? then (docs[i.value := Patched(docs[i.value], u)], Found(Patched(docs[i.value], u))) else (docs, NotFound)
  }

  // -------------------------------------------------------------------------------------------
  // The service.

  datatype Operation =
    | Create(userId: string, data: Fields, id: string, now: int)
    | Update(id: string, data: Fields)
    | Delete(id: string, at: int)
    | Like(id: string, user: string)
    | Unlike(id: string, user: string)

  function Applied(docs: seq<Post>, op: Operation): (seq<Post>, Result) {
    match op
    case Create(userId, data, id, now) =>
      var p := Drafted(userId, data, id, now);
      if Savable(p) then (docs + [p], Found(p)) else (docs, Invalid)
    case Update(id, data) => Replaced(docs, id, Set(data))
    case Delete(id, at) => Replaced(docs, id, DeletedAt(at))
    case Like(id, user) =>
      var i := Find(docs, id);
      if i.None? then (docs, NotFound) else Replaced(docs, id, Whole(Liked(docs[i.value], user)))
    case Unlike(id, user) =>
      var i := Find(docs, id);
      if i.None? then (docs, NotFound) else Replaced(docs, id, Whole(Unliked(docs[i.value], user)))
  }

  /** The store operations of AbstractRepository that PostsService uses. */
  class PostsRepository {
    var docs: seq<Post>

    method FindById(id: string) returns (r: Result)
      ensures r == var i := Find(docs, id); if i.Some? then Found(docs[i.value]) else NotFound
    {
      var i := Find(docs, id);
      r := if i.Some? then Found(docs[i.value]) else NotFound;
    }

    method FindOneAndUpdate(id: string, u: UpdateQuery) returns (r: Result)
      modifies this
      ensures (docs, r) == Replaced(old(docs), id, u)
    {
      var i := Find(docs, id);
      if i.None? { return NotFound; }
      docs := docs[i.value := Patched(docs[i.value], u)];
      r := Found(docs[i.value]);
    }

    method SoftDelete(id: string, now: int) returns (r: Result)
      modifies this
      ensures (docs, r) == Replaced(old(docs), id, DeletedAt(now))
    {
      r := FindOneAndUpdate(id, DeletedAt(now));
    }

    method Create(post: Post) returns (r: Result)
      modifies this
      ensures docs == if Savable(post) then old(docs) + [post] else old(docs)
      ensures r == if Savable(post) then Found(post) else Invalid
    {
      if !Savable(post) { return Invalid; }
      docs := docs + [post];
      r := Found(post);
    }
  }

  class PostsService {
    const repository: PostsRepository

    constructor (repository: PostsRepository)
      ensures this.repository == repository
    {
      this.repository := repository;
    }

    /** The id and the creation time come from the database. */
    method Create(userId: string, data: Fields, id: string, now: int) returns (r: Result)
      modifies repository
      ensures (repository.docs, r) == Applied(old(repository.docs), Operation.Create(userId, data, id, now))
    {
      r := repository.Create(Drafted(userId, data, id, now));
    }

    method Update(id: string, data: Fields) returns (r: Result)
      modifies repository
      ensures (repository.docs, r) == Applied(old(repository.docs), Operation.Update(id, data))
    {
      r := repository.FindOneAndUpdate(id, Set(data));
    }

    method Delete(id: string, now: int) returns (r: Result)
      modifies repository
      ensures (repository.docs, r) == Applied(old(repository.docs), Operation.Delete(id, now))
    {
      r := repository.SoftDelete(id, now);
    }

    method Like(id: string, user: string) returns (r: Result)
      modifies repository
      ensures (repository.docs, r) == Applied(old(repository.docs), Operation.Like(id, user))
    {
      r := repository.FindById(id);
      if r.NotFound? { return; }
      var post := r.post;
      ghost var i := Find(repository.docs, id).value;
      assert repository.docs[i := post] == repository.docs;
      if user !in post.likedBy {
        post := post.(likedBy := post.likedBy + [user]);
        post := post.(likesCount := |post.likedBy|);
        r := repository.FindOneAndUpdate(id, Whole(post));
      }
    }

    method Unlike(id: string, user: string) returns (r: Result)
      modifies repository
      ensures (repository.docs, r) == Applied(old(repository.docs), Operation.Unlike(id, user))
    {
      r := repository.FindById(id);
      if r.NotFound? { return; }
      var post := r.post;
      post := post.(likedBy := Removed(post.likedBy, user));
      post := post.(likesCount := |post.likedBy|);
      r := repository.FindOneAndUpdate(id, Whole(post));
    }
  }

  // -------------------------------------------------------------------------------------------
  // Likes, one operation after another, are a set.

  predicate NoRepeats(users: seq<string>) {
    forall i, j | 0 <= i < j < |users| :: users[i] != users[j]
  }

  lemma {:induction false} RemovedMeans(users: seq<string>, user: string)
    ensures forall u :: u in Removed(users, user) <==> u in users && u != user
    ensures NoRepeats(users) ==> NoRepeats(Removed(users, user))
  {
    if users != [] {
      var rest := users[1..];
      RemovedMeans(rest, user);
      assert forall u :: u in users <==> u == users[0] || u in rest;
      if NoRepeats(users) {
        assert forall i | 0 <= i < |rest| :: rest[i] == users[i + 1];
        assert NoRepeats(rest) && users[0] !in rest;
      }
    }
  }

  /** Whether a user is left a liker: by that user's last like or unlike, or by an update that sets the likers, or
      else as at first. */
  predicate LeftLiking(ops: seq<Operation>, id: string, user: string, atFirst: bool) {
    if ops == [] then atFirst
    else
      var last := ops[|ops| - 1];
      if last == Like(id, user) then true
      else if last == Unlike(id, user) then false
      else if last.Update? && last.id == id && last.data.likedBy.Some? then user in last.data.likedBy.value
      else LeftLiking(ops[..|ops| - 1], id, user, atFirst)
  }

  function Run(docs: seq<Post>, ops: seq<Operation>): seq<Post> {
    if ops == [] then docs else Applied(Run(docs, ops[..|ops| - 1]), ops[|ops| - 1]).0
  }

  /** Ids are the database's: nothing is created twice. */
  predicate CreatesNew(ops: seq<Operation>, id: string) {
    forall i | 0 <= i < |ops| && ops[i].Create? :: ops[i].id != id
  }

  /** The document with this id keeps its place and its id. */
  lemma AppliedKeepsPlace(docs: seq<Post>, op: Operation, id: string)
    requires Find(docs, id).Some? && (op.Create? ==> op.id != id)
    ensures Find(Applied(docs, op).0, id) == Find(docs, id)
  {
    if op.Create? {
      FindAppend(docs, Drafted(op.userId, op.data, op.id, op.now), id);
    } else {
      var i := Find(docs, op.id);
      if i.Some? { FindReplace(docs, i.value, Applied(docs, op).0[i.value], id); }
    }
  }

  lemma {:induction false} FindAppend(docs: seq<Post>, p: Post, id: string)
    requires Find(docs, id).Some?
    ensures Find(docs + [p], id) == Find(docs, id)
  {
    if docs[0].id != id {
      assert (docs + [p])[1..] == docs[1..] + [p];
      FindAppend(docs[1..], p, id);
    }
  }

  lemma {:induction false} FindReplace(docs: seq<Post>, i: nat, p: Post, id: string)
    requires i < |docs| && p.id == docs[i].id
    ensures Find(docs[i := p], id) == Find(docs, id)
  {
    if i > 0 {
      assert docs[i := p][1..] == docs[1..][i - 1 := p];
      FindReplace(docs[1..], i - 1, p, id);
    } else {
      assert docs[i := p][1..] == docs[1..];
    }
  }

  /** What one operation makes of post `id`. */
  function Becomes(p: Post, op: Operation, id: string): Post {
    if op.id != id then p
    else match op
      case Create(_, _, _, _) => p
      case Update(_, data) => Updated(p, data)
      case Delete(_, at) => p.(deletedAt := Some(at))
      case Like(_, user) => Liked(p, user)
      case Unlike(_, user) => Unliked(p, user)
  }

  /** The document with this id becomes that, and stays where it is. */
  lemma AppliedToPost(docs: seq<Post>, op: Operation, id: string)
    requires Find(docs, id).Some? && (op.Create? ==> op.id != id)
    ensures Find(Applied(docs, op).0, id) == Find(docs, id)
    ensures var i := Find(docs, id).value; Applied(docs, op).0[i] == Becomes(docs[i], op, id)
  {
    AppliedKeepsPlace(docs, op, id);
    if !op.Create? { OnlyOneChanges(docs, op, id); }
  }

  lemma OnlyOneChanges(docs: seq<Post>, op: Operation, id: string)
    requires Find(docs, id).Some? && !op.Create?
    ensures var i := Find(docs, id).value; Applied(docs, op).0[i] == Becomes(docs[i], op, id)
  {
  }

  predicate CountsLikers(p: Post) {
    p.likesCount == |p.likedBy| && NoRepeats(p.likedBy)
  }

  /** Data that leaves a right count right, whatever the post. */
  predicate KeepsCount(data: Fields) {
    if data.likesCount.Some? && data.likedBy.Some? then
      data.likesCount.value == |data.likedBy.value| && NoRepeats(data.likedBy.value)
    else data.likesCount.None? && data.likedBy.None?
  }

  /** Exactly that: any other data makes the count of some post wrong. */
  lemma CountKeptExactly(data: Fields)
    ensures (forall p | CountsLikers(p) :: CountsLikers(Updated(p, data))) <==> KeepsCount(data)
  {
    var nobody := Post("", "", "", "", [], [], "", 0, [], None, 0);
    var one := Post("", "", "", "", [], [], "", 1, [""], None, 0);
    assert CountsLikers(nobody) && CountsLikers(one);
    if !KeepsCount(data) {
      assert !CountsLikers(Updated(nobody, data)) || !CountsLikers(Updated(one, data));
    }
  }

  predicate CountKept(ops: seq<Operation>, id: string) {
    forall i | 0 <= i < |ops| && ops[i].Update? && ops[i].id == id :: KeepsCount(ops[i].data)
  }

  lemma LikersAfter(p: Post, op: Operation, id: string, user: string)
    ensures user in Becomes(p, op, id).likedBy <==> LeftLiking([op], id, user, user in p.likedBy)
    ensures CountsLikers(p) && CountKept([op], id) ==> CountsLikers(Becomes(p, op, id))
  {
    assert LeftLiking([op][..0], id, user, user in p.likedBy) == (user in p.likedBy);
    assert CountKept([op], id) && op.Update? && op.id == id ==> KeepsCount([op][0].data);
    if op.Unlike? {
      RemovedMeans(p.likedBy, op.user);
    }
  }

  lemma LikingStep(ops: seq<Operation>, id: string, user: string, atFirst: bool)
    requires ops != []
    ensures var n := |ops| - 1;
            LeftLiking(ops, id, user, atFirst) == LeftLiking([ops[n]], id, user, LeftLiking(ops[..n], id, user, atFirst))
  {
    assert [ops[|ops| - 1]][..0] == [];
  }

  /** Over any serial run, whatever its updates set, a user is among a post's likers exactly when the last thing
      said about that was that they are; and, if its updates keep counts right, the counter is the number of
      likers, each listed once. */
  lemma {:induction false} LikesAreASet(docs: seq<Post>, ops: seq<Operation>, id: string, user: string)
    requires Find(docs, id).Some? && CreatesNew(ops, id)
    ensures var i := Find(docs, id);
            && Find(Run(docs, ops), id) == i
            && var p, first := Run(docs, ops)[i.value], docs[i.value];
               && (user in p.likedBy <==> LeftLiking(ops, id, user, user in first.likedBy))
               && (CountsLikers(first) && CountKept(ops, id) ==>
                     CountsLikers(p) && p.likesCount == |set u | u in p.likedBy|)
    decreases |ops|
  {
    var i := Find(docs, id);
    if ops != [] {
      var n := |ops| - 1;
      var before := Run(docs, ops[..n]);
      LikesAreASet(docs, ops[..n], id, user);
      AppliedToPost(before, ops[n], id);
      LikersAfter(before[i.value], ops[n], id, user);
      LikingStep(ops, id, user, user in docs[i.value].likedBy);
      assert CountKept(ops, id) ==> CountKept(ops[..n], id) && CountKept([ops[n]], id);
    }
    var p := Run(docs, ops)[i.value];
    if CountsLikers(p) { SizeOfSet(p.likedBy); }
  }

  lemma {:induction false} SizeOfSet(users: seq<string>)
    requires NoRepeats(users)
    ensures |set u | u in users| == |users|
  {
    if users == [] {
      assert (set u | u in users) == {};
    } else {
      SizeOfSet(users[1..]);
      assert (set u | u in users) == {users[0]} + set u | u in users[1..];
      assert users[0] !in users[1..];
    }
  }

  // -------------------------------------------------------------------------------------------
  // Deletion, one operation after another.

  /** Whether a post is left deleted: by its last deletion, or update that sets `deletedAt`, or else as at first. */
  predicate LeftDeleted(ops: seq<Operation>, id: string, atFirst: bool) {
    if ops == [] then atFirst
    else
      var last := ops[|ops| - 1];
      if last.Delete? && last.id == id then true
      else if last.Update? && last.id == id && last.data.deletedAt.Some? then last.data.deletedAt.value.Some?
      else LeftDeleted(ops[..|ops| - 1], id, atFirst)
  }

  lemma {:induction false} DeletionOverRun(docs: seq<Post>, ops: seq<Operation>, id: string)
    requires Find(docs, id).Some? && CreatesNew(ops, id)
    ensures var i := Find(docs, id);
            && Find(Run(docs, ops), id) == i
            && (Run(docs, ops)[i.value].deletedAt.Some? <==> LeftDeleted(ops, id, docs[i.value].deletedAt.Some?))
    decreases |ops|
  {
    if ops != [] {
      DeletionOverRun(docs, ops[..|ops| - 1], id);
      AppliedToPost(Run(docs, ops[..|ops| - 1]), ops[|ops| - 1], id);
    }
  }

  /** With the data the controller declares, nothing undoes a deletion. */
  lemma {:induction false} DeclaredLeavesDeleted(ops: seq<Operation>, id: string)
    requires forall i | 0 <= i < |ops| && ops[i].Update? :: Declared(ops[i].data)
    ensures LeftDeleted(ops, id, true)
    decreases |ops|
  {
    if ops != [] {
      DeclaredLeavesDeleted(ops[..|ops| - 1], id);
    }
  }

  // -------------------------------------------------------------------------------------------
  // Every other field is what was last said of it.

  /** What the last update of the post that sets a field sets it to, or else what it was at first. */
  function LastSet<T>(ops: seq<Operation>, id: string, field: Fields -> Option<T>, atFirst: T): T {
    if ops == [] then atFirst
    else
      var last := ops[|ops| - 1];
      if last.Update? && last.id == id && field(last.data).Some? then field(last.data).value
      else LastSet(ops[..|ops| - 1], id, field, atFirst)
  }

  /** Over any serial run, likes, unlikes and deletions touch none of these fields; updates set those they name, and
      nothing changes the id or the creation time. */
  lemma {:induction false} FieldsFollowUpdates(docs: seq<Post>, ops: seq<Operation>, id: string)
    requires Find(docs, id).Some? && CreatesNew(ops, id)
    ensures Find(Run(docs, ops), id) == Find(docs, id)
    ensures var i := Find(docs, id).value;
            var p, first := Run(docs, ops)[i], docs[i];
            && p.userId == LastSet(ops, id, (c: Fields) => c.userId, first.userId)
            && p.title == LastSet(ops, id, (c: Fields) => c.title, first.title)
            && p.content == LastSet(ops, id, (c: Fields) => c.content, first.content)
            && p.images == LastSet(ops, id, (c: Fields) => c.images, first.images)
            && p.tags == LastSet(ops, id, (c: Fields) => c.tags, first.tags)
            && p.status == LastSet(ops, id, (c: Fields) => c.status, first.status)
            && p.id == first.id && p.createdAt == first.createdAt
    decreases |ops|
  {
    if ops != [] {
      FieldsFollowUpdates(docs, ops[..|ops| - 1], id);
      AppliedToPost(Run(docs, ops[..|ops| - 1]), ops[|ops| - 1], id);
    }
  }

  /** The deletion time is that of the last deletion, or what the last update says. */
  lemma DeletionTime(docs: seq<Post>, id: string, at: int)
    requires Find(docs, id).Some?
    ensures Applied(docs, Delete(id, at)).0[Find(docs, id).value].deletedAt == Some(at)
  {
  }

  /** A creation: the data, and where it says nothing the given user, or the schema's default; refused exactly if a
      required text is empty or the status is none of the three. */
  lemma CreatedDocument(docs: seq<Post>, userId: string, data: Fields, id: string, now: int)
    ensures var (after, r) := Applied(docs, Operation.Create(userId, data, id, now));
            var author := if data.userId.Some? then data.userId.value else userId;
            var status := if data.status.Some? then data.status.value else "draft";
            if author == "" || data.title in {None, Some("")} || data.content in {None, Some("")}
               || status !in {"draft", "published", "archived"}
            then r == Invalid && after == docs
            else
              && r.Found? && after == docs + [r.post]
              && r.post.id == id && r.post.createdAt == now && r.post.userId == author && r.post.status == status
              && r.post.title == data.title.value && r.post.content == data.content.value
              && r.post.images == (if data.images.Some? then data.images.value else [])
              && r.post.tags == (if data.tags.Some? then data.tags.value else [])
              && r.post.likesCount == (if data.likesCount.Some? then data.likesCount.value else 0)
              && r.post.likedBy == (if data.likedBy.Some? then data.likedBy.value else [])
              && r.post.deletedAt == (if data.deletedAt.Some? then data.deletedAt.value else None)
  {
  }

  /** Every operation on a post answers with the post as it is afterwards, or with not found exactly when there is
      none, and then changes nothing. */
  lemma AnswersWithPost(docs: seq<Post>, op: Operation)
    requires !op.Create?
    ensures var (after, r) := Applied(docs, op);
            match Find(docs, op.id)
            case Some(i) => r == Found(after[i])
            case None => r == NotFound && after == docs && forall p | p in docs :: p.id != op.id
  {
  }
}
