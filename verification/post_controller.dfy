/**
 * The decision logic of the five post handlers, over a value of the post
 * collection. Each handler gives the response it sends and the collection
 * as it is afterwards; the database calls are map operations: a lookup for
 * `findById`, an insert or overwrite for `save`, a removal for `deleteOne`.
 */
module PostController {
  import opened Wrappers
  import opened ObjectIds
  import opened PostModel

  /** The `title` and `content` fields of a request body; a field may be missing. */
  datatype PostFields = PostFields(title: Option<string>, content: Option<string>)

  datatype Payload =
    | One(entry: Entry)
    | Many(entries: seq<Entry>)
    | Message(text: string)
    | Unmatched  // the router's reply when no route matches (`PostRoutes.NoRoute`)

  datatype Response = Response(status: nat, payload: Payload)

  /** A handler's response and the collection it leaves behind. */
  datatype Outcome = Outcome(response: Response, store: Store)

  const MissingFields := Response(400, Message("Please add a title and content"))
  const NotFound := Response(404, Message("Post not found"))
  const NotAuthorized := Response(401, Message("User not authorized"))
  const Removed := Response(200, Message("Post removed"))
  const ServerError := Response(500, Message("Server Error"))

  /** A body field counts as given only when it is present and not the empty string. */
  predicate Given(field: Option<string>)
  {
    field.Some? && field.value != ""
  }

  /**
   * The partial-update rule: a given field replaces the current value, otherwise it is kept.
   * A merged field is never empty when the current value is not, so a re-saved post still
   * has the title and content the schema requires.
   */
  function Merge(field: Option<string>, current: string): (r: string)
    ensures Given(field) ==> r == field.value
    ensures !Given(field) ==> r == current
    ensures current != "" ==> r != ""
  {
    if Given(field) then field.value else current
  }

  /** List every post, newest creation first. */
  function GetPosts(s: Store): (r: Response)
    requires Valid(s)
    ensures r.status == 200 && r.payload.Many?
    ensures NewestFirst(s.posts, r.payload.entries)
  {
    Response(200, Many(Listing(s.posts)))
  }

  /** Fetch one post by the identifier text from the path. */
  function GetPostById(s: Store, idText: string): (r: Response)
    ensures r.status in {200, 404, 500}
    ensures r.status == 500 <==> ParseObjectId(idText).None?
    ensures r.status == 500 ==> r == ServerError
    ensures r.status == 404 <==> ParseObjectId(idText).Some? && ParseObjectId(idText).value !in s.posts
    ensures r.status == 404 ==> r == NotFound
    ensures r.status == 200 ==>
      && r.payload.One?
      && ParseObjectId(idText) == Some(r.payload.entry.id)
      && r.payload.entry.id in s.posts
      && s.posts[r.payload.entry.id] == r.payload.entry.post
  {
    match ParseObjectId(idText)
    case None => ServerError
    case Some(id) =>
      if id in s.posts then Response(200, One(Entry(id, s.posts[id]))) else NotFound
  }

  /**
   * Create a post for the authenticated `caller`. `newId` is the identifier
   * the database driver assigns to the new document.
   */
  function CreatePost(s: Store, caller: ObjectId, body: PostFields, newId: ObjectId): (o: Outcome)
    ensures o.response.status in {201, 400, 500}
    ensures o.response.status == 400 <==> !Given(body.title) || !Given(body.content)
    ensures o.response.status == 400 ==> o.response == MissingFields
    ensures o.response.status == 500 ==> o.response == ServerError
    ensures o.response.status != 201 ==> o.store == s
    ensures o.response.status == 201 <==> Given(body.title) && Given(body.content) && newId !in s.posts
    ensures o.response.status == 201 ==>
      && o.store.posts.Keys == s.posts.Keys + {newId}
      && (forall id :: id in s.posts ==> o.store.posts[id] == s.posts[id])
      && o.store.posts[newId].title == body.title.value
      && o.store.posts[newId].content == body.content.value
      && o.store.posts[newId].author == caller
      && o.store.posts[newId].created == s.clock
      && o.store.clock == s.clock + 1
      && o.response.payload == One(Entry(newId, o.store.posts[newId]))
    ensures Valid(s) ==> Valid(o.store)
  {
    if !Given(body.title) || !Given(body.content) then Outcome(MissingFields, s)
    // saving a document whose identifier is already taken fails with a duplicate-key error
    else if newId in s.posts then Outcome(ServerError, s)
    else
      var post := Post(body.title.value, body.content.value, caller, s.clock);
      Outcome(Response(201, One(Entry(newId, post))), Store(s.posts[newId := post], s.clock + 1))
  }

  /** Update the title and content of a post the `caller` wrote. */
  function UpdatePost(s: Store, caller: ObjectId, idText: string, body: PostFields): (o: Outcome)
    ensures o.response.status in {200, 401, 404, 500}
    ensures o.response.status != 200 ==> o.store == s
    ensures o.response.status == 500 <==> ParseObjectId(idText).None?
    ensures o.response.status == 500 ==> o.response == ServerError
    ensures var p := ParseObjectId(idText);
      o.response.status == 404 <==> p.Some? && p.value !in s.posts
    ensures o.response.status == 404 ==> o.response == NotFound
    ensures var p := ParseObjectId(idText);
      o.response.status == 401 <==> p.Some? && p.value in s.posts && s.posts[p.value].author != caller
    ensures o.response.status == 401 ==> o.response == NotAuthorized
    ensures var p := ParseObjectId(idText);
      o.response.status == 200 ==>
        && p.Some? && p.value in s.posts
        && o.store.posts.Keys == s.posts.Keys
        && var id, before, after := p.value, s.posts[p.value], o.store.posts[p.value];
        && (forall other :: other in s.posts && other != id ==> o.store.posts[other] == s.posts[other])
        && o.store.clock == s.clock
        && after.author == before.author == caller
        && after.created == before.created
        && after.title == (if Given(body.title) then body.title.value else before.title)
        && after.content == (if Given(body.content) then body.content.value else before.content)
        && o.response == Response(200, One(Entry(id, after)))
    ensures Valid(s) ==> Valid(o.store)
  {
    match ParseObjectId(idText)
    case None => Outcome(ServerError, s)
    case Some(id) =>
      if id !in s.posts then Outcome(NotFound, s)
      else
        var post := s.posts[id];
        SameUserIsEquality(post.author, caller);
        if !SameUser(post.author, caller) then Outcome(NotAuthorized, s)
        else
          var updated := post.(title := Merge(body.title, post.title),
                               content := Merge(body.content, post.content));
          Outcome(Response(200, One(Entry(id, updated))), s.(posts := s.posts[id := updated]))
  }

  /** Delete a post the `caller` wrote. */
  function DeletePost(s: Store, caller: ObjectId, idText: string): (o: Outcome)
    ensures o.response.status in {200, 401, 404, 500}
    ensures o.response.status != 200 ==> o.store == s
    ensures o.response.status == 500 <==> ParseObjectId(idText).None?
    ensures o.response.status == 500 ==> o.response == ServerError
    ensures var p := ParseObjectId(idText);
      o.response.status == 404 <==> p.Some? && p.value !in s.posts
    ensures o.response.status == 404 ==> o.response == NotFound
    ensures var p := ParseObjectId(idText);
      o.response.status == 401 <==> p.Some? && p.value in s.posts && s.posts[p.value].author != caller
    ensures o.response.status == 401 ==> o.response == NotAuthorized
    ensures var p := ParseObjectId(idText);
      o.response.status == 200 ==>
        && p.Some? && p.value in s.posts && s.posts[p.value].author == caller
        && o.store.posts.Keys == s.posts.Keys - {p.value}
        && (forall other :: other in o.store.posts ==> o.store.posts[other] == s.posts[other])
        && o.store.clock == s.clock
        && o.response == Removed
    ensures Valid(s) ==> Valid(o.store)
  {
    match ParseObjectId(idText)
    case None => Outcome(ServerError, s)
    case Some(id) =>
      if id !in s.posts then Outcome(NotFound, s)
      else
        var post := s.posts[id];
        SameUserIsEquality(post.author, caller);
        if !SameUser(post.author, caller) then Outcome(NotAuthorized, s)
        else Outcome(Removed, s.(posts := s.posts - {id}))
  }

  /** A created post can be fetched by the text of its identifier, as it was created. */
  lemma CreateThenGet(s: Store, caller: ObjectId, body: PostFields, newId: ObjectId)
    requires CreatePost(s, caller, body, newId).response.status == 201
    ensures GetPostById(CreatePost(s, caller, body, newId).store, ToHex(newId))
         == Response(200, One(Entry(newId, Post(body.title.value, body.content.value, caller, s.clock))))
  {
    ParseOfToHex(newId);
  }

  /** After a successful delete, fetching the same identifier text gives 404. */
  lemma DeleteThenGet(s: Store, caller: ObjectId, idText: string)
    requires DeletePost(s, caller, idText).response.status == 200
    ensures GetPostById(DeletePost(s, caller, idText).store, idText) == NotFound
  {
  }

  /** A successful create puts the new post at the head of the listing; the rest keep their order. */
  lemma CreateThenList(s: Store, caller: ObjectId, body: PostFields, newId: ObjectId)
    requires Valid(s)
    requires CreatePost(s, caller, body, newId).response.status == 201
    ensures var o := CreatePost(s, caller, body, newId);
      GetPosts(o.store).payload.entries == [o.response.payload.entry] + GetPosts(s).payload.entries
  {
    var post := Post(body.title.value, body.content.value, caller, s.clock);
    ListingOfNewer(s.posts, newId, post);
  }

  /** Creating post A and then post B on an empty store lists B before A. */
  lemma TwoCreatesListNewestFirst(caller: ObjectId, a: PostFields, idA: ObjectId, b: PostFields, idB: ObjectId)
    requires Given(a.title) && Given(a.content) && Given(b.title) && Given(b.content)
    requires idA != idB
    ensures var s1 := CreatePost(Store(map[], 0), caller, a, idA).store;
      var s2 := CreatePost(s1, caller, b, idB).store;
      GetPosts(s2).payload.entries == [
        Entry(idB, Post(b.title.value, b.content.value, caller, 1)),
        Entry(idA, Post(a.title.value, a.content.value, caller, 0))]
  {
    var pA := Post(a.title.value, a.content.value, caller, 0);
    var pB := Post(b.title.value, b.content.value, caller, 1);
    var mB := map[idA := pA][idB := pB];
    assert CreatePost(Store(map[], 0), caller, a, idA).store == Store(map[idA := pA], 1);
    assert CreatePost(Store(map[idA := pA], 1), caller, b, idB).store == Store(mB, 2);
    ListingOfTwo(idA, pA, idB, pB);
  }

  lemma ListingOfTwo(idA: ObjectId, pA: Post, idB: ObjectId, pB: Post)
    requires idA != idB && pA.created < pB.created
    ensures UniqueStamps(map[idA := pA][idB := pB])
    ensures Listing(map[idA := pA][idB := pB]) == [Entry(idB, pB), Entry(idA, pA)]
  {
    var mA := map[idA := pA];
    assert map[][idA := pA] == mA;
    ListingOfNewer(map[], idA, pA);
    ListingOfNewer(mA, idB, pB);
  }
}
