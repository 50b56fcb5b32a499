/**
 * The handlers as they run against the database: a store object whose post
 * collection and creation clock the writing handlers change in place. Each
 * method does the handler's steps in order (look up, check, build or modify
 * the record, save or remove it) and is proved to end in the response and
 * collection that `PostController` gives.
 */
module PostStores {
  import opened Wrappers
  import opened ObjectIds
  import opened PostModel
  import opened PostController

  class PostStore {
    var posts: map<ObjectId, Post>
    var clock: nat

    /** The collection as a value, for the query handlers and the lemmas. */
    function State(): Store
      reads this
    {
      Store(posts, clock)
    }

    constructor ()
      ensures State() == Store(map[], 0) && Valid(State())
    {
      posts := map[];
      clock := 0;
    }

    method CreatePost(caller: ObjectId, body: PostFields, newId: ObjectId) returns (r: Response)
      requires Valid(State())
      modifies this
      ensures Valid(State())
      ensures var o := PostController.CreatePost(old(State()), caller, body, newId);
        r == o.response && State() == o.store
    {
      if !Given(body.title) || !Given(body.content) {
        return MissingFields;
      }
      if newId in posts {
        return ServerError;
      }
      var post := Post(body.title.value, body.content.value, caller, clock);
      posts := posts[newId := post];
      clock := clock + 1;
      r := Response(201, One(Entry(newId, post)));
    }

    method UpdatePost(caller: ObjectId, idText: string, body: PostFields) returns (r: Response)
      requires Valid(State())
      modifies this
      ensures Valid(State())
      ensures var o := PostController.UpdatePost(old(State()), caller, idText, body);
        r == o.response && State() == o.store
    {
      var found := ParseObjectId(idText);
      if found.None? {
        return ServerError;
      }
      var id := found.value;
      if id !in posts {
        return NotFound;
      }
      var post := posts[id];
      if !SameUser(post.author, caller) {
        return NotAuthorized;
      }
      post := post.(title := Merge(body.title, post.title));
      post := post.(content := Merge(body.content, post.content));
      posts := posts[id := post];
      r := Response(200, One(Entry(id, post)));
    }

    method DeletePost(caller: ObjectId, idText: string) returns (r: Response)
      requires Valid(State())
      modifies this
      ensures Valid(State())
      ensures var o := PostController.DeletePost(old(State()), caller, idText);
        r == o.response && State() == o.store
    {
      var found := ParseObjectId(idText);
      if found.None? {
        return ServerError;
      }
      var id := found.value;
      if id !in posts {
        return NotFound;
      }
      var post := posts[id];
      if !SameUser(post.author, caller) {
        return NotAuthorized;
      }
      posts := posts - {id};
      r := Removed;
    }
  }
}
