/**
 * The post routes: which handler answers a method and a path below the posts
 * prefix, and which routes pass through the authentication gate first. The
 * gate itself is not modelled; its verdict on the request, a caller identity
 * or a rejection with its own reply, is part of the request.
 */
module PostRoutes {
  import opened Wrappers
  import opened ObjectIds
  import opened PostModel
  import C = PostController

  /** Request methods; `Other` stands only for methods other than the five named here. */
  datatype Verb = GET | HEAD | POST | PUT | DELETE | Other(name: string)

  /** The two path shapes the routes know: `/` and `/:id`. */
  datatype Target = Collection | Item(id: string)

  datatype Handler = GetPosts | GetPostById | CreatePost | UpdatePost | DeletePost

  /** A matched route: its handler and whether the gate runs before it. */
  datatype Route = Route(handler: Handler, protect: bool)

  /** The gate's verdict: the authenticated caller, or a rejection carrying the gate's reply. */
  datatype AuthResult = Identity(user: ObjectId) | AuthFailure(reply: C.Response)

  datatype Request = Request(verb: Verb, path: string, auth: AuthResult, body: C.PostFields)

  /** The framework's reply when no route matches. */
  const NoRoute := C.Response(404, C.Unmatched)

  predicate Writes(h: Handler)
  {
    h == CreatePost || h == UpdatePost || h == DeletePost
  }

  /**
   * Match a path against `/` and `/:id`. A parameter is one non-empty path
   * segment; a single trailing slash is accepted, as non-strict routing does.
   */
  function ParsePath(path: string): (t: Option<Target>)
    ensures t == Some(Collection) <==> path == "/"
    ensures t.Some? && t.value.Item? ==>
      var seg := t.value.id;
      seg != "" && '/' !in seg && (path == "/" + seg || path == "/" + seg + "/")
  {
    if path == "/" then Some(Collection)
    else if |path| < 2 || path[0] != '/' then None
    else
      var rest := path[1..];
      var seg := if rest[|rest| - 1] == '/' then rest[..|rest| - 1] else rest;
      assert path == "/" + rest;
      assert rest[|rest| - 1] == '/' ==> rest == seg + "/";
      if seg != "" && '/' !in seg then Some(Item(seg)) else None
  }

  /** Every one-segment path, with or without a trailing slash, reaches the `/:id` routes. */
  lemma ParsePathOfSegment(seg: string)
    requires seg != "" && '/' !in seg
    ensures ParsePath("/" + seg) == Some(Item(seg))
    ensures ParsePath("/" + seg + "/") == Some(Item(seg))
  {
    var p1, p2 := "/" + seg, "/" + seg + "/";
    assert p1[1..] == seg;
    assert p2[1..] == seg + "/";
    assert (seg + "/")[..|seg|] == seg;
    assert p1 != "/" by { assert p1[1] == seg[0]; }
    assert p2 != "/" by { assert |p2| > 1; }
  }

  /**
   * The route table. A HEAD request is answered by the GET routes, as the
   * framework does when a route has no HEAD handler of its own.
   */
  function Dispatch(verb: Verb, target: Target): (r: Option<Route>)
    ensures r.Some? ==> (r.value.protect <==> Writes(r.value.handler))
    ensures r.Some? ==> (target.Item? <==> r.value.handler in {GetPostById, UpdatePost, DeletePost})
    ensures (r.Some? && !r.value.protect) <==> (verb == GET || verb == HEAD)
    ensures r.Some? <==>
      || verb == GET || verb == HEAD
      || (verb == POST && target == Collection)
      || ((verb == PUT || verb == DELETE) && target.Item?)
  {
    match (verb, target)
    case (GET, Collection) => Some(Route(GetPosts, false))
    case (HEAD, Collection) => Some(Route(GetPosts, false))
    case (GET, Item(_)) => Some(Route(GetPostById, false))
    case (HEAD, Item(_)) => Some(Route(GetPostById, false))
    case (POST, Collection) => Some(Route(CreatePost, true))
    case (PUT, Item(_)) => Some(Route(UpdatePost, true))
    case (DELETE, Item(_)) => Some(Route(DeletePost, true))
    case _ => None
  }

  /**
   * One request through the router: match the route, run the gate when the
   * route is protected, then the handler. `newId` is the identifier the
   * driver would give a post created by this request.
   */
  function Serve(s: Store, req: Request, newId: ObjectId): (o: C.Outcome)
    requires Valid(s)
    ensures Valid(o.store)
  {
    match ParsePath(req.path)
    case None => C.Outcome(NoRoute, s)
    case Some(target) =>
      match Dispatch(req.verb, target)
      case None => C.Outcome(NoRoute, s)
      case Some(route) =>
        if route.protect && req.auth.AuthFailure? then C.Outcome(req.auth.reply, s)
        else
          match route.handler
          case GetPosts => C.Outcome(C.GetPosts(s), s)
          case GetPostById => C.Outcome(C.GetPostById(s, target.id), s)
          case CreatePost => C.CreatePost(s, req.auth.user, req.body, newId)
          case UpdatePost => C.UpdatePost(s, req.auth.user, target.id, req.body)
          case DeletePost => C.DeletePost(s, req.auth.user, target.id)
  }

  /** The five routes of the table, at concrete paths. */
  lemma RouteTable(seg: string)
    requires seg != "" && '/' !in seg
    ensures Dispatch(GET, ParsePath("/").value) == Some(Route(GetPosts, false))
    ensures Dispatch(GET, ParsePath("/" + seg).value) == Some(Route(GetPostById, false))
    ensures Dispatch(POST, ParsePath("/").value) == Some(Route(CreatePost, true))
    ensures Dispatch(PUT, ParsePath("/" + seg).value) == Some(Route(UpdatePost, true))
    ensures Dispatch(DELETE, ParsePath("/" + seg).value) == Some(Route(DeletePost, true))
  {
    ParsePathOfSegment(seg);
  }

  /** An authenticated POST to `/` is answered by the create handler. */
  lemma CreateRouteReachesHandler(s: Store, user: ObjectId, body: C.PostFields, newId: ObjectId)
    requires Valid(s)
    ensures Serve(s, Request(POST, "/", Identity(user), body), newId) == C.CreatePost(s, user, body, newId)
  {
  }

  /** An authenticated PUT to `/:id` is answered by the update handler on that id text. */
  lemma UpdateRouteReachesHandler(s: Store, seg: string, user: ObjectId, body: C.PostFields, newId: ObjectId)
    requires Valid(s) && seg != "" && '/' !in seg
    ensures Serve(s, Request(PUT, "/" + seg, Identity(user), body), newId) == C.UpdatePost(s, user, seg, body)
    ensures Serve(s, Request(PUT, "/" + seg + "/", Identity(user), body), newId) == C.UpdatePost(s, user, seg, body)
  {
    ParsePathOfSegment(seg);
  }

  /** An authenticated DELETE to `/:id` is answered by the delete handler on that id text. */
  lemma DeleteRouteReachesHandler(s: Store, seg: string, user: ObjectId, body: C.PostFields, newId: ObjectId)
    requires Valid(s) && seg != "" && '/' !in seg
    ensures Serve(s, Request(DELETE, "/" + seg, Identity(user), body), newId) == C.DeletePost(s, user, seg)
    ensures Serve(s, Request(DELETE, "/" + seg + "/", Identity(user), body), newId) == C.DeletePost(s, user, seg)
  {
    ParsePathOfSegment(seg);
  }

  /** A rejected caller changes nothing; on a protected route the reply is the gate's own. */
  lemma AuthFailureChangesNothing(s: Store, req: Request, newId: ObjectId)
    requires Valid(s) && req.auth.AuthFailure?
    ensures Serve(s, req, newId).store == s
    ensures var t := ParsePath(req.path);
      t.Some? && Dispatch(req.verb, t.value).Some? && Dispatch(req.verb, t.value).value.protect
      ==> Serve(s, req, newId).response == req.auth.reply
  {
  }

  /** GET and HEAD requests never run the gate and never change the store. */
  lemma PublicRoutesIgnoreAuth(s: Store, req: Request, other: AuthResult, newId: ObjectId)
    requires Valid(s) && (req.verb == GET || req.verb == HEAD)
    ensures Serve(s, req, newId) == Serve(s, req.(auth := other), newId)
    ensures Serve(s, req, newId).store == s
  {
  }

  /** The store changes only on a writing route, and only for an authenticated caller. */
  lemma ChangeNeedsIdentity(s: Store, req: Request, newId: ObjectId)
    requires Valid(s)
    requires Serve(s, req, newId).store != s
    ensures req.auth.Identity?
    ensures req.verb == POST || req.verb == PUT || req.verb == DELETE
  {
  }

  /**
   * Whatever the request, an existing post is rewritten or removed only when
   * the authenticated caller is its author.
   */
  lemma OnlyAuthorChangesPost(s: Store, req: Request, newId: ObjectId, id: ObjectId)
    requires Valid(s) && id in s.posts
    requires var o := Serve(s, req, newId);
      id !in o.store.posts || o.store.posts[id] != s.posts[id]
    ensures req.auth == Identity(s.posts[id].author)
  {
    var o := Serve(s, req, newId);
    var target := ParsePath(req.path).value;
    var route := Dispatch(req.verb, target).value;
    if route.handler == UpdatePost {
      assert o == C.UpdatePost(s, req.auth.user, target.id, req.body);
    } else if route.handler == DeletePost {
      assert o == C.DeletePost(s, req.auth.user, target.id);
    }
  }

  /** A post keeps its author through every request that leaves it in the store. */
  lemma AuthorNeverRewritten(s: Store, req: Request, newId: ObjectId, id: ObjectId)
    requires Valid(s) && id in s.posts
    requires id in Serve(s, req, newId).store.posts
    ensures Serve(s, req, newId).store.posts[id].author == s.posts[id].author
    ensures Serve(s, req, newId).store.posts[id].created == s.posts[id].created
  {
    var o := Serve(s, req, newId);
    if o.store != s {
      var target := ParsePath(req.path).value;
      var route := Dispatch(req.verb, target).value;
      if route.handler == UpdatePost {
        assert o == C.UpdatePost(s, req.auth.user, target.id, req.body);
      } else if route.handler == CreatePost {
        assert o == C.CreatePost(s, req.auth.user, req.body, newId);
      } else {
        assert o == C.DeletePost(s, req.auth.user, target.id);
      }
    }
  }
}
