# Blog post handlers, modelled in Dafny

This project models the request handling of a small blog API. The API offers
create, read, update and delete operations on posts. Each post has a title,
a content and an author, which is the identifier of a user. The model covers
two parts:

- the five post handlers (`getPosts`, `getPostById`, `createPost`,
  `updatePost`, `deletePost`): what each checks, in what order, what it
  answers and what it does to the stored posts;
- the post routes: which method and path reach which handler, and which
  routes pass through the authentication gate (`protect`) first.

The document database becomes a map from post identifier to post record.
`findById` is a lookup, `save` an insert or an overwrite, and `deleteOne` a
removal. The `createdAt` timestamp becomes a creation counter (`clock`), and
the "newest first" order of the listing is by that counter.

Files, one module each:

- `wrappers.dfy` (`Wrappers`): `Option`.
- `object_ids.dfy` (`ObjectIds`): document identifiers, which are 12 bytes.
  `ToHex` is their lower-case 24-digit text, the result of `toString()`.
  `ParseObjectId` is the cast that `findById` applies to a path parameter.
  In the model it accepts exactly 24 hexadecimal digits, in either case, as
  the driver of Mongoose 8 (bson 6) does.
- `post_model.dfy` (`PostModel`): the `Post` record and the `Store` value.
  The store invariant `Valid` says that creation stamps are unique and older
  than the clock, and that titles and contents are non-empty. `Listing` is
  the newest-first query.
- `post_controller.dfy` (`PostController`): the decision logic of the five
  handlers, as functions from a `Store` value to a response and the new
  store. It also holds the lemmas that relate several requests.
- `post_store.dfy` (`PostStores`): class `PostStore`. It holds the post map
  and the clock as fields. Its `CreatePost`, `UpdatePost` and `DeletePost`
  methods do the handler's steps in place. Each method is proved to end in
  exactly the response and store that `PostController` gives. The two
  read-only handlers are functions; they are applied to `State()`.
- `post_routes.dfy` (`PostRoutes`): path matching, the route table,
  `Serve` (route, then gate, then handler), and lemmas over whole requests.

Two points about the code that the model keeps:

- A path id that is not a well-formed identifier makes `findById` throw.
  The catch blocks (controllers/postController.js:27-28, 81-82, 106-107)
  then answer 500 "Server Error", not 404. The model does the same in
  get-by-id, update and delete.
- `createdAt` timestamps can tie. The creation counter cannot, so the
  model's listing order is strict.

## Model

| member | source | states |
|---|---|---|
| `ObjectIds.ToHex` | controllers/postController.js:71 | an identifier's text is two characters per byte, so 24 characters, which is the length the cast accepts |
| `ObjectIds.ParseObjectId` | controllers/postController.js:64 | the cast of a path parameter succeeds exactly on strings of 24 characters each of which is a hexadecimal digit, upper or lower case |
| `ObjectIds.ParseHexAccepts` | controllers/postController.js:64 | hexadecimal text parses exactly when its length is even and every character is a hexadecimal digit |
| `ObjectIds.ParseHexOfToHex` | controllers/postController.js:21 | reading the hexadecimal text of any byte string gives back the same bytes |
| `ObjectIds.ParseOfToHex` | controllers/postController.js:21 | looking a post up by the text of its identifier looks up that identifier |
| `ObjectIds.SameUserIsEquality` | controllers/postController.js:71 | the ownership test compares both identifiers as strings; this holds exactly when they are the same identifier |
| `PostModel.Listing` | controllers/postController.js:9 | the listing holds every stored post exactly once, with its identifier, in strictly decreasing creation order |
| `PostModel.ListingOfNewer` | controllers/postController.js:9 | a post newer than all the others is listed first, and the others keep their order behind it |
| `PostController.Merge` | controllers/postController.js:75-76 | a merged field is never empty when the current value is not, so the re-save at line 78 keeps the required title and content non-empty |
| `PostController.GetPosts` | controllers/postController.js:6-14 | the list handler answers 200 with all posts, newest creation first |
| `PostController.GetPostById` | controllers/postController.js:19-30 | get-by-id answers 200 with the stored post when the id is present, 404 "Post not found" when absent, 500 when the id text does not cast |
| `PostController.CreatePost` | controllers/postController.js:36-55 | 400 "Please add a title and content" exactly when title or content is missing or empty; on 201 exactly one post is added, with the body's title and content, the caller as author and the next creation stamp, and every other post is unchanged; on any failure the store is unchanged; the store invariant is kept |
| `PostController.UpdatePost` | controllers/postController.js:60-84 | 404 exactly when the cast id is absent, whoever the caller is; 401 "User not authorized" exactly when the post exists and the caller is not its author; on 200 only that post changes, each of title and content becomes the body's value if given and otherwise keeps the old one, and author and stamp are kept; on failure the store is unchanged |
| `PostController.DeletePost` | controllers/postController.js:90-109 | 404 exactly when the cast id is absent, whoever the caller is; 401 exactly when the caller is not the author; on 200 "Post removed" exactly that id is removed and all other posts are unchanged; on failure the store is unchanged |
| `PostController.CreateThenGet` | controllers/postController.js:44-51 | after a successful create, get-by-id on the new post's identifier text answers 200 with the title, content and author of the create |
| `PostController.DeleteThenGet` | controllers/postController.js:103-104 | after a successful delete, get-by-id on the same id text answers 404 |
| `PostController.CreateThenList` | controllers/postController.js:9 | a successful create puts the new post at the head of the listing, in front of the previous listing |
| `PostController.TwoCreatesListNewestFirst` | controllers/postController.js:9 | creating A and then B on an empty store lists B before A |
| `PostStores.PostStore.CreatePost` | controllers/postController.js:36-55 | builds the record and saves it into the map, ending in the response and store of `PostController.CreatePost`; keeps the store invariant |
| `PostStores.PostStore.UpdatePost` | controllers/postController.js:60-84 | looks the post up, checks ownership, assigns title and content in place and saves; ends in the response and store of `PostController.UpdatePost` |
| `PostStores.PostStore.DeletePost` | controllers/postController.js:90-109 | looks the post up, checks ownership and removes it; ends in the response and store of `PostController.DeletePost` |
| `PostRoutes.ParsePath` | routes/postRoutes.js:13-22 | `/` matches the collection route and only it; an item match is one non-empty segment without `/`, with at most one trailing slash |
| `PostRoutes.ParsePathOfSegment` | routes/postRoutes.js:16 | every one-segment path, with or without a trailing slash, matches `/:id` with that segment as the id |
| `PostRoutes.Dispatch` | routes/postRoutes.js:13-22 | a route is protected exactly when its handler writes; the public routes are exactly the GET (and HEAD) routes; the `/:id` handlers are exactly the ones that take an id; which method and path pairs have a route at all |
| `PostRoutes.RouteTable` | routes/postRoutes.js:13-22 | the five entries of the route table at concrete paths, with their protection flags |
| `PostRoutes.Serve` | routes/postRoutes.js:13-22 | any request through router, gate and handler keeps the store invariant |
| `PostRoutes.CreateRouteReachesHandler` | routes/postRoutes.js:19 | an authenticated POST to `/` gets exactly what the create handler gives for that caller and body |
| `PostRoutes.UpdateRouteReachesHandler` | routes/postRoutes.js:22 | an authenticated PUT to `/:id`, with or without a trailing slash, gets exactly what the update handler gives for that caller, id text and body |
| `PostRoutes.DeleteRouteReachesHandler` | routes/postRoutes.js:22 | an authenticated DELETE to `/:id`, with or without a trailing slash, gets exactly what the delete handler gives for that caller and id text |
| `PostRoutes.AuthFailureChangesNothing` | routes/postRoutes.js:19-22 | when the gate rejects the caller the store is unchanged, and on a protected route the reply is the gate's own, so the handler never runs |
| `PostRoutes.PublicRoutesIgnoreAuth` | routes/postRoutes.js:13-16 | GET requests give the same outcome whatever the gate would say, and change nothing |
| `PostRoutes.ChangeNeedsIdentity` | routes/postRoutes.js:19-22 | a request that changes the store is a POST, PUT or DELETE with an authenticated caller |
| `PostRoutes.OnlyAuthorChangesPost` | controllers/postController.js:70-73 | through the whole router, an existing post is rewritten or removed only when the authenticated caller is its author |
| `PostRoutes.AuthorNeverRewritten` | controllers/postController.js:75-78 | no request changes the author or the creation stamp of a post that remains stored |

## Left out

- The connection to the database, `populate('author', ...)` (it joins the author's name into replies), schema validation and automatic timestamps. A post's `author` stays an identifier in replies. `updatedAt` is not modelled.
- The identifier the database driver gives a new post is an input (`newId`). If that identifier is already taken, the save fails with a duplicate-key error. The model answers 500 and leaves the store unchanged.
- Other database failures that reach the catch blocks (500 "Server Error"): the model has no fault input. The only 500s it produces are the failed identifier cast and the duplicate key.
- Request bodies: a field is either missing or a string. JSON `null` counts as missing. Other JSON values (numbers, booleans, objects), and Mongoose's conversion of them, are not modelled.
- The `protect` middleware and the user routes: the middleware's file is not part of this model. Its verdict is an input, either an identity or a rejection carrying its own reply.
- Express's treatment of paths beyond one segment and a trailing slash is not modelled. Percent-decoding of the id, a doubled slash and case folding are absent. The automatic OPTIONS reply is absent, and an unmatched request gets a generic 404.
- ParseObjectId: takes the cast of Mongoose 8 (bson 6), which accepts only 24 hexadecimal digits. Older Mongoose versions (6 and 7, bson 4 and 5) also cast a 12-character string whose UTF-8 encoding is 12 bytes. Such an id then usually misses the lookup and gets 404 where the model answers 500.
- Dispatch: a HEAD request gets the GET outcome, payload included. Express sends the status and headers of that reply with no body.
- Server start-up, CORS, JSON body parsing and the environment variables: plumbing only.
- Concurrent requests and async scheduling: each request is one read followed by at most one write, applied atomically.
