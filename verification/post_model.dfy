/**
 * The stored Post record and the post collection. The collection maps each
 * post's identifier to its record; `clock` is the creation stamp the next new
 * post receives, standing in for the `createdAt` timestamp.
 */
module PostModel {
  import opened ObjectIds

  /** A stored post: its text, the identifier of its author and its creation stamp. */
  datatype Post = Post(title: string, content: string, author: ObjectId, created: nat)

  /** A post together with its identifier, as the handlers send it back. */
  datatype Entry = Entry(id: ObjectId, post: Post)

  datatype Store = Store(posts: map<ObjectId, Post>, clock: nat)

  /** No two posts share a creation stamp. */
  predicate UniqueStamps(m: map<ObjectId, Post>)
  {
    forall a, b :: a in m && b in m && m[a].created == m[b].created ==> a == b
  }

  /**
   * The store invariant: creation stamps are unique and all older than the
   * clock, and every post has a non-empty title and content (the schema marks
   * both as required).
   */
  predicate Valid(s: Store)
  {
    && UniqueStamps(s.posts)
    && (forall id :: id in s.posts ==> s.posts[id].created < s.clock)
    && (forall id :: id in s.posts ==> s.posts[id].title != "" && s.posts[id].content != "")
  }

  /** `id` names a post created no earlier than any other post in `m`. */
  predicate IsNewest(m: map<ObjectId, Post>, id: ObjectId)
  {
    id in m && forall j :: j in m ==> m[j].created <= m[id].created
  }

  /**
   * `es` lists every post of `m` exactly once, with its identifier, newest
   * creation first.
   */
  predicate NewestFirst(m: map<ObjectId, Post>, es: seq<Entry>)
  {
    Drawn(m, es) && Covers(m, es) && Descending(es)
  }

  /** As many entries as posts, each one a stored post under its own identifier. */
  predicate Drawn(m: map<ObjectId, Post>, es: seq<Entry>)
  {
    && |es| == |m|
    && (forall i :: 0 <= i < |es| ==> es[i].id in m && m[es[i].id] == es[i].post)
  }

  /** Every stored post has an entry. */
  predicate Covers(m: map<ObjectId, Post>, es: seq<Entry>)
  {
    forall id :: id in m ==> exists i :: 0 <= i < |es| && es[i].id == id
  }

  /** Creation stamps strictly decrease along the sequence. */
  predicate Descending(es: seq<Entry>)
  {
    forall i, j :: 0 <= i < j < |es| ==> es[i].post.created > es[j].post.created
  }

  lemma {:induction false} NewestExists(m: map<ObjectId, Post>)
    requires m != map[]
    ensures exists id :: IsNewest(m, id)
    decreases |m|
  {
    var k :| k in m;
    var rest := m - {k};
    assert rest.Keys == m.Keys - {k};
    assert forall j :: j in m ==> j == k || j in rest;
    if rest == map[] {
      assert IsNewest(m, k);
    } else {
      NewestExists(rest);
      var n :| IsNewest(rest, n);
      if m[k].created <= m[n].created {
        assert IsNewest(m, n);
      } else {
        assert IsNewest(m, k);
      }
    }
  }

  /** The newest post is unique when creation stamps are. */
  lemma NewestIsUnique(m: map<ObjectId, Post>, a: ObjectId, b: ObjectId)
    requires UniqueStamps(m) && IsNewest(m, a) && IsNewest(m, b)
    ensures a == b
  {
  }

  /** All posts, newest creation first: the store's query sorted by `createdAt` descending. */
  function Listing(m: map<ObjectId, Post>): (es: seq<Entry>)
    requires UniqueStamps(m)
    ensures NewestFirst(m, es)
    decreases |m|
  {
    if m == map[] then []
    else
      NewestExists(m);
      var k :| IsNewest(m, k);
      var rest := m - {k};
      assert rest.Keys == m.Keys - {k};
      var tail := Listing(rest);
      PrependNewest(m, k, tail);
      [Entry(k, m[k])] + tail
  }

  /** Putting the newest post in front of a listing of the others lists them all. */
  lemma PrependNewest(m: map<ObjectId, Post>, k: ObjectId, tail: seq<Entry>)
    requires UniqueStamps(m) && IsNewest(m, k)
    requires NewestFirst(m - {k}, tail)
    ensures NewestFirst(m, [Entry(k, m[k])] + tail)
  {
    PrependDrawn(m, k, tail);
    PrependCovers(m, k, tail);
    forall i | 0 <= i < |tail|
      ensures tail[i].post.created < m[k].created
    {
      assert tail[i].id in m - {k};
      OlderThanNewest(m, k, tail[i].id);
    }
    PrependOrdered(Entry(k, m[k]), tail);
  }

  lemma PrependDrawn(m: map<ObjectId, Post>, k: ObjectId, tail: seq<Entry>)
    requires k in m && Drawn(m - {k}, tail)
    ensures Drawn(m, [Entry(k, m[k])] + tail)
  {
  }

  lemma PrependCovers(m: map<ObjectId, Post>, k: ObjectId, tail: seq<Entry>)
    requires k in m && Covers(m - {k}, tail)
    ensures Covers(m, [Entry(k, m[k])] + tail)
  {
    var rest := m - {k};
    var es := [Entry(k, m[k])] + tail;
    forall id | id in m
      ensures exists i :: 0 <= i < |es| && es[i].id == id
    {
      if id == k {
        assert es[0].id == id;
      } else {
        assert id in rest;
        var i :| 0 <= i < |tail| && tail[i].id == id;
        assert es[i + 1].id == id;
      }
    }
  }

  lemma PrependOrdered(e: Entry, tail: seq<Entry>)
    requires Descending(tail)
    requires forall i :: 0 <= i < |tail| ==> tail[i].post.created < e.post.created
    ensures Descending([e] + tail)
  {
  }

  /** With unique stamps, every post other than the newest is strictly older. */
  lemma OlderThanNewest(m: map<ObjectId, Post>, k: ObjectId, id: ObjectId)
    requires UniqueStamps(m) && IsNewest(m, k)
    requires id in m && id != k
    ensures m[id].created < m[k].created
  {
  }

  /** Adding a post newer than every stored one puts it at the head of the listing. */
  lemma ListingOfNewer(m: map<ObjectId, Post>, id: ObjectId, p: Post)
    requires UniqueStamps(m) && id !in m
    requires forall j :: j in m ==> m[j].created < p.created
    ensures UniqueStamps(m[id := p])
    ensures Listing(m[id := p]) == [Entry(id, p)] + Listing(m)
  {
    var m' := m[id := p];
    assert IsNewest(m', id);
    assert m' - {id} == m;
    forall k | IsNewest(m', k)
      ensures k == id
    {
      NewestIsUnique(m', k, id);
    }
  }
}
