/**
 * The post routes: paginated listing through the Redis cache, lookup by
 * id, and create, update and delete with their ownership gate and cache
 * invalidation, over an abstract `posts` table kept newest first.
 */
module PostRoutes {
  import opened Wrappers
  import opened Strings
  import opened Lists
  import opened Redis

  /** A row of `posts`; timestamps and the joined author columns are not modelled. */
  datatype Post = Post(id: string, title: string, content: string, authorId: string)

  /** What the route handlers store in Redis: a listing page or one post. */
  datatype CachedValue = PageValue(posts: seq<Post>, total: nat) | PostValue(post: Post)

  /** The JSON answer of a post route. */
  datatype Reply =
    | Listing(posts: seq<Post>, page: int, limit: int, total: nat, totalPages: int)
    | Single(status: nat, post: Post)
    | Deleted
    | Error(status: nat, error: string)

  const DefaultPage := 1
  const DefaultLimit := 10
  const ListTtl := 300
  const PostTtl := 600
  /** The key the list invalidation deletes: taken literally by `DEL`, not as a pattern. */
  const ListPattern := "posts:*"

  // ------------------------------------------------------------ pagination

  /** `parseInt(q) || fallback`: an absent, non-numeric or zero value gives the fallback. */
  function QueryNumber(q: Option<string>, fallback: int): (n: int)
    ensures q.None? || ParseInt(q.value).None? || ParseInt(q.value) == Some(0) ==> n == fallback
    ensures q.Some? && ParseInt(q.value).Some? && ParseInt(q.value) != Some(0) ==> n == ParseInt(q.value).value
    ensures fallback != 0 ==> n != 0
  {
    if q.None? then fallback
    else match ParseInt(q.value)
      case None => fallback
      case Some(v) => if v == 0 then fallback else v
  }

  /** A page number or limit written as a decimal integer is read back as written. */
  lemma QueryNumberOfText(n: int, fallback: int)
    requires n != 0
    ensures QueryNumber(Some(IntToString(n)), fallback) == n
  {
    ParseIntOfIntToString(n);
  }

  /**
   * `(page - 1) * limit`. It is negative only for a page below 1 with a
   * positive limit, or a page above 1 with a negative limit; Postgres then
   * refuses the `OFFSET`.
   */
  function Offset(page: int, limit: int): (offset: int)
    ensures page >= 1 && limit >= 0 ==> offset >= 0
    ensures page < 1 && limit > 0 ==> offset < 0
    ensures page > 1 && limit < 0 ==> offset < 0
    ensures page == 1 ==> offset == 0
  {
    (page - 1) * limit
  }

  /** `Math.ceil(total / limit)`, characterised by the bounds a ceiling satisfies. */
  function TotalPages(total: nat, limit: int): (pages: int)
    requires limit != 0
    ensures limit > 0 ==> (pages - 1) * limit < total <= pages * limit
    ensures limit < 0 ==> pages * limit <= total < (pages - 1) * limit
  {
    if limit > 0 then (total + limit - 1) / limit
    else -(total / -limit)
  }

  /** The rows `LIMIT limit OFFSET offset` returns. */
  function Window(table: seq<Post>, offset: nat, limit: nat): (rows: seq<Post>)
    ensures |rows| <= limit
    ensures offset + |rows| <= |table| || rows == []
    ensures forall i :: 0 <= i < |rows| ==> rows[i] == table[offset + i]
    ensures offset + limit <= |table| ==> |rows| == limit
  {
    if offset >= |table| then []
    else table[offset..if offset + limit < |table| then offset + limit else |table|]
  }

  /**
   * Every post lies on exactly the page its position says, and that page is
   * within the page count the listing reports.
   */
  lemma EveryPostOnItsPage(table: seq<Post>, limit: int, i: nat)
    requires limit > 0 && i < |table|
    ensures var page := i / limit + 1;
      1 <= page <= TotalPages(|table|, limit)
      && Offset(page, limit) >= 0
      && i % limit < |Window(table, Offset(page, limit), limit)|
      && Window(table, Offset(page, limit), limit)[i % limit] == table[i]
  {
    var page := i / limit + 1;
    PageWithinCount(|table|, limit, i);
    var offset := Offset(page, limit);
    OffsetOfPage(limit, i);
    assert offset + i % limit == i;
  }

  /** The page of position `i` is within the page count of a table longer than `i`. */
  lemma PageWithinCount(total: nat, limit: int, i: nat)
    requires limit > 0 && i < total
    ensures i / limit + 1 <= TotalPages(total, limit)
  {
    var q := i / limit;
    var pages := TotalPages(total, limit);
    assert q * limit <= i < pages * limit;
  }

  /** The page of position `i` starts at `i` less its remainder. */
  lemma OffsetOfPage(limit: int, i: nat)
    requires limit > 0
    ensures Offset(i / limit + 1, limit) + i % limit == i
    ensures 0 <= i % limit < limit
  {
    assert (i / limit + 1 - 1) * limit == (i / limit) * limit;
  }

  // ------------------------------------------------------------ cache keys

  /** `posts:page:${page}:limit:${limit}` */
  function PageKey(page: int, limit: int): (key: string)
    ensures StartsWith(key, "posts:page:")
    ensures key[|"posts:page:"|..] == IntToString(page) + ":limit:" + IntToString(limit)
  {
    "posts:page:" + IntToString(page) + ":limit:" + IntToString(limit)
  }

  /** `post:${id}` */
  function PostKey(id: string): (key: string)
    ensures StartsWith(key, "post:") && key[|"post:"|..] == id
  {
    "post:" + id
  }

  /** The listing key is the five fields `posts`, `page`, the page, `limit`, the limit, joined by ':'. */
  lemma PageKeyIsJoin(a: string, b: string)
    ensures "posts:page:" + a + ":limit:" + b == Join(["posts", "page", a, "limit", b], ':')
  {
    var parts := ["posts", "page", a, "limit", b];
    assert parts[1..][1..][1..][1..] == [b];
    assert Join(parts[1..][1..][1..], ':') == "limit" + [':'] + b;
    assert Join(parts[1..][1..], ':') == a + [':'] + ("limit" + [':'] + b);
    assert Join(parts[1..], ':') == "page" + [':'] + (a + [':'] + ("limit" + [':'] + b));
    assert Join(parts, ':') == "posts" + [':'] + ("page" + [':'] + (a + [':'] + ("limit" + [':'] + b)));
  }

  lemma PageKeyFields(page: int, limit: int)
    ensures Split(PageKey(page, limit), ':') == ["posts", "page", IntToString(page), "limit", IntToString(limit)]
  {
    var parts := ["posts", "page", IntToString(page), "limit", IntToString(limit)];
    IntToStringChars(page, ':');
    IntToStringChars(limit, ':');
    PageKeyIsJoin(IntToString(page), IntToString(limit));
    SplitJoin(parts, ':');
  }

  /** Distinct pages or limits never share a listing key. */
  lemma PageKeyInjective(p1: int, l1: int, p2: int, l2: int)
    requires PageKey(p1, l1) == PageKey(p2, l2)
    ensures p1 == p2 && l1 == l2
  {
    PageKeyFields(p1, l1);
    PageKeyFields(p2, l2);
    IntToStringInjective(p1, p2);
    IntToStringInjective(l1, l2);
  }

  /** A post's key is never a listing key. */
  lemma PostKeyNotPageKey(id: string, page: int, limit: int)
    ensures PostKey(id) != PageKey(page, limit)
  {
    assert PostKey(id)[4] == ':';
    assert PageKey(page, limit)[4] == 's';
  }

  /**
   * Deleting `posts:*` removes no listing page, although every listing key
   * matches `posts:*` read as a pattern: cached pages outlive every write
   * and expire only through their TTL.
   */
  lemma ListInvalidationKeepsPages(store: map<string, Entry<CachedValue>>, page: int, limit: int)
    ensures PageKey(page, limit) != ListPattern
    ensures Matches(ListPattern, PageKey(page, limit))
    ensures Read(store - {ListPattern}, PageKey(page, limit)) == Read(store, PageKey(page, limit))
  {
    var key := PageKey(page, limit);
    assert key[6] == 'p' && ListPattern[6] == '*';
    PageKeyMatchesListPattern(page, limit);
  }

  lemma PageKeyMatchesListPattern(page: int, limit: int)
    ensures Matches(ListPattern, PageKey(page, limit))
  {
    var rest := "page:" + IntToString(page) + ":limit:" + IntToString(limit);
    PageKeyAfterPosts(page, limit);
    ListPatternIsPrefixStar();
    MatchesPrefixStar("posts:", rest);
  }

  lemma PageKeyAfterPosts(page: int, limit: int)
    ensures PageKey(page, limit) == "posts:" + ("page:" + IntToString(page) + ":limit:" + IntToString(limit))
  {
  }

  lemma ListPatternIsPrefixStar()
    ensures ListPattern == "posts:" + "*" && Literal("posts:")
  {
  }

  // ------------------------------------------------------------ posts table

  /** Text equality of ids, as the client compares the ids the server sent it. */
  function IdIs(id: string): Post -> bool {
    (p: Post) => p.id == id
  }

  function IdIsNot(id: string): Post -> bool {
    (p: Post) => p.id != id
  }

  /**
   * `posts.id` is a `uuid` column, so `WHERE id = $1` compares uuid values,
   * not text. `uuid` is Postgres's reading of a text as a uuid value (None
   * when the text is not one); two texts name the same post exactly when
   * they read as the same value, whatever their case, braces or hyphens.
   */
  predicate SameUuid(uuid: string -> Option<string>, a: string, b: string) {
    uuid(a).Some? && uuid(a) == uuid(b)
  }

  /** `WHERE id = $1` */
  function IdMatches(uuid: string -> Option<string>, id: string): Post -> bool {
    (p: Post) => SameUuid(uuid, p.id, id)
  }

  function IdMatchesNot(uuid: string -> Option<string>, id: string): Post -> bool {
    (p: Post) => !SameUuid(uuid, p.id, id)
  }

  /** Every stored id is a uuid and no two rows hold the same uuid (the primary key). */
  predicate UniqueIds(uuid: string -> Option<string>, table: seq<Post>) {
    (forall i :: 0 <= i < |table| ==> uuid(table[i].id).Some?)
    && forall i, j :: 0 <= i < j < |table| ==> !SameUuid(uuid, table[i].id, table[j].id)
  }

  /** `SELECT … FROM posts WHERE id = $1` */
  function FindPost(uuid: string -> Option<string>, table: seq<Post>, id: string): Option<Post> {
    First(table, IdMatches(uuid, id))
  }

  /** The ownership gate of update and delete: a missing post is reported before a foreign one. */
  function OwnerGate(uuid: string -> Option<string>, table: seq<Post>, id: string, userId: string): (e: Option<Reply>)
    ensures e == Some(Error(404, "Post not found")) <==>
      forall i :: 0 <= i < |table| ==> !SameUuid(uuid, table[i].id, id)
    ensures e == Some(Error(403, "Not authorized")) <==>
      exists p :: FindPost(uuid, table, id) == Some(p) && p.authorId != userId
    ensures e.None? <==> exists p :: FindPost(uuid, table, id) == Some(p) && p.authorId == userId
  {
    match FindPost(uuid, table, id)
    case None => Some(Error(404, "Post not found"))
    case Some(p) => if p.authorId != userId then Some(Error(403, "Not authorized")) else None
  }

  /**
   * In a table of unique ids, any spelling of a stored post's uuid finds
   * that post, and only that post matches it.
   */
  lemma FindPostUnique(uuid: string -> Option<string>, table: seq<Post>, k: nat, id: string)
    requires UniqueIds(uuid, table) && k < |table| && SameUuid(uuid, table[k].id, id)
    ensures FindPost(uuid, table, id) == Some(table[k])
    ensures forall i :: 0 <= i < |table| && SameUuid(uuid, table[i].id, id) ==> i == k
  {
    var r := FindPost(uuid, table, id);
    var m :| 0 <= m < |table| && table[m] == r.value && IdMatches(uuid, id)(table[m])
             && forall j :: 0 <= j < m ==> !IdMatches(uuid, id)(table[j]);
    forall i | 0 <= i < |table| && SameUuid(uuid, table[i].id, id) ensures i == k {
      assert SameUuid(uuid, table[i].id, table[k].id);
    }
  }

  /**
   * Two spellings of one uuid are two cache keys: an update or delete
   * through one spelling leaves a post cached under the other in place.
   */
  lemma OtherSpellingStaysCached(store: map<string, Entry<CachedValue>>, used: string, other: string)
    requires used != other
    ensures Read(store - {PostKey(used)} - {ListPattern}, PostKey(other)) == Read(store, PostKey(other))
  {
    assert PostKey(other)[|"post:"|..] == other;
    assert PostKey(used)[|"post:"|..] == used;
    assert PostKey(other)[4] == ':' && ListPattern[4] == 's';
  }

  /** `SET title = COALESCE($1, title), content = COALESCE($2, content)` */
  function Coalesced(p: Post, title: Option<string>, content: Option<string>): (q: Post)
    ensures q.id == p.id && q.authorId == p.authorId
    ensures q.title == (if title.Some? then title.value else p.title)
    ensures q.content == (if content.Some? then content.value else p.content)
  {
    p.(title := title.GetOr(p.title), content := content.GetOr(p.content))
  }

  /** `content || ''`: an absent or empty content is stored as the empty string. */
  function CreateContent(content: Option<string>): (c: string)
    ensures Truthy(content) ==> c == content.value
    ensures !Truthy(content) ==> c == ""
  {
    if Truthy(content) then content.value else ""
  }

  /** An update touches only the post with that id and keeps the table's length and order. */
  lemma UpdateTouchesOnlyThatPost(uuid: string -> Option<string>, table: seq<Post>, k: nat, id: string, np: Post)
    requires UniqueIds(uuid, table) && k < |table| && SameUuid(uuid, table[k].id, id) && np.id == table[k].id
    ensures var t := ReplaceWhere(table, IdMatches(uuid, id), np);
      |t| == |table| && UniqueIds(uuid, t) && t[k] == np
      && forall i :: 0 <= i < |table| && i != k ==> t[i] == table[i]
  {
    var t := ReplaceWhere(table, IdMatches(uuid, id), np);
    FindPostUnique(uuid, table, k, id);
    forall i, j | 0 <= i < j < |t| ensures !SameUuid(uuid, t[i].id, t[j].id) {
      assert !SameUuid(uuid, table[i].id, table[j].id);
    }
  }

  /** A delete removes every post with that uuid and keeps the others in order. */
  lemma DeleteRemovesExactly(uuid: string -> Option<string>, table: seq<Post>, id: string)
    ensures var t := Filter(table, IdMatchesNot(uuid, id));
      Subseq(t, table)
      && (forall p :: p in t ==> !SameUuid(uuid, p.id, id))
      && (forall p :: p in table && !SameUuid(uuid, p.id, id) ==> p in t)
  {
    FilterIsSubseq(table, IdMatchesNot(uuid, id));
  }

  /** Keys that hold a listing page hold a page, and keys that hold a post hold a post. */
  ghost predicate CacheTyped(store: map<string, Entry<CachedValue>>) {
    (forall p, l :: PageKey(p, l) in store && store[PageKey(p, l)].data.Json? ==>
        store[PageKey(p, l)].data.value.PageValue?)
    && (forall id :: PostKey(id) in store && store[PostKey(id)].data.Json? ==>
        store[PostKey(id)].data.value.PostValue?)
  }

  /** The `posts` table together with the Redis cache in front of it. */
  class PostService {
    var table: seq<Post>
    const cache: Cache<CachedValue>
    /** Postgres's reading of a text as a `uuid` value, which `WHERE id = $1` compares. */
    const uuid: string -> Option<string>

    ghost predicate Valid()
      reads this, cache
    {
      UniqueIds(uuid, table) && CacheTyped(cache.store)
    }

    constructor (c: Cache<CachedValue>, uuidOf: string -> Option<string>)
      requires CacheTyped(c.store)
      ensures Valid() && table == [] && cache == c && uuid == uuidOf
    {
      table := [];
      cache := c;
      uuid := uuidOf;
    }

    /**
     * `GET /posts?page&limit`. A cached page answers without reading the
     * table; a miss reads the window, caches it for 300 seconds and answers.
     * A negative offset or limit makes the query fail.
     */
    method List(pageQuery: Option<string>, limitQuery: Option<string>) returns (reply: Reply)
      requires Valid()
      modifies cache
      ensures Valid() && table == old(table)
      ensures var page := QueryNumber(pageQuery, DefaultPage);
        var limit := QueryNumber(limitQuery, DefaultLimit);
        var key := PageKey(page, limit);
        var offset := Offset(page, limit);
        var hit := Read(old(cache.store), key);
        if hit.Some? && hit.value.PageValue? then
          reply == Listing(hit.value.posts, page, limit, hit.value.total, TotalPages(hit.value.total, limit))
          && cache.store == old(cache.store)
        else if offset < 0 || limit < 0 then
            reply == Error(500, "Failed to fetch posts") && cache.store == old(cache.store)
          else
            var rows := Window(table, offset, limit);
            reply == Listing(rows, page, limit, |table|, TotalPages(|table|, limit))
            && cache.store == old(cache.store)[key := Entry(Json(PageValue(rows, |table|)), ListTtl)]
    {
      var page := QueryNumber(pageQuery, DefaultPage);
      var limit := QueryNumber(limitQuery, DefaultLimit);
      var offset := Offset(page, limit);
      var key := PageKey(page, limit);
      var cached := cache.Get(key);
      if cached.Some? && cached.value.PageValue? {
        return Listing(cached.value.posts, page, limit, cached.value.total,
                       TotalPages(cached.value.total, limit));
      }
      if offset < 0 || limit < 0 {
        return Error(500, "Failed to fetch posts");
      }
      var rows := Window(table, offset, limit);
      var total := |table|;
      forall id | true ensures PostKey(id) != key {
        PostKeyNotPageKey(id, page, limit);
      }
      cache.Set(key, PageValue(rows, total), ListTtl);
      reply := Listing(rows, page, limit, total, TotalPages(total, limit));
    }

    /**
     * `GET /posts/:id`: from the cache under the id as the request spells
     * it, else from the table by uuid value, caching a found post for 600
     * seconds under that same spelling. An id Postgres cannot read as a
     * uuid makes the query throw.
     */
    method GetById(id: string) returns (reply: Reply)
      requires Valid()
      modifies cache
      ensures Valid() && table == old(table)
      ensures var hit := Read(old(cache.store), PostKey(id));
        if hit.Some? && hit.value.PostValue? then
          reply == Single(200, hit.value.post) && cache.store == old(cache.store)
        else if uuid(id).None? then
          reply == Error(500, "Failed to fetch post") && cache.store == old(cache.store)
        else
          match FindPost(uuid, table, id)
          case None => reply == Error(404, "Post not found") && cache.store == old(cache.store)
          case Some(p) =>
            reply == Single(200, p)
            && cache.store == old(cache.store)[PostKey(id) := Entry(Json(PostValue(p)), PostTtl)]
    {
      var key := PostKey(id);
      var cached := cache.Get(key);
      if cached.Some? && cached.value.PostValue? {
        return Single(200, cached.value.post);
      }
      if uuid(id).None? {
        return Error(500, "Failed to fetch post");
      }
      var found := FindPost(uuid, table, id);
      if found.None? {
        return Error(404, "Post not found");
      }
      forall p, l | true ensures PageKey(p, l) != key {
        PostKeyNotPageKey(id, p, l);
      }
      cache.Set(key, PostValue(found.value), PostTtl);
      reply := Single(200, found.value);
    }

    /**
     * `POST /posts` by `authorId`; `newId` is the id the database generates.
     * The new post becomes the newest; the listing invalidation deletes only
     * the literal key `posts:*`.
     */
    method Create(authorId: string, title: string, content: Option<string>, newId: string)
      returns (reply: Reply)
      requires Valid()
      modifies this, cache
      ensures Valid()
      ensures var p := Post(newId, title, CreateContent(content), authorId);
        if uuid(newId).None? || exists i :: 0 <= i < |old(table)| && SameUuid(uuid, old(table)[i].id, newId) then
          reply == Error(500, "Failed to create post")
          && table == old(table) && cache.store == old(cache.store)
        else
          reply == Single(201, p) && table == [p] + old(table)
          && cache.store == old(cache.store) - {ListPattern}
    {
      if uuid(newId).None? || exists i :: 0 <= i < |table| && SameUuid(uuid, table[i].id, newId) {
        return Error(500, "Failed to create post");
      }
      var p := Post(newId, title, CreateContent(content), authorId);
      table := [p] + table;
      cache.Delete(ListPattern);
      reply := Single(201, p);
    }

    /**
     * `PUT /posts/:id` by `userId`: 404, then 403, then the partial update
     * of the post with that uuid, and invalidation of the key spelt as in
     * the request.
     */
    method Update(userId: string, id: string, title: Option<string>, content: Option<string>)
      returns (reply: Reply)
      requires Valid()
      modifies this, cache
      ensures Valid()
      ensures uuid(id).None? ==>
        reply == Error(500, "Failed to update post") && table == old(table) && cache.store == old(cache.store)
      ensures uuid(id).Some? ==> var gate := OwnerGate(uuid, old(table), id, userId);
        if gate.Some? then
          reply == gate.value && table == old(table) && cache.store == old(cache.store)
        else
          var np := Coalesced(FindPost(uuid, old(table), id).value, title, content);
          reply == Single(200, np)
          && table == ReplaceWhere(old(table), IdMatches(uuid, id), np)
          && cache.store == old(cache.store) - {PostKey(id)} - {ListPattern}
    {
      if uuid(id).None? {
        return Error(500, "Failed to update post");
      }
      var gate := OwnerGate(uuid, table, id, userId);
      if gate.Some? {
        return gate.value;
      }
      var found := FindPost(uuid, table, id).value;
      var k :| 0 <= k < |table| && table[k] == found && IdMatches(uuid, id)(table[k]);
      var np := Coalesced(found, title, content);
      UpdateTouchesOnlyThatPost(uuid, table, k, id, np);
      table := ReplaceWhere(table, IdMatches(uuid, id), np);
      cache.Delete(PostKey(id));
      cache.Delete(ListPattern);
      reply := Single(200, np);
    }

    /**
     * `DELETE /posts/:id` by `userId`: 404, then 403, then removal of the
     * post with that uuid and invalidation. The route validates nothing, so
     * an id Postgres cannot read as a uuid makes the first query throw, and
     * the reply is 500.
     */
    method Delete(userId: string, id: string) returns (reply: Reply)
      requires Valid()
      modifies this, cache
      ensures Valid()
      ensures uuid(id).None? ==>
        reply == Error(500, "Failed to delete post") && table == old(table) && cache.store == old(cache.store)
      ensures uuid(id).Some? ==> var gate := OwnerGate(uuid, old(table), id, userId);
        if gate.Some? then
          reply == gate.value && table == old(table) && cache.store == old(cache.store)
        else
          reply == Deleted
          && table == Filter(old(table), IdMatchesNot(uuid, id))
          && cache.store == old(cache.store) - {PostKey(id)} - {ListPattern}
    {
      if uuid(id).None? {
        return Error(500, "Failed to delete post");
      }
      var gate := OwnerGate(uuid, table, id, userId);
      if gate.Some? {
        return gate.value;
      }
      var rest := Filter(table, IdMatchesNot(uuid, id));
      DeleteRemovesExactly(uuid, table, id);
      SubseqUniqueIds(uuid, rest, table);
      table := rest;
      cache.Delete(PostKey(id));
      cache.Delete(ListPattern);
      reply := Deleted;
    }
  }

  lemma {:induction false} SubseqUniqueIds(uuid: string -> Option<string>, r: seq<Post>, s: seq<Post>)
    requires Subseq(r, s) && UniqueIds(uuid, s)
    ensures UniqueIds(uuid, r)
    decreases |s|
  {
    if s != [] {
      if r != [] && r[0] == s[0] && Subseq(r[1..], s[1..]) {
        SubseqUniqueIds(uuid, r[1..], s[1..]);
        forall j | 0 < j < |r|
          ensures !SameUuid(uuid, r[0].id, r[j].id)
        {
          assert r[j] in r[1..];
          SubseqMembers(r[1..], s[1..], r[j]);
          var k :| 0 <= k < |s[1..]| && s[1..][k] == r[j];
          assert s[k + 1] == r[j];
        }
      } else {
        SubseqUniqueIds(uuid, r, s[1..]);
      }
    }
  }
}
