/**
 * The blog handlers over an in-memory table of blogs keyed by id: create with field
 * checks and defaults, lookup, update and delete restricted to the author, and the two
 * paginated listings (all blogs, with optional text search and a chosen sort; and the
 * current user's blogs, newest first).
 */
module BlogController {
  import opened Base
  import opened JsString
  import opened BlogModel

  const MSG_REQUIRED: string := "Title and content are required"
  const MSG_NOT_FOUND: string := "Blog not found"
  const MSG_EDIT_OWN: string := "You can only edit your own blogs"
  const MSG_DELETE_OWN: string := "You can only delete your own blogs"

  /** The JSON body of a create or update request; a field may be missing. */
  datatype Body = Body(title: Option<string>, content: Option<string>, tags: Option<seq<string>>, status: Option<string>)

  /** An error a handler throws: an `ApiError` with its status, or the schema's
      validation error (whose status the error handler decides). */
  datatype Failure = Thrown(error: ApiError) | ValidationError(violations: set<Violation>)

  /** JavaScript truthiness of an optional string: present and non-empty. */
  predicate Truthy(s: Option<string>)
    ensures Truthy(s) <==> s != None && s != Some("")
  {
    s.Some? && s.value != ""
  }

  /** `s || fallback` for an optional string. */
  function Or(s: Option<string>, fallback: string): (r: string)
    ensures Truthy(s) ==> r == s.value
    ensures !Truthy(s) ==> r == fallback
    ensures fallback != "" ==> r != ""
  {
    if Truthy(s) then s.value else fallback
  }

  /** `createBlog` before the insertion: 400 unless title and content are truthy; then the
      document is built with the current user as author, `tags || []` and
      `status || "published"`, and must pass the schema's validators. */
  function NewBlog(id: BlogId, author: UserId, body: Body, now: int): (r: Result<Blog, Failure>)
    ensures r == Err(Thrown(ApiError(400, MSG_REQUIRED))) <==> !Truthy(body.title) || !Truthy(body.content)
    ensures r.Err? && r.error.ValidationError? ==> r.error.violations != {}
    ensures r.Ok? ==>
      && ValidBlog(r.value)
      && r.value.id == id && r.value.author == author
      && r.value.title == Trim(body.title.value) && r.value.content == body.content.value
      && r.value.tags == (if body.tags.Some? then TrimAll(body.tags.value) else [])
      && r.value.status == Or(body.status, DEFAULT_STATUS)
      && r.value.createdAt == now && r.value.updatedAt == now
  {
    if !Truthy(body.title) || !Truthy(body.content) then Err(Thrown(ApiError(400, MSG_REQUIRED)))
    else
      var fields := Fields(body.title.value, body.content.value,
                           if body.tags.Some? then body.tags.value else [],
                           Some(Or(body.status, DEFAULT_STATUS)));
      var b := Cast(id, fields, author, now);
      CastValidIff(id, fields, author, now);
      var violations := SchemaViolations(b);
      if violations != {} then Err(ValidationError(violations)) else Ok(b)
  }

  /** With title and content present, a create succeeds exactly when the title is not
      blank, its trimmed form fits in 200 UTF-16 units, there is an author and the status
      is allowed. */
  lemma CreateAcceptedIff(id: BlogId, author: UserId, body: Body, now: int)
    requires Truthy(body.title) && Truthy(body.content)
    ensures NewBlog(id, author, body, now).Ok? <==>
      && !AllWhitespace(body.title.value)
      && Utf16Length(Trim(body.title.value)) <= TITLE_MAX_LENGTH
      && author != ""
      && AllowedStatus(Or(body.status, DEFAULT_STATUS))
  {
    TrimEmptyIff(body.title.value);
  }

  /** The `$set` document of `updateBlog` as the source writes it: each of title, content,
      tags and status takes the new value when truthy (any array is), else the stored one; the
      setters trim; `updatedAt` becomes the update time. No validator runs. */
  function MergeUpdate(stored: Blog, body: Body, now: int): (m: Blog)
    ensures IsTrimmed(m.title) && TagsTrimmed(m.tags)
    ensures m.id == stored.id && m.author == stored.author && m.createdAt == stored.createdAt
    ensures m.updatedAt == now
    ensures stored.content != "" ==> m.content != ""
  {
    stored.(title := Trim(Or(body.title, stored.title)),
         content := Or(body.content, stored.content),
         tags := TrimAll(if body.tags.Some? then body.tags.value else stored.tags),
         status := Or(body.status, stored.status),
         updatedAt := now)
  }

  /** The field fallback of `updateBlog`: a field missing or falsy in the body keeps its
      stored value exactly; id, author and creation time never change. */
  lemma MergeFieldFallback(stored: Blog, body: Body, now: int)
    requires IsTrimmed(stored.title) && TagsTrimmed(stored.tags)
    ensures
      var m := MergeUpdate(stored, body, now);
      && m.title == (if Truthy(body.title) then Trim(body.title.value) else stored.title)
      && m.content == (if Truthy(body.content) then body.content.value else stored.content)
      && m.tags == (if body.tags.Some? then TrimAll(body.tags.value) else stored.tags)
      && m.status == (if Truthy(body.status) then body.status.value else stored.status)
      && m.id == stored.id && m.author == stored.author && m.createdAt == stored.createdAt
      && m.updatedAt == now
  {
    TrimFixesTrimmed(stored.title);
    TrimAllTrimmed(stored.tags);
  }

  /** A stored blog that satisfies the schema. */
  function SampleBlog(): (b: Blog)
    ensures ValidBlog(b)
  {
    var b := Blog(0, "Hello", "World", "u1", [], STATUS_PUBLISHED, 0, 0);
    assert b.title[0] == 'H' && b.title[|b.title| - 1] == 'o';
    b
  }

  /** The update as written stores a status outside the enumeration. */
  lemma MergeUpdateStoresUnknownStatus()
    ensures ValidBlog(SampleBlog())
    ensures !ValidBlog(MergeUpdate(SampleBlog(), Body(None, None, None, Some("archived")), 1))
  {
    var unknown := MergeUpdate(SampleBlog(), Body(None, None, None, Some("archived")), 1);
    assert unknown.status == "archived";
  }

  /** The update as written stores an empty title: a title of spaces is truthy, so it is
      taken, and the setter trims it to nothing. */
  lemma MergeUpdateStoresBlankTitle()
    ensures ValidBlog(SampleBlog())
    ensures !ValidBlog(MergeUpdate(SampleBlog(), Body(Some("   "), None, None, None), 1))
  {
    assert AllWhitespace("   ");
    TrimEmptyIff("   ");
  }

  /** The update with the schema's validators run on the merged document, as
      `runValidators` would: it is rejected when it would break the schema and is
      otherwise exactly the merge. */
  function ValidatedUpdate(stored: Blog, body: Body, now: int): (r: Result<Blog, Failure>)
    ensures r.Ok? <==> ValidBlog(MergeUpdate(stored, body, now))
    ensures r.Ok? ==> r.value == MergeUpdate(stored, body, now)
    ensures r.Err? ==> r.error.ValidationError? && r.error.violations != {}
  {
    var m := MergeUpdate(stored, body, now);
    var violations := SchemaViolations(m);
    if violations != {} then Err(ValidationError(violations)) else Ok(m)
  }

  /** Every stored blog sits under its own id. */
  predicate Keyed(blogs: map<BlogId, Blog>) {
    forall k :: k in blogs ==> blogs[k].id == k
  }

  /** The blogs with id below `n`, in id (insertion) order: the collection's natural order. */
  function Listing(blogs: map<BlogId, Blog>, n: nat): (r: seq<Blog>)
    requires Keyed(blogs)
    ensures forall i :: 0 <= i < |r| ==> r[i].id < n && r[i].id in blogs && blogs[r[i].id] == r[i]
  {
    if n == 0 then []
    else Listing(blogs, n - 1) + (if n - 1 in blogs then [blogs[n - 1]] else [])
  }

  /** The listing holds every stored blog below the bound, in increasing id order. */
  lemma {:induction false} ListingCompleteAndOrdered(blogs: map<BlogId, Blog>, n: nat)
    requires Keyed(blogs)
    ensures forall k :: 0 <= k < n && k in blogs ==> blogs[k] in Listing(blogs, n)
    ensures forall i, j :: 0 <= i < j < |Listing(blogs, n)| ==> Listing(blogs, n)[i].id < Listing(blogs, n)[j].id
  {
    if n > 0 {
      ListingCompleteAndOrdered(blogs, n - 1);
      var prev := Listing(blogs, n - 1);
      var last := if n - 1 in blogs then [blogs[n - 1]] else [];
      assert Listing(blogs, n) == prev + last;
      forall k | 0 <= k < n && k in blogs ensures blogs[k] in prev + last {
        if k < n - 1 {
          assert blogs[k] in prev;
        } else {
          assert (prev + last)[|prev|] == blogs[k];
        }
      }
    }
  }

  /** The elements of `s` that satisfy `p`, in order. */
  function Filter(s: seq<Blog>, p: Blog -> bool): (r: seq<Blog>)
    ensures |r| <= |s|
    ensures forall b :: b in r <==> b in s && p(b)
  {
    if s == [] then [] else (if p(s[0]) then [s[0]] else []) + Filter(s[1..], p)
  }

  lemma {:induction false} FilterConcat(a: seq<Blog>, b: seq<Blog>, p: Blog -> bool)
    ensures Filter(a + b, p) == Filter(a, p) + Filter(b, p)
  {
    if a == [] {
      assert a + b == b;
    } else {
      assert (a + b)[0] == a[0];
      assert (a + b)[1..] == a[1..] + b;
      FilterConcat(a[1..], b, p);
    }
  }

  /** The ids below `n` whose blog satisfies `p`. */
  function MatchingIds(blogs: map<BlogId, Blog>, n: nat, p: Blog -> bool): set<BlogId> {
    set k | k in blogs && k < n && p(blogs[k])
  }

  /** Extending the bound by one id adds at most that id to the matching set. */
  lemma MatchingIdsStep(blogs: map<BlogId, Blog>, n: nat, p: Blog -> bool)
    ensures |MatchingIds(blogs, n + 1, p)|
         == |MatchingIds(blogs, n, p)| + (if n in blogs && p(blogs[n]) then 1 else 0)
  {
    var below := MatchingIds(blogs, n, p);
    assert n !in below;
    if n in blogs && p(blogs[n]) {
      assert MatchingIds(blogs, n + 1, p) == below + {n};
    } else {
      assert MatchingIds(blogs, n + 1, p) == below;
    }
  }

  /** Extending the listing by one id adds at most that id's blog to the filtered listing. */
  lemma FilterListingStep(blogs: map<BlogId, Blog>, n: nat, p: Blog -> bool)
    requires Keyed(blogs)
    ensures |Filter(Listing(blogs, n + 1), p)|
         == |Filter(Listing(blogs, n), p)| + (if n in blogs && p(blogs[n]) then 1 else 0)
  {
    var last := if n in blogs then [blogs[n]] else [];
    FilterConcat(Listing(blogs, n), last, p);
    assert |Filter(last, p)| == if n in blogs && p(blogs[n]) then 1 else 0;
  }

  /** `countDocuments(filter)` agrees with the length of the filtered listing. */
  lemma {:induction false} CountMatches(blogs: map<BlogId, Blog>, n: nat, p: Blog -> bool)
    requires Keyed(blogs)
    ensures |Filter(Listing(blogs, n), p)| == |MatchingIds(blogs, n, p)|
  {
    if n > 0 {
      CountMatches(blogs, n - 1, p);
      FilterListingStep(blogs, n - 1, p);
      MatchingIdsStep(blogs, n - 1, p);
    } else {
      assert MatchingIds(blogs, 0, p) == {};
    }
  }

  /** The timestamp a listing can be sorted on. */
  datatype SortField = CreatedAt | UpdatedAt

  function Key(b: Blog, field: SortField): int {
    if field == CreatedAt then b.createdAt else b.updatedAt
  }

  /** `a` may come before `b`: descending (`-1`) or ascending (`1`) in the key. */
  predicate InOrder(a: Blog, b: Blog, field: SortField, desc: bool) {
    if desc then Key(a, field) >= Key(b, field) else Key(a, field) <= Key(b, field)
  }

  predicate SortedBy(s: seq<Blog>, field: SortField, desc: bool) {
    forall i, j :: 0 <= i < j < |s| ==> InOrder(s[i], s[j], field, desc)
  }

  /** The head of a sorted sequence may precede every later element. */
  lemma HeadPrecedesTail(s: seq<Blog>, field: SortField, desc: bool)
    requires s != [] && SortedBy(s, field, desc)
    ensures forall b :: b in s[1..] ==> InOrder(s[0], b, field, desc)
  {
    forall b | b in s[1..] ensures InOrder(s[0], b, field, desc) {
      var k :| 0 <= k < |s[1..]| && s[1..][k] == b;
      assert s[k + 1] == b;
    }
  }

  /** A head that may precede every element of a sorted tail gives a sorted sequence. */
  lemma ConsSorted(h: Blog, rest: seq<Blog>, field: SortField, desc: bool)
    requires SortedBy(rest, field, desc)
    requires forall b :: b in rest ==> InOrder(h, b, field, desc)
    ensures SortedBy([h] + rest, field, desc)
  {
    var r := [h] + rest;
    forall i, j | 0 <= i < j < |r| ensures InOrder(r[i], r[j], field, desc) {
      assert r[j] == rest[j - 1];
      if i > 0 {
        assert r[i] == rest[i - 1];
      }
    }
  }

  /** Puts `x` into a sorted sequence before the first element it may precede. */
  function Insert(x: Blog, s: seq<Blog>, field: SortField, desc: bool): (r: seq<Blog>)
    requires SortedBy(s, field, desc)
    ensures SortedBy(r, field, desc)
    ensures multiset(r) == multiset(s) + multiset{x}
  {
    if s == [] then [x]
    else if InOrder(x, s[0], field, desc) then
      HeadPrecedesTail(s, field, desc);
      assert s == [s[0]] + s[1..];
      assert forall b :: b in s ==> InOrder(x, b, field, desc);
      ConsSorted(x, s, field, desc);
      [x] + s
    else
      var rest := Insert(x, s[1..], field, desc);
      HeadPrecedesTail(s, field, desc);
      assert s == [s[0]] + s[1..];
      forall b | b in rest ensures InOrder(s[0], b, field, desc) {
        assert b in multiset(rest);
        if b != x {
          assert b in multiset(s[1..]);
        }
      }
      ConsSorted(s[0], rest, field, desc);
      [s[0]] + rest
  }

  /** `.sort({ [field]: desc ? -1 : 1 })`; the contract leaves the order of equal keys open. */
  function Sort(s: seq<Blog>, field: SortField, desc: bool): (r: seq<Blog>)
    ensures SortedBy(r, field, desc)
    ensures multiset(r) == multiset(s) && |r| == |s|
  {
    if s == [] then []
    else
      assert s == [s[0]] + s[1..];
      Insert(s[0], Sort(s[1..], field, desc), field, desc)
  }

  /** Entries skipped before a page: `(page - 1) * limit`. */
  function Skip(page: nat, limit: nat): (r: nat)
    requires page >= 1
    ensures r + limit == page * limit
    ensures page == 1 ==> r == 0
  {
    (page - 1) * limit
  }

  /** `.skip((page - 1) * limit).limit(limit)`. */
  function Window(s: seq<Blog>, page: nat, limit: nat): (r: seq<Blog>)
    requires page >= 1 && limit >= 1
    ensures |r| <= limit
    ensures Skip(page, limit) >= |s| ==> r == []
    ensures Skip(page, limit) < |s| ==>
      |r| == (if Skip(page, limit) + limit <= |s| then limit else |s| - Skip(page, limit))
    ensures forall i :: 0 <= i < |r| ==> Skip(page, limit) + i < |s| && r[i] == s[Skip(page, limit) + i]
  {
    var skip := Skip(page, limit);
    if skip >= |s| then []
    else s[skip..if skip + limit <= |s| then skip + limit else |s|]
  }

  /** `Math.ceil(total / limit)` for a positive limit. */
  function CeilDiv(total: nat, limit: nat): (r: nat)
    requires limit >= 1
    ensures r * limit - limit < total <= r * limit
  {
    var r := (total + limit - 1) / limit;
    assert (total + limit - 1) == r * limit + (total + limit - 1) % limit;
    r
  }

  /** A page has entries exactly when its number is at most the number of pages. */
  lemma PageNonEmptyIff(s: seq<Blog>, page: nat, limit: nat)
    requires page >= 1 && limit >= 1
    ensures |Window(s, page, limit)| > 0 <==> page <= CeilDiv(|s|, limit)
  {
    var n := CeilDiv(|s|, limit);
    if page <= n {
      MulMonotone(page - 1, n - 1, limit);
    } else {
      MulMonotone(n, page - 1, limit);
    }
  }

  lemma MulMonotone(a: nat, b: nat, c: nat)
    requires a <= b
    ensures a * c <= b * c
  {
  }

  /** The pagination block of a listing response, with the page of blogs. */
  datatype Page = Page(blogs: seq<Blog>, total: nat, page: nat, limit: nat, totalPages: nat)

  /** A window of a sorted sequence is sorted. */
  lemma WindowSorted(s: seq<Blog>, page: nat, limit: nat, field: SortField, desc: bool)
    requires page >= 1 && limit >= 1 && SortedBy(s, field, desc)
    ensures SortedBy(Window(s, page, limit), field, desc)
  {
    var w := Window(s, page, limit);
    forall i, j | 0 <= i < j < |w| ensures InOrder(w[i], w[j], field, desc) {
      assert w[i] == s[Skip(page, limit) + i] && w[j] == s[Skip(page, limit) + j];
    }
  }

  /** Every entry of a window of the sorted matches is one of the matches. */
  lemma WindowMembers(matching: seq<Blog>, page: nat, limit: nat, field: SortField, desc: bool)
    requires page >= 1 && limit >= 1
    ensures forall i :: 0 <= i < |Window(Sort(matching, field, desc), page, limit)| ==>
      Window(Sort(matching, field, desc), page, limit)[i] in matching
  {
    var sorted := Sort(matching, field, desc);
    var w := Window(sorted, page, limit);
    forall i | 0 <= i < |w| ensures w[i] in matching {
      assert w[i] == sorted[Skip(page, limit) + i];
      assert w[i] in multiset(sorted);
    }
  }

  /** The number of entries on a page: `limit`, fewer on the last page, none past it. */
  function PageSize(total: nat, page: nat, limit: nat): nat
    requires page >= 1
  {
    if Skip(page, limit) >= total then 0
    else if Skip(page, limit) + limit <= total then limit
    else total - Skip(page, limit)
  }

  /** Sort the matching blogs, cut out the requested page, and count all matches. */
  function Paginate(matching: seq<Blog>, field: SortField, desc: bool, page: nat, limit: nat): (p: Page)
    requires page >= 1 && limit >= 1
    ensures p.blogs == Window(Sort(matching, field, desc), page, limit)
    ensures p.total == |matching| && p.page == page && p.limit == limit
    ensures p.totalPages == CeilDiv(|matching|, limit)
    ensures |p.blogs| == PageSize(p.total, page, limit) <= limit
    ensures SortedBy(p.blogs, field, desc)
    ensures forall i :: 0 <= i < |p.blogs| ==> p.blogs[i] in matching
    ensures |p.blogs| > 0 <==> page <= p.totalPages
  {
    var sorted := Sort(matching, field, desc);
    var blogs := Window(sorted, page, limit);
    PageNonEmptyIff(sorted, page, limit);
    WindowSorted(sorted, page, limit, field, desc);
    WindowMembers(matching, page, limit, field, desc);
    Page(blogs, |matching|, page, limit, CeilDiv(|matching|, limit))
  }

  /** The query string of `getBlogs`, already parsed; `sortType` "desc" sorts descending,
      anything else ascending. */
  datatype BlogsQuery = BlogsQuery(page: nat, limit: nat, search: string, sortBy: SortField, sortType: string)

  /** The `$text` filter, applied only for a non-empty search; the text index itself is
      the `textMatch` parameter. */
  function SearchFilter(search: string, textMatch: (string, Blog) -> bool): (f: Blog -> bool)
    ensures search == "" ==> forall b :: f(b)
    ensures search != "" ==> forall b :: f(b) == textMatch(search, b)
  {
    (b: Blog) => search == "" || textMatch(search, b)
  }

  function AuthorFilter(user: UserId): (f: Blog -> bool)
    ensures forall b :: f(b) <==> b.author == user
  {
    (b: Blog) => b.author == user
  }

  /** A page of the filtered listing holds stored blogs, each under its own id and each
      matching, and its total is the number of matching ids. */
  lemma PageOfListing(blogs: map<BlogId, Blog>, n: nat, f: Blog -> bool, field: SortField, desc: bool,
                      page: nat, limit: nat)
    requires Keyed(blogs) && page >= 1 && limit >= 1
    ensures
      var p := Paginate(Filter(Listing(blogs, n), f), field, desc, page, limit);
      && p.total == |MatchingIds(blogs, n, f)|
      && forall i :: 0 <= i < |p.blogs| ==>
           p.blogs[i].id in blogs && blogs[p.blogs[i].id] == p.blogs[i] && f(p.blogs[i])
  {
    CountMatches(blogs, n, f);
  }

  /** When every id lies below `n`, the author filter matches exactly that author's blogs. */
  lemma AuthorMatches(blogs: map<BlogId, Blog>, n: nat, user: UserId)
    requires forall k :: k in blogs ==> k < n
    ensures MatchingIds(blogs, n, AuthorFilter(user)) == set k | k in blogs && blogs[k].author == user
  {
  }

  /** Ids are fresh below `nextId`, every blog is stored under its id, and every stored
      blog satisfies the schema. */
  predicate ValidTable(blogs: map<BlogId, Blog>, nextId: nat) {
    forall k :: k in blogs ==> k < nextId && blogs[k].id == k && ValidBlog(blogs[k])
  }

  /** Storing a valid blog under its own id below the bound keeps the table valid. */
  lemma PutKeepsValid(blogs: map<BlogId, Blog>, nextId: nat, b: Blog, nextId': nat)
    requires ValidTable(blogs, nextId) && nextId <= nextId'
    requires b.id < nextId' && ValidBlog(b)
    ensures ValidTable(blogs[b.id := b], nextId')
  {
  }

  /** The blog table of the server. */
  class BlogStore {
    var blogs: map<BlogId, Blog>
    var nextId: nat

    ghost predicate Valid()
      reads this
    {
      ValidTable(blogs, nextId)
    }

    constructor ()
      ensures Valid() && blogs == map[] && nextId == 0
    {
      blogs := map[];
      nextId := 0;
    }

    /** `createBlog`: on success exactly one new entry, under a fresh id. */
    method CreateBlog(user: UserId, body: Body, now: int) returns (r: Result<Blog, Failure>)
      requires Valid()
      modifies this
      ensures Valid()
      ensures r == NewBlog(old(nextId), user, body, now)
      ensures r.Ok? ==> r.value.id !in old(blogs) && blogs == old(blogs)[r.value.id := r.value]
      ensures r.Ok? ==> |blogs| == |old(blogs)| + 1
      ensures r.Err? ==> blogs == old(blogs) && nextId == old(nextId)
    {
      r := NewBlog(nextId, user, body, now);
      if r.Ok? {
        PutKeepsValid(blogs, nextId, r.value, nextId + 1);
        blogs := blogs[nextId := r.value];
        nextId := nextId + 1;
      }
    }

    /** `getBlog`: the stored blog, or 404. */
    method GetBlog(id: BlogId) returns (r: Result<Blog, Failure>)
      requires Valid()
      ensures id in blogs ==> r == Ok(blogs[id]) && r.value.id == id && ValidBlog(r.value)
      ensures id !in blogs ==> r == Err(Thrown(ApiError(404, MSG_NOT_FOUND)))
    {
      if id !in blogs {
        return Err(Thrown(ApiError(404, MSG_NOT_FOUND)));
      }
      r := Ok(blogs[id]);
    }

    /** `updateBlog`, with the schema enforced on the merged document (see
        `MergeUpdateStoresUnknownStatus` and `MergeUpdateStoresBlankTitle`): 404 for a missing id, 403 for someone else's blog,
        otherwise the merge replaces that blog alone. */
    method UpdateBlog(user: UserId, id: BlogId, body: Body, now: int) returns (r: Result<Blog, Failure>)
      requires Valid()
      modifies this
      ensures Valid() && nextId == old(nextId)
      ensures id !in old(blogs) ==> r == Err(Thrown(ApiError(404, MSG_NOT_FOUND))) && blogs == old(blogs)
      ensures id in old(blogs) && old(blogs)[id].author != user ==>
        r == Err(Thrown(ApiError(403, MSG_EDIT_OWN))) && blogs == old(blogs)
      ensures id in old(blogs) && old(blogs)[id].author == user ==>
        && r == ValidatedUpdate(old(blogs)[id], body, now)
        && blogs == if r.Ok? then old(blogs)[id := r.value] else old(blogs)
    {
      if id !in blogs {
        return Err(Thrown(ApiError(404, MSG_NOT_FOUND)));
      }
      var blog := blogs[id];
      if blog.author != user {
        return Err(Thrown(ApiError(403, MSG_EDIT_OWN)));
      }
      r := ValidatedUpdate(blog, body, now);
      if r.Ok? {
        PutKeepsValid(blogs, nextId, r.value, nextId);
        blogs := blogs[id := r.value];
      }
    }

    /** `deleteBlog`: 404 for a missing id, 403 for someone else's blog, otherwise exactly
        that blog is removed. */
    method DeleteBlog(user: UserId, id: BlogId) returns (r: Result<(), Failure>)
      requires Valid()
      modifies this
      ensures Valid() && nextId == old(nextId)
      ensures id !in old(blogs) ==> r == Err(Thrown(ApiError(404, MSG_NOT_FOUND))) && blogs == old(blogs)
      ensures id in old(blogs) && old(blogs)[id].author != user ==>
        r == Err(Thrown(ApiError(403, MSG_DELETE_OWN))) && blogs == old(blogs)
      ensures id in old(blogs) && old(blogs)[id].author == user ==>
        r == Ok(()) && blogs == old(blogs) - {id}
    {
      if id !in blogs {
        return Err(Thrown(ApiError(404, MSG_NOT_FOUND)));
      }
      if blogs[id].author != user {
        return Err(Thrown(ApiError(403, MSG_DELETE_OWN)));
      }
      blogs := blogs - {id};
      r := Ok(());
    }

    /** `getBlogs`: the requested page of the blogs matching the search, sorted on the
        chosen field, with the count of all matches and the number of pages. */
    function GetBlogs(q: BlogsQuery, textMatch: (string, Blog) -> bool): (p: Page)
      reads this
      requires Valid() && q.page >= 1 && q.limit >= 1
      ensures p.blogs == Window(Sort(Filter(Listing(blogs, nextId), SearchFilter(q.search, textMatch)),
                                     q.sortBy, q.sortType == "desc"), q.page, q.limit)
      ensures p.page == q.page && p.limit == q.limit
      ensures |p.blogs| == PageSize(p.total, q.page, q.limit) <= q.limit
      ensures forall i :: 0 <= i < |p.blogs| ==>
        && p.blogs[i].id in blogs && blogs[p.blogs[i].id] == p.blogs[i]
        && (q.search == "" || textMatch(q.search, p.blogs[i]))
      ensures SortedBy(p.blogs, q.sortBy, q.sortType == "desc")
      ensures p.total == |MatchingIds(blogs, nextId, SearchFilter(q.search, textMatch))|
      ensures p.totalPages * q.limit - q.limit < p.total <= p.totalPages * q.limit
      ensures |p.blogs| > 0 <==> q.page <= p.totalPages
    {
      var matching := Filter(Listing(blogs, nextId), SearchFilter(q.search, textMatch));
      PageOfListing(blogs, nextId, SearchFilter(q.search, textMatch), q.sortBy, q.sortType == "desc", q.page, q.limit);
      Paginate(matching, q.sortBy, q.sortType == "desc", q.page, q.limit)
    }

    /** `getUserBlogs`: the requested page of the current user's blogs, newest first; the
        total counts that user's blogs only. */
    function GetUserBlogs(user: UserId, page: nat, limit: nat): (p: Page)
      reads this
      requires Valid() && page >= 1 && limit >= 1
      ensures p.blogs == Window(Sort(Filter(Listing(blogs, nextId), AuthorFilter(user)), CreatedAt, true), page, limit)
      ensures p.page == page && p.limit == limit
      ensures |p.blogs| == PageSize(p.total, page, limit) <= limit
      ensures forall i :: 0 <= i < |p.blogs| ==>
        p.blogs[i].id in blogs && blogs[p.blogs[i].id] == p.blogs[i] && p.blogs[i].author == user
      ensures SortedBy(p.blogs, CreatedAt, true)
      ensures p.total == |set k | k in blogs && blogs[k].author == user|
      ensures p.totalPages * limit - limit < p.total <= p.totalPages * limit
      ensures |p.blogs| > 0 <==> page <= p.totalPages
    {
      var matching := Filter(Listing(blogs, nextId), AuthorFilter(user));
      PageOfListing(blogs, nextId, AuthorFilter(user), CreatedAt, true, page, limit);
      AuthorMatches(blogs, nextId, user);
      Paginate(matching, CreatedAt, true, page, limit)
    }
  }
}
