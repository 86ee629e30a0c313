/**
 * The blog schema: the `trim` setters and the `status` default Mongoose applies when a
 * document is built, the validators it runs before saving (required, maxLength, enum),
 * and the validity predicate of a stored blog that both give.
 */
module BlogModel {
  import opened Base
  import opened JsString

  type BlogId = nat

  const TITLE_MAX_LENGTH: nat := 200
  const STATUS_DRAFT: string := "draft"
  const STATUS_PUBLISHED: string := "published"
  const DEFAULT_STATUS: string := STATUS_PUBLISHED

  /** A blog document; `createdAt`/`updatedAt` are the schema's automatic timestamps. */
  datatype Blog = Blog(
    id: BlogId,
    title: string,
    content: string,
    author: UserId,
    tags: seq<string>,
    status: string,
    createdAt: int,
    updatedAt: int)

  predicate AllowedStatus(s: string) {
    s == STATUS_DRAFT || s == STATUS_PUBLISHED
  }

  predicate TagsTrimmed(tags: seq<string>) {
    forall i :: 0 <= i < |tags| ==> IsTrimmed(tags[i])
  }

  /** A stored blog: a non-empty trimmed title of at most 200 UTF-16 units, a non-empty
      content, an author, trimmed tags and a status from the enumeration. */
  predicate ValidBlog(b: Blog)
    ensures ValidBlog(b) ==> 0 < |b.title| <= TITLE_MAX_LENGTH
  {
    && b.title != "" && IsTrimmed(b.title) && Utf16Length(b.title) <= TITLE_MAX_LENGTH
    && b.content != ""
    && b.author != ""
    && TagsTrimmed(b.tags)
    && AllowedStatus(b.status)
  }

  /** The `trim: true` setter of each tag. */
  function TrimAll(tags: seq<string>): (r: seq<string>)
    ensures |r| == |tags| && forall i :: 0 <= i < |tags| ==> r[i] == Trim(tags[i])
    ensures TagsTrimmed(r)
  {
    if tags == [] then [] else [Trim(tags[0])] + TrimAll(tags[1..])
  }

  /** Setting already trimmed tags changes nothing. */
  lemma TrimAllTrimmed(tags: seq<string>)
    requires TagsTrimmed(tags)
    ensures TrimAll(tags) == tags
  {
    forall i | 0 <= i < |tags| ensures TrimAll(tags)[i] == tags[i] {
      TrimFixesTrimmed(tags[i]);
    }
  }

  /** The fields handed to Mongoose; an absent status takes the schema default. */
  datatype Fields = Fields(title: string, content: string, tags: seq<string>, status: Option<string>)

  /** Building a document: setters trim the title and every tag; the status defaults to
      "published"; both timestamps are the creation time. */
  function Cast(id: BlogId, f: Fields, author: UserId, now: int): (b: Blog)
    ensures b.id == id && b.author == author && b.content == f.content
    ensures b.title == Trim(f.title) && b.tags == TrimAll(f.tags)
    ensures b.status == if f.status.Some? then f.status.value else DEFAULT_STATUS
    ensures b.createdAt == now && b.updatedAt == now
    ensures IsTrimmed(b.title) && TagsTrimmed(b.tags) && |b.tags| == |f.tags|
    ensures f.status.None? ==> AllowedStatus(b.status)
  {
    Blog(id, Trim(f.title), f.content, author, TrimAll(f.tags),
         if f.status.Some? then f.status.value else DEFAULT_STATUS, now, now)
  }

  /** The validators of the schema. */
  datatype Violation = TitleRequired | TitleTooLong | ContentRequired | AuthorRequired | StatusNotAllowed

  /** Every validator that fails on `b`; Mongoose reports them all in one error. */
  function SchemaViolations(b: Blog): (v: set<Violation>)
    ensures IsTrimmed(b.title) && TagsTrimmed(b.tags) ==> (v == {} <==> ValidBlog(b))
    ensures v == {} ==> AllowedStatus(b.status) && b.title != "" && b.content != ""
  {
    (if b.title == "" then {TitleRequired} else {})
    + (if Utf16Length(b.title) > TITLE_MAX_LENGTH then {TitleTooLong} else {})
    + (if b.content == "" then {ContentRequired} else {})
    + (if b.author == "" then {AuthorRequired} else {})
    + (if !AllowedStatus(b.status) then {StatusNotAllowed} else {})
  }

  /** A document whose fields went through the setters passes validation exactly when it
      is a valid blog. */
  lemma CastValidIff(id: BlogId, f: Fields, author: UserId, now: int)
    ensures SchemaViolations(Cast(id, f, author, now)) == {} <==> ValidBlog(Cast(id, f, author, now))
  {
    var b := Cast(id, f, author, now);
    if SchemaViolations(b) == {} {
      assert TitleRequired !in SchemaViolations(b);
      assert TitleTooLong !in SchemaViolations(b);
      assert ContentRequired !in SchemaViolations(b);
      assert AuthorRequired !in SchemaViolations(b);
      assert StatusNotAllowed !in SchemaViolations(b);
    }
  }

  /** The required validator of the title fails exactly for an empty title. */
  lemma TitleRequiredIff(b: Blog)
    ensures TitleRequired in SchemaViolations(b) <==> b.title == ""
  {
  }

  /** The title validators after trimming: required fails exactly for a whitespace-only
      title. */
  lemma {:induction false} CastTitleRequired(id: BlogId, f: Fields, author: UserId, now: int)
    ensures TitleRequired in SchemaViolations(Cast(id, f, author, now)) <==> AllWhitespace(f.title)
  {
    TitleRequiredIff(Cast(id, f, author, now));
    TrimEmptyIff(f.title);
  }

  /** The schema default is one of the allowed values. */
  lemma DefaultStatusAllowed()
    ensures AllowedStatus(DEFAULT_STATUS)
  {
  }
}
