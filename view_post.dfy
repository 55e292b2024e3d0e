/**
 * The comment handling of a blog post's page: validating and inserting a
 * comment, deleting one, the two request handlers around them, and reading
 * the post with its live comment count.
 *
 * The PDO handle and the database behind it are the class `Database`; the
 * answer of the database to each statement is a `Driver` parameter, the
 * server's clock a timestamp parameter and the session's login check a
 * boolean parameter.
 */
module ViewPost {
  import opened Php
  import opened Store

  const NameRequired := "A name is required"
  const TextRequired := "A comment is required"
  const InsertPrepareFailed := "Cannot prepare statement to insert comment"
  const QueryPrepareFailed := "There was a problem preparing this query"
  const QueryRunFailed := "There was a problem running this query"

  /** A key of the PHP errors array: a field name, or the integer key `$errors[] = ...` appends under. */
  datatype ErrorKey = Field(name: string) | Index(n: int)

  type Errors = map<ErrorKey, string>

  /** A parameter of the insert statement: the submitted strings and the server's timestamp, or the integer post id. */
  datatype Param = Str(s: string) | Int(i: int)

  /** The columns `getPostRow` selects; `commentCount` is the correlated COUNT(*) subquery. */
  datatype PostRow = PostRow(title: string, createdAt: string, body: string, commentCount: nat)

  /** What a handler leaves the page with. `Redirect(p)` is `redirectAndExit('view-post.php?post_id=' . p)`. */
  datatype Response = Redirect(postId: int) | Rejected(errors: Errors) | Exception(message: string) | Continue

  /** The two validation rules, each applied on its own; the website is not looked at. */
  function ValidationErrors(data: map<string, string>): (errors: Errors)
    ensures Field("name") in errors <==> Empty(data, "name")
    ensures Field("text") in errors <==> Empty(data, "text")
    ensures Field("name") in errors ==> errors[Field("name")] == NameRequired
    ensures Field("text") in errors ==> errors[Field("text")] == TextRequired
    ensures errors.Keys <= {Field("name"), Field("text")}
    ensures errors == map[] <==> !Empty(data, "name") && !Empty(data, "text")
  {
    (if Empty(data, "name") then map[Field("name") := NameRequired] else map[])
    + (if Empty(data, "text") then map[Field("text") := TextRequired] else map[])
  }

  /**
   * The parameter array handed to `execute`: the submitted data merged with the
   * server's `post_id` and `created_at`, which replace any submitted values of the same name.
   */
  function InsertParams(data: map<string, string>, postId: int, now: string): (p: map<string, Param>)
    ensures p.Keys == data.Keys + {"post_id", "created_at"}
    ensures p["post_id"] == Int(postId) && p["created_at"] == Str(now)
    ensures forall k :: k in data && k != "post_id" && k != "created_at" ==> p[k] == Str(data[k])
  {
    ArrayMerge(map k | k in data :: Str(data[k]), map["post_id" := Int(postId), "created_at" := Str(now)])
  }

  /**
   * The row the insert statement writes from those parameters. Its post id and
   * timestamp are the server's whatever the submitted data holds; a submission
   * without a website stores NULL there.
   */
  function InsertedRow(data: map<string, string>, postId: int, now: string): (c: Comment)
    requires !Empty(data, "name") && !Empty(data, "text")
    ensures c.postId == postId && c.createdAt == now
    ensures c.name == data["name"] && c.text == data["text"]
    ensures c.website == if "website" in data then Some(data["website"]) else None
  {
    var p := InsertParams(data, postId, now);
    Comment(p["post_id"].i, p["name"].s, if "website" in p then Some(p["website"].s) else None,
            p["text"].s, p["created_at"].s)
  }

  /** What `addCommentToPost` returns or throws, given the submission and the database's answer to the insert. */
  function AddCommentResult(data: map<string, string>, driver: Driver): (r: Outcome<Errors>)
    ensures ValidationErrors(data) != map[] ==> r == Returned(ValidationErrors(data))
    ensures r.Raised? <==> ValidationErrors(data) == map[] && driver == PrepareFails
    ensures r.Raised? ==> r.message == InsertPrepareFailed
    ensures r == Returned(map[]) <==> ValidationErrors(data) == map[] && driver == Executes
    ensures ValidationErrors(data) == map[] && driver.ExecuteFails?
            ==> r == Returned(map[Index(0) := driver.errorInfo])
  {
    var errors := ValidationErrors(data);
    if errors != map[] then Returned(errors)
    else match driver
      case PrepareFails => Raised(InsertPrepareFailed)
      case ExecuteFails(info) =>
        var appended := errors[Index(0) := info];
        assert Index(0) in appended;
        Returned(appended)
      case Executes => Returned(errors)
  }

  /** The id of the comment a delete request names: its first key, when that key is truthy. */
  function DeleteTarget(request: seq<(int, string)>): (target: Option<int>)
    ensures target.Some? <==> |request| > 0 && Truthy(request[0].0)
    ensures target.Some? ==> target.value == request[0].0
  {
    var keys := ArrayKeys(request);
    var first := if |keys| > 0 then Some(keys[0]) else None;
    if first.Some? && Truthy(first.value) then first else None
  }

  /** Only the first key of a delete request is read: what follows it, and every value, is ignored. */
  lemma DeleteTargetFirstKeyOnly(request: seq<(int, string)>, other: seq<(int, string)>)
    requires |request| > 0 && |other| > 0 && request[0].0 == other[0].0
    ensures DeleteTarget(request) == DeleteTarget(other)
  {
  }

  /** The website never affects validation: changing or dropping it leaves the errors as they were. */
  lemma WebsiteNotValidated(data: map<string, string>, website: string)
    ensures ValidationErrors(data["website" := website]) == ValidationErrors(data)
    ensures ValidationErrors(data - {"website"}) == ValidationErrors(data)
  {
  }

  /**
   * Both rules can fire together, "0" counts as empty, and a name or comment
   * made only of whitespace is accepted.
   */
  lemma ValidationExamples()
    ensures ValidationErrors(map[]) == map[Field("name") := NameRequired, Field("text") := TextRequired]
    ensures ValidationErrors(map["name" := "", "website" := "", "text" := ""])
         == map[Field("name") := NameRequired, Field("text") := TextRequired]
    ensures ValidationErrors(map["name" := "0", "text" := " "]) == map[Field("name") := NameRequired]
    ensures ValidationErrors(map["name" := " ", "text" := "Hello"]) == map[]
  {
  }

  /** A valid submission whose insert runs adds a row that the post's live count then includes. */
  lemma AddedCommentCounted(before: CommentTable, after: CommentTable, data: map<string, string>,
                            postId: int, now: string, q: int)
    requires !Empty(data, "name") && !Empty(data, "text")
    requires Inserted(before, after, InsertedRow(data, postId, now))
    ensures CommentCount(after, q) == CommentCount(before, q) + (if q == postId then 1 else 0)
  {
    CountAfterInsert(before, after, InsertedRow(data, postId, now), q);
  }

  /** The PDO handle together with the two tables it reaches; ids come from an auto-increment counter. */
  class Database {
    const posts: PostTable
    var comments: CommentTable
    var nextId: int

    /** Every id in use is below the next id the store hands out. */
    ghost predicate Valid()
      reads this
    {
      forall id :: id in comments ==> id < nextId
    }

    constructor (posts: PostTable, comments: CommentTable, nextId: int)
      requires forall id :: id in comments ==> id < nextId
      ensures Valid()
      ensures this.posts == posts && this.comments == comments
    {
      this.posts := posts;
      this.comments := comments;
      this.nextId := nextId;
    }

    /** `addCommentToPost`: validate, and only when that finds nothing, try the insert. */
    method AddCommentToPost(postId: int, commentData: map<string, string>, now: string, driver: Driver)
      returns (r: Outcome<Errors>)
      requires Valid()
      modifies this
      ensures Valid()
      ensures r == AddCommentResult(commentData, driver)
      ensures if ValidationErrors(commentData) == map[] && driver == Executes
              then Inserted(old(comments), comments, InsertedRow(commentData, postId, now))
              else comments == old(comments)
    {
      var errors: Errors := map[];
      if Empty(commentData, "name") {
        errors := errors[Field("name") := NameRequired];
      }
      if Empty(commentData, "text") {
        errors := errors[Field("text") := TextRequired];
      }
      assert errors == ValidationErrors(commentData);
      if errors == map[] {
        match driver {
          case PrepareFails =>
            return Raised(InsertPrepareFailed);
          case ExecuteFails(info) =>
            // `errorInfo()` is never an empty array, so its message is always appended;
            // appending to an empty PHP array uses the key 0
            errors := errors[Index(0) := info];
          case Executes =>
            var id := nextId;
            comments := comments[id := InsertedRow(commentData, postId, now)];
            nextId := nextId + 1;
            assert id !in old(comments);
        }
      }
      return Returned(errors);
    }

    /**
     * `handleAddComment`: redirect back to the post exactly when the insert reported
     * no errors, which is exactly when a row was inserted.
     */
    method HandleAddComment(postId: int, commentData: map<string, string>, now: string, driver: Driver)
      returns (resp: Response)
      requires Valid()
      modifies this
      ensures Valid()
      ensures resp.Redirect? <==> AddCommentResult(commentData, driver) == Returned(map[])
      ensures resp.Redirect? <==> ValidationErrors(commentData) == map[] && driver == Executes
      ensures resp.Redirect? ==> resp.postId == postId
      ensures resp.Rejected? <==> AddCommentResult(commentData, driver).Returned? && !resp.Redirect?
      ensures resp.Rejected? ==> resp.errors == AddCommentResult(commentData, driver).value
      ensures resp.Exception? <==> AddCommentResult(commentData, driver).Raised?
      ensures resp.Exception? ==> resp.message == InsertPrepareFailed
      ensures if ValidationErrors(commentData) == map[] && driver == Executes
              then Inserted(old(comments), comments, InsertedRow(commentData, postId, now))
              else comments == old(comments)
    {
      var r := AddCommentToPost(postId, commentData, now, driver);
      match r {
        case Raised(message) =>
          return Exception(message);
        case Returned(errors) =>
          if errors == map[] {
            return Redirect(postId);
          }
          return Rejected(errors);
      }
    }

    /** `deleteComment`: the row goes only when both its post id and its id match; the result says the statement ran. */
    method DeleteComment(postId: int, commentId: int, driver: Driver) returns (r: Outcome<bool>)
      requires Valid()
      modifies this
      ensures Valid()
      ensures driver == PrepareFails ==> r == Raised(QueryPrepareFailed) && comments == old(comments)
      ensures driver.ExecuteFails? ==> r == Returned(false) && comments == old(comments)
      ensures driver == Executes ==> r == Returned(true) && comments == DeleteWhere(old(comments), postId, commentId)
    {
      if driver == PrepareFails {
        return Raised(QueryPrepareFailed);
      }
      var executed := driver == Executes;
      if executed {
        comments := DeleteWhere(comments, postId, commentId);
      }
      return Returned(executed);
    }

    /** `handleDeleteComment`: only a logged-in user deletes, only the request's first key, and is then sent back to the post. */
    method HandleDeleteComment(postId: int, deleteResponse: seq<(int, string)>, loggedIn: bool, driver: Driver)
      returns (resp: Response)
      requires Valid()
      modifies this
      ensures Valid()
      ensures !loggedIn ==> resp == Continue && comments == old(comments)
      ensures loggedIn && DeleteTarget(deleteResponse) == None ==> resp == Redirect(postId) && comments == old(comments)
      ensures loggedIn && DeleteTarget(deleteResponse).Some? ==>
                && resp == (if driver == PrepareFails then Exception(QueryPrepareFailed) else Redirect(postId))
                && comments == if driver == Executes
                               then DeleteWhere(old(comments), postId, DeleteTarget(deleteResponse).value)
                               else old(comments)
    {
      if loggedIn {
        var keys := ArrayKeys(deleteResponse);
        // `$keys[0]` on an empty array is null, which is falsy
        var deleteCommentId := if |keys| > 0 then Some(keys[0]) else None;
        if deleteCommentId.Some? && Truthy(deleteCommentId.value) {
          var r := DeleteComment(postId, deleteCommentId.value, driver);
          if r.Raised? {
            return Exception(r.message);
          }
        }
        return Redirect(postId);
      }
      return Continue;
    }

    /** `getPostRow`: the post's columns and the live number of its comments, or no row for an unknown id. */
    function GetPostRow(postId: int, driver: Driver): (r: Outcome<Option<PostRow>>)
      reads this
      ensures driver == PrepareFails ==> r == Raised(QueryPrepareFailed)
      ensures driver.ExecuteFails? ==> r == Raised(QueryRunFailed)
      ensures driver == Executes ==> r.Returned? && (r.value.Some? <==> postId in posts)
      ensures r.Returned? && r.value.Some? ==>
                && r.value.value.title == posts[postId].title
                && r.value.value.createdAt == posts[postId].createdAt
                && r.value.value.body == posts[postId].body
                && r.value.value.commentCount == |set id | id in comments && comments[id].postId == postId|
    {
      match driver
      case PrepareFails => Raised(QueryPrepareFailed)
      case ExecuteFails(_) => Raised(QueryRunFailed)
      case Executes =>
        if postId in posts
        then Returned(Some(PostRow(posts[postId].title, posts[postId].createdAt, posts[postId].body,
                                   CommentCount(comments, postId))))
        else Returned(None)
    }
  }

  /** A caller's view: a valid comment on post 3 redirects back and raises that post's count to one. */
  method AcceptedSubmissionExample()
  {
    var db := new Database(map[3 := Post("Title", "2026-01-01", "Body")], map[], 1);
    var data := map["name" := "Alice", "website" := "", "text" := "Hello"];
    assert !Empty(data, "name") && !Empty(data, "text");
    var resp := db.HandleAddComment(3, data, "2026-10-14 12:00:00", Executes);
    assert resp == Redirect(3);
    AddedCommentCounted(map[], db.comments, data, 3, "2026-10-14 12:00:00", 3);
    assert CommentCount(map[], 3) == 0;
    var read := db.GetPostRow(3, Executes);
    assert read == Returned(Some(PostRow("Title", "2026-01-01", "Body", 1)));
  }

  /** A caller's view: a blank name and comment come back as both errors, and nothing is stored. */
  method RejectedSubmissionExample()
  {
    var db := new Database(map[3 := Post("Title", "2026-01-01", "Body")], map[], 1);
    var resp := db.HandleAddComment(3, map["name" := "", "text" := ""], "2026-10-14 12:01:00", Executes);
    assert resp == Rejected(map[Field("name") := NameRequired, Field("text") := TextRequired]);
    assert db.comments == map[];
  }

  /** A caller's view: a clean submission whose insert fails shows the store's message and is not redirected. */
  method FailedInsertExample()
  {
    var db := new Database(map[3 := Post("Title", "2026-01-01", "Body")], map[], 1);
    var data := map["name" := "Alice", "text" := "Hello"];
    assert !Empty(data, "name") && !Empty(data, "text");
    var resp := db.HandleAddComment(3, data, "2026-10-14 12:02:00", ExecuteFails("constraint failed"));
    assert resp == Rejected(map[Index(0) := "constraint failed"]);
    assert db.comments == map[];
  }
}
