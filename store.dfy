/**
 * The relational store as two in-memory tables: `post` (read-only here) and
 * `comment`, each a map from the row id to the row, plus the answer the
 * database gives to one prepared statement.
 */
module Store {
  import opened Php

  /** A row of the `post` table. */
  datatype Post = Post(title: string, createdAt: string, body: string)

  /**
   * A row of the `comment` table. `website` is None (SQL NULL) when the
   * inserted parameters carried no website.
   */
  datatype Comment = Comment(postId: int, name: string, website: Option<string>, text: string, createdAt: string)

  type PostTable = map<int, Post>
  type CommentTable = map<int, Comment>

  /**
   * The database's answer to one statement: `prepare` returns false, `execute`
   * returns false (with the message `errorInfo()[2]` then reports; PHP's null
   * there is the empty string), or the statement runs. `errorInfo()` is always a
   * non-empty array, so a failed execute always has such a message.
   */
  datatype Driver = PrepareFails | ExecuteFails(errorInfo: string) | Executes

  /** The ids of the comment rows whose post_id is `postId`. */
  function CommentsOn(comments: CommentTable, postId: int): set<int>
  {
    set id | id in comments && comments[id].postId == postId
  }

  /** `SELECT COUNT(*) FROM comment WHERE comment.post_id = postId`. */
  function CommentCount(comments: CommentTable, postId: int): nat
  {
    |CommentsOn(comments, postId)|
  }

  /** The new state holds the old rows and exactly one more row, `row`, under an id the old state did not use. */
  ghost predicate Inserted(before: CommentTable, after: CommentTable, row: Comment)
  {
    exists id :: id !in before && after == before[id := row]
  }

  /** `DELETE FROM comment WHERE post_id = postId AND id = commentId`. */
  function DeleteWhere(comments: CommentTable, postId: int, commentId: int): (r: CommentTable)
    ensures forall id :: id in r <==> id in comments && !(id == commentId && comments[id].postId == postId)
    ensures forall id :: id in r ==> r[id] == comments[id]
    ensures commentId in comments && comments[commentId].postId != postId ==> r == comments
  {
    if commentId in comments && comments[commentId].postId == postId then comments - {commentId} else comments
  }

  /** Adding a row raises the count of its own post by one and leaves every other post's count alone. */
  lemma CountAfterInsert(before: CommentTable, after: CommentTable, row: Comment, postId: int)
    requires Inserted(before, after, row)
    ensures CommentCount(after, postId) == CommentCount(before, postId) + (if row.postId == postId then 1 else 0)
  {
    var id :| id !in before && after == before[id := row];
    if row.postId == postId {
      assert CommentsOn(after, postId) == CommentsOn(before, postId) + {id};
    } else {
      assert CommentsOn(after, postId) == CommentsOn(before, postId);
    }
  }

  /** Deleting lowers a post's count by one exactly when the deleted pair matched a row of that post. */
  lemma CountAfterDelete(comments: CommentTable, postId: int, commentId: int, q: int)
    ensures CommentCount(DeleteWhere(comments, postId, commentId), q)
         == CommentCount(comments, q) - (if q == postId && commentId in comments && comments[commentId].postId == postId then 1 else 0)
  {
    var after := DeleteWhere(comments, postId, commentId);
    if q == postId && commentId in comments && comments[commentId].postId == postId {
      assert CommentsOn(after, q) == CommentsOn(comments, q) - {commentId};
    } else {
      assert CommentsOn(after, q) == CommentsOn(comments, q);
    }
  }
}
