# SimpleBlog: comments on a post's page

A Dafny model of the comment handling in SimpleBlog's `lib/view-post.php`.
A visitor submits a comment on a post. The submission is validated: a name
and a comment text are required, and the website is optional. A valid
comment is inserted into the `comment` table with the server's post id and
timestamp. A logged-in user can delete a comment of that post. The post is
read back with a live count of its comments.

Layout:

- `php.dfy` (module `Php`): the PHP semantics the code relies on. It has
  `empty()` on an array element (a missing key, `""` and `"0"` are empty;
  nothing is trimmed), integer truthiness, `array_merge`, `array_keys`, and
  `Outcome` (a function either returns a value or throws an `Exception`).
- `store.dfy` (module `Store`): the two tables as maps from id to row. It has
  the answer of the database to one statement (`Driver`), the live comment
  count, the `DELETE ... WHERE post_id = ? AND id = ?` filter, and how
  inserts and deletes change a post's count.
- `view_post.dfy` (module `ViewPost`): the validation rules, the insert
  parameters and the row they produce, and the class `Database`. The class
  stands for the PDO handle with the tables behind it. Its methods are
  `addCommentToPost`, `handleAddComment`, `deleteComment` and
  `handleDeleteComment`, and its function is `getPostRow`.

External helpers become parameters or results:

- `redirectAndExit('view-post.php?post_id=' . $postId)` becomes the result
  `Redirect(postId)`. Nothing runs after it.
- `isLoggedIn()` becomes the parameter `loggedIn`.
- `getSqlDateForNow()` becomes the parameter `now`.
- Each `prepare`/`execute` pair becomes a `Driver` parameter. It is
  `PrepareFails`, `ExecuteFails(message)` or `Executes`. The message is
  `errorInfo()[2]`; `errorInfo()` is always a non-empty array, so the check
  `if ($errorInfo)` always passes. Each thrown
  `Exception` becomes `Raised(message)` with the source's message.
- A handler that neither redirects nor returns errors gives `Continue`. This
  is the not-logged-in case of `handleDeleteComment`, where the page goes on
  rendering.

## Model

| member | source | states |
|---|---|---|
| `Php.ArrayMerge` | SimpleBlog/lib/view-post.php:139-142 | the merged array has the keys of both arrays, and on a shared key the later array's value wins |
| `Store.DeleteWhere` | SimpleBlog/lib/view-post.php:31-33 | a row is removed exactly when both its id and its post_id match; every other row keeps its contents; a matching id on another post removes nothing |
| `Store.CountAfterInsert` | SimpleBlog/lib/view-post.php:82-84 | adding one row under an unused id raises its own post's count by one and leaves every other post's count unchanged |
| `Store.CountAfterDelete` | SimpleBlog/lib/view-post.php:31-33 | a delete lowers a post's count by one exactly when the (post id, comment id) pair matched a row of that post, and otherwise changes no count |
| `ViewPost.ValidationErrors` | SimpleBlog/lib/view-post.php:115-125 | key `name` with "A name is required" exactly when `empty(name)`; key `text` with "A comment is required" exactly when `empty(text)`; no other keys; empty exactly when both fields are non-empty |
| `ViewPost.WebsiteNotValidated` | SimpleBlog/lib/view-post.php:118-125 | setting or removing the website never changes the validation errors |
| `ViewPost.ValidationExamples` | SimpleBlog/lib/view-post.php:118-125 | both errors fire together on a missing or blank name and text; `"0"` is empty; a whitespace-only name is accepted |
| `ViewPost.InsertParams` | SimpleBlog/lib/view-post.php:138-143 | the execute parameters are the submitted fields plus `post_id` and `created_at`, which always hold the server's values even when the submission carries keys of those names |
| `ViewPost.InsertedRow` | SimpleBlog/lib/view-post.php:130-143 | the stored row's post id is the `postId` argument and its timestamp is the server's time; its name, text and website are the submitted ones (website NULL when not submitted) |
| `ViewPost.AddCommentResult` | SimpleBlog/lib/view-post.php:113-157 | validation errors are returned as they are; after a clean validation a prepare failure throws; the result is an empty map exactly when validation is clean and the insert runs; a failed insert returns exactly one entry, under key 0, holding the store's message |
| `ViewPost.AddedCommentCounted` | SimpleBlog/lib/view-post.php:138-143 | after a successful insert the post's live count is one higher and no other post's count moves |
| `ViewPost.DeleteTarget` | SimpleBlog/lib/view-post.php:62-64 | a delete target exists exactly when the request is non-empty and its first key is truthy (non-zero), and it is that first key |
| `ViewPost.DeleteTargetFirstKeyOnly` | SimpleBlog/lib/view-post.php:62-64 | two requests with the same first key name the same target, whatever follows it and whatever the values |
| `ViewPost.Database.AddCommentToPost` | SimpleBlog/lib/view-post.php:113-157 | returns `AddCommentResult`; the table gains exactly one row, `InsertedRow`, under an unused id when validation is clean and the insert runs; otherwise the table is unchanged |
| `ViewPost.Database.HandleAddComment` | SimpleBlog/lib/view-post.php:10-18 | redirects to the post exactly when `addCommentToPost` returned an empty map, which is exactly when validation is clean and a row was inserted; otherwise returns that map unchanged, or passes on the exception; the table changes as in `AddCommentToPost` |
| `ViewPost.Database.DeleteComment` | SimpleBlog/lib/view-post.php:29-42 | a prepare failure throws and changes nothing; a failed execute returns false and changes nothing; a statement that runs returns true, even when no row matched, and applies `DeleteWhere` |
| `ViewPost.Database.HandleDeleteComment` | SimpleBlog/lib/view-post.php:59-70 | not logged in: the table is unchanged and there is no redirect; logged in: only the first key is used, the delete runs only when that key is truthy, and the user is always redirected to the post unless the delete's prepare threw |
| `ViewPost.Database.GetPostRow` | SimpleBlog/lib/view-post.php:80-102 | prepare or execute failures throw their messages; a row is returned exactly when the post exists; it holds the post's title, timestamp and body; `comment_count` is the number of comment rows whose post_id is the requested id; the tables are only read |

## Left out

- The SQL text and the PDO prepare/execute/fetch plumbing are not modelled. Each statement's fate is the `Driver` parameter, and the tables are maps.
- PDO's error mode is not modelled. The code assumes `execute` returns false rather than throwing, and so does the model.
- The auto-increment id of a new comment is taken from a counter, `nextId`. All the contracts promise is an id not already in the table.
- `redirectAndExit`, `isLoggedIn`, `getSqlDateForNow` and `htmlEscape` are external helpers whose code is not shown. They are the result values and parameters described above; escaping is not used by this core.
- `templates/comment-form.php` only renders HTML (the error list and the form) and is not part of this model.
- PHP arrays are ordered, but the errors array is modelled as a map. The order in which the template lists the errors is not captured. The name error is always listed before the text error, and the store entry never occurs with either.
- `errorInfo()[2]` may be PHP null. The model carries it as a string, and the empty string stands for null, which the error list renders the same way.
- Submitted values are strings. An array value, which a crafted form could send, is not modelled.
- Keys of the delete request are integers, as the form field `delete-comment[<id>]` produces. A non-numeric string key is not modelled, and neither is the SQL coercion of a numeric-looking string key.
- `array_merge` renumbers integer keys. The submitted data has only string keys, so this is not modelled.
- `ViewPost.InsertedRow`: a submission without a `website` key stores NULL. Some PDO drivers refuse such an execute; that case is `ExecuteFails`.
- `empty()` does not trim, so a name or comment of `" "` is accepted, and the model does not trim either.
- A failed delete is not fatal: `deleteComment` returns false on a failed execute and `handleDeleteComment` still redirects.
- `$keys[0]` on an empty delete request is null and PHP also logs an undefined-offset notice (a warning in PHP 8). That logging effect is not modelled.
- There is no check that a comment's post exists. Neither the code nor the model checks it.
