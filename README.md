# ghost-api-scripts: a verified model of the post maintenance run

`index.js` is a maintenance script for a Ghost blog. It walks through every
published post older than a cutoff date, page by page. For each post it:

- copies the custom excerpt into an empty meta-description;
- forces visibility to `public`;
- sends one conditional edit to the Admin API if anything changed;
- on success, optionally asks Google's Indexing API to recrawl the post;
- records a result row.

Rows are written to CSV files in batches of twenty, with the remainder
written at the end.

This project models the deterministic core of that run in Dafny. Every call
to the outside world is an answer passed in as a parameter:

- an Admin API browse, edit or read;
- a Google notification;
- a file write.

The modules follow the script's structure:

- `Posts` (posts.dfy): the post record and the JavaScript truthiness the
  script applies to its optional text fields.
- `Updater` (updater.dfy): `updatePost`. It covers:
  - which fields are staged, and the edit payload;
  - how the `{post, updated, error}` outcome is classified;
  - the best-effort diagnostic capture after a rejected edit
    (`fetchFullPostDetails`, `logPostDetails`).
- `Report` (report.dfy): the `--reindex` option parser, the reindex gating of
  `reindexPost`, and the derivation of one result row from a post and its
  outcome.
- `Batching` (batching.dfy): the batch files a list of rows must produce.
  - Their names are `<output>_batch<k>.csv`.
  - Batch `k` holds rows `[20(k-1), 20k)`; a final batch holds the remainder.
  - Proved: the files partition the rows, their shape, and distinct batch
    numbers give distinct names.
- `Driver` (driver.dfy): `processAllPosts` as imperative code.
  - The page loop, the post loop and the batch write at every multiple of
    twenty.
  - The stop conditions: an empty page, a failed browse, or a batch write
    that throws. Failures rejected with `null` or `undefined` stop the run in
    further ways that are not modelled (see "## Left out").
  - The remainder write after the loop.
  - The methods return the result rows, the browse requests made, the CSV
    writes issued (file name and rows), how the loop ended, and the error of
    the final write. The posts handed to `updatePost` and what each one
    yielded are returned as ghost values.

How the outside world's answers enter the model:

- The answers to browse calls are a sequence of page results. A page past
  its end reads as an empty page.
- Each listed post carries the answers the world gives while that post is
  processed:
  - whether `updatePost` ends in its outer catch, which happens when the edit
    is rejected with a null or undefined value;
  - the edit's result;
  - the diagnostic read's result and whether the diagnostic file was written;
  - whether the Google notification went through.
- The CSV writer's failures are a sequence indexed by batch number.

A throw from the batch write at line 226 is not swallowed. The page loop's
handler at line 232 catches it and ends the loop. The model follows this:
- `Driver.PageLoop` stops with `BatchWriteFailed`;
- no post after the one whose row completed the failed batch is handed to
  `updatePost`, and no further page is requested;
- the batch number is not advanced.

## Model

| member | source | states |
|---|---|---|
| Posts.OrEmpty | index.js:216-220 | `t \|\| ''` is empty exactly when `t` is falsy (null, undefined or `''`), and is the text itself when truthy |
| Updater.Stage | index.js:99-114 | `meta_description := custom_excerpt` is staged exactly when the excerpt is truthy and the meta-description falsy; `visibility := 'public'` exactly when visibility is not `'public'`; nothing else is staged |
| Updater.NeedsEditIffStaged | index.js:99-117 | the `isUpdated` flag is set exactly when something was staged |
| Updater.EditPayload | index.js:119-123 | the edit carries `id`, `updated_at` and the staged fields, and no other key |
| Updater.CaptureDetails | index.js:77-95 | a diagnostic file exists only when the detail read succeeded and the write did not fail; it is named `post_<id>_details.json` and holds the post that was read |
| Updater.UpdatePost | index.js:97-146 | an unexpected fault yields `{post: null, updated: false, error: message}` and sends no edit; an edit is sent exactly when something was staged, with the payload; `updated` iff the edit was sent and succeeded, with the stored post; a rejected edit yields the original post, not updated, and the edit's message; nothing staged yields the original post, not updated, no error; a diagnostic capture happens only after a rejected edit |
| Updater.NothingStagedNoEdit | index.js:138-141 | a post with its meta-description (or no excerpt) that is already public gets no edit and the outcome `{post, false, null}` |
| Updater.DiagnosticsNeverMaskEditError | index.js:126-136 | whatever the diagnostic read and write do, a rejected edit's outcome is the original post, not updated, with the edit's message |
| Updater.Apply | index.js:119-125 | the post the platform stores when it applies the edit's fields: the staged fields replaced, id, title and url unchanged |
| Updater.StageIdempotent | index.js:103-114 | once the staged fields are applied, a second pass over the stored post stages nothing |
| Updater.ExcerptOnlyScenario | index.js:103-123 | excerpt `"A"`, empty meta-description, already public: only the meta-description is staged and the payload is id, token and `"A"` |
| Report.ParseReindex | index.js:23-25 | the `--reindex` parser returns true exactly for `'true'`, `true` and `''` |
| Report.ReindexOption | index.js:23-25 | the option defaults to true, and otherwise is whatever the parser returns |
| Report.ReindexParserRejects | index.js:24 | `'false'`, `'TRUE'`, `'1'` and `false` turn reindexing off; `''` and an absent flag leave it on |
| Report.ReindexTarget | index.js:148-149 | the indexing API is called for a post's URL exactly when the outcome carries a post, it was updated and the option is on |
| Report.Reindexed | index.js:148-163 | `reindexed` is true exactly when the notification was attempted and went through |
| Report.ResultRow | index.js:213-221 | the row copies id and title; `excerptCopied` iff the meta-descriptions before and after differ, with null read as `''`; `madePublic` iff the stored post is public and the original was not; `error` is `''` when the outcome has none |
| Report.ProcessPost | index.js:202-221 | a post yields no row exactly when its update faulted; otherwise the row's id and title are the post's, `updated` is the outcome's and `reindexed` follows the gating |
| Report.SkippedPostHasNoRow | index.js:205-209 | a post whose outcome carries a `null` post is skipped: no row, no reindex target |
| Report.NotUpdatedRowHasNoChanges | index.js:216-220 | a post that was not updated yields a row with both change flags and `reindexed` false, and an error that is the edit's message or empty |
| Report.AppliedEditFlagsMatchStaging | index.js:216-217 | when the platform stores exactly the staged fields, `excerptCopied` iff the meta-description was staged and `madePublic` iff the visibility was |
| Report.ReindexOnlyFillsReindexed | index.js:211-219 | the indexing API's answer changes only the `reindexed` column |
| Report.ExcerptCopiedScenario | index.js:211-221 | excerpt `"A"`, empty meta-description, public, edit applied: the row reads copied, not made public, updated, no error |
| Batching.Decimal | index.js:225 | the batch number printed by the template literal is a non-empty string of digits |
| Batching.FullBatches | index.js:224-228 | the first `k` full batches number exactly `k` |
| Batching.FullBatchesPrefix | index.js:224-228 | full batches depend only on the rows they cover, so pushing more rows leaves earlier batches unchanged |
| Batching.FullBatchesAt | index.js:224-228 | batch `i+1` is named `<output>_batch<i+1>.csv` and holds rows `[20i, 20i+20)` |
| Batching.FlattenFullBatches | index.js:224-228 | the first `k` full batches hold exactly the first `20k` rows, in order |
| Batching.BatchesPartition | index.js:224-242 | read back in order, the batch files give every row exactly once |
| Batching.BatchesShape | index.js:224-242 | there are `ceil(n/20)` files; file `k` is named `<output>_batch<k>.csv` and holds rows `[20(k-1), 20(k-1)+size)`; every file but the last holds 20 rows; the last holds `n mod 20` when that is non-zero |
| Batching.DecimalInjective | index.js:225 | distinct batch numbers print differently |
| Batching.BatchFileInjective | index.js:225 | distinct batch numbers name distinct files, so no batch file overwrites another |
| Batching.FortyFiveRows | index.js:224-242 | 45 rows make exactly three files `_batch1`, `_batch2`, `_batch3` of 20, 20 and 5 rows |
| Batching.ShortRunOneFile | index.js:239-242 | fewer than twenty rows go to the single file `_batch1.csv` |
| Batching.ExactMultipleNoRemainder | index.js:239 | when the row count is a multiple of 20 (none included), no remainder file is written |
| Driver.PageSize | index.js:186 | `options.limit \|\| 15`: the given limit when it is a non-zero number, otherwise 15 |
| Driver.BrowseFilter | index.js:195 | the browse filter is `status:published+published_at:<` followed by the cutoff date |
| Driver.WriteFault | index.js:226 | the write of batch `k` throws the recorded error, and no batch past the recorded ones fails |
| Driver.PageAt | index.js:192-200 | past the recorded answers the platform returns an empty page |
| Driver.Present | index.js:206-213 | the rows pushed number at most the posts handled |
| Driver.YieldsAppend | index.js:202-213 | handing one more post to the loop extends the record of what each post yielded, and pushes at most that post's row |
| Driver.PresentIsRowsFor | index.js:202-221 | the rows pushed are the rows of the handled posts, in order |
| Driver.RowsForLength | index.js:205-209 | every post yields at most one row, and exactly one when its update does not fault |
| Driver.PushRow | index.js:213-228 | pushing a row that does not complete a batch keeps the batch bookkeeping |
| Driver.PushRowFullBatch | index.js:224-228 | pushing the row that completes a batch: the write of the last twenty rows under the current number is the next full batch, and the number moves on when it succeeds |
| Driver.FlushRemainder | index.js:239-242 | the full batches plus the remainder write (if any) are exactly the batch files of the rows |
| Driver.AppendRow | index.js:213-228 | `results.push(row)`; at a multiple of twenty the last twenty rows are written as batch `batchNumber`, which moves on unless the write throws, and that write's error is returned |
| Driver.HandlePost | index.js:205-221 | the row the post yields is recorded, and pushed rows grow by at most that row |
| Driver.ProcessListed | index.js:202-229 | one pass of the post loop keeps the row record and the batch bookkeeping, or leaves the failed-batch state with the write's error, in which case this post pushed the row that completed the batch |
| Driver.LastHandledPushedLastRow | index.js:213-234 | when the last post handed to `updatePost` pushed a row, that row is the last one pushed, so after a failed batch write no post follows the one that completed the batch |
| Driver.ProcessPage | index.js:202-229 | the post loop handles every post of the page in order, or stops right after the post whose row completed the batch whose write threw (that post is the last handled and pushed a row), leaving the failed batch as the last write |
| Driver.WriteRemainder | index.js:238-242 | after the loop, whatever ended it, the writes are exactly the batch files of the rows and partition them; the final write's error is returned; every earlier write succeeded |
| Driver.PageLoop | index.js:190-236 | pages are requested as 1, 2, 3, ... with the same limit and filter; every page before the last requested was non-empty; the loop stops at the first empty page, the first failed browse, or the first batch write that throws; all posts of the pages visited are handled; after a failed batch write the loop stops within the current page, right after the post whose row completed the batch, and requests no further page |
| Driver.ProcessAllPosts | index.js:184-245 | the writes are exactly the batch files of the result rows; the rows are those of the posts handled, in order, at most one per post; the request, stop and handled-post facts of the page loop, including the stop right after the post that completed a failed batch; every write before the last succeeded; the final remainder write's error is reported |

## Left out

- Outside calls are not modelled; their answers are inputs. This covers the
  Ghost Admin API client (`browse`, `edit`, `read`), the Google OAuth flow and
  Indexing API call, the readline prompt, `fs.writeFile` and csv-writer's
  file output.
- CSV header text and escaping are csv-writer's behaviour and are not
  modelled. A write is recorded as its file name and rows.
- The JSON serialisation of the diagnostic file is not modelled; a diagnostic
  file is recorded as its name and the post written.
- `--date` parsing through JavaScript's `Date` is not modelled: the cutoff is
  an opaque string. `--limit` parsing through `parseInt` is not modelled
  either: the limit arrives already parsed, with None for a missing value or
  `NaN`.
- Console logging, dotenv, commander wiring, `process.exit` and `main`'s
  catch-and-close are I/O plumbing. They are not modelled.
- async/await is not modelled: the run is strictly sequential and is
  modelled as sequential code.
- Updater.UpdatePost: for a post object, the outer handler (lines 142-145)
  is reached only when the edit is rejected with a value that has no
  `message` (null or undefined): reading `editError.message` at line 127 then
  throws, after the edit was sent. The model takes that outcome as the
  answer `fault`, yielding the `null` post and the exception's message, but
  records no edit payload and no diagnostic for it, so it does not tie a
  fault to a sent edit or to a staged field.
- Updater.CaptureDetails: the diagnostic read and write each have one
  outcome in the model. What `fs.writeFile` may leave on disk when it fails
  part-way is not modelled.
- Report.Reindexed: the notification's outcome is one boolean. The request
  body sent to the Indexing API is not modelled.
- Report.Reindexed: a notification rejected with `null` or `undefined` makes
  reading `error.message` at line 161 throw. `reindexPost` then rejects
  instead of returning false. The model has no such answer: every attempted
  notification yields a row, with `reindexed` true or false.
- Driver.PageLoop: when `reindexPost` rejects (the null notification above),
  the handler at lines 231-234 ends the loop. That post's row is never pushed
  and no further page is requested. The model does not capture this stop: its
  loop always pushes the row and goes on.
- Driver.ProcessAllPosts: a browse or a batch write rejected with `null` or
  `undefined` makes reading `error.message` at line 233 throw out of the
  `while`. The remainder write at lines 239-242 is then skipped and the
  promise rejects. The model treats every failed browse and batch write as
  carrying a message, so it always issues the remainder write after the loop.
- Driver.ProcessAllPosts: when the final remainder write throws, the script's
  promise rejects and `main` logs the error. The model instead returns the
  error as `flushError`, alongside the rows.
- Driver.PageLoop: a browse answer that is not an array of posts is not
  modelled.
- Driver.PageLoop: the recorded browse answers are finite and read as empty
  past their end, which is what makes the loop terminate. A platform that
  never answers with an empty page keeps the `while (true)` at line 190
  running forever; the model cannot express such a run.
