/** `processAllPosts`: page through the published posts older than the cutoff,
    run every post through the updater, collect the rows, and write them out in
    batches of twenty. The platform's pages, the per-post answers and the CSV
    writer's failures are oracle parameters. */
module Driver {
  import opened Posts
  import opened Updater
  import opened Report
  import opened Batching

  /** The command-line options the loop reads. `limit` is the parsed
      `--limit` (None when absent or not a number). */
  datatype RunOptions = RunOptions(limit: Option<int>, output: string, reindex: bool, date: string)

  /** `options.limit || 15`: a missing, unparsable or zero limit falls back to 15. */
  function PageSize(limit: Option<int>): (n: int)
    ensures n != 0
    ensures limit.Some? && limit.value != 0 ==> n == limit.value
    ensures limit.None? || limit.value == 0 ==> n == 15
  {
    if limit.Some? && limit.value != 0 then limit.value else 15
  }

  /** The browse filter: published posts whose publication date is before `date`. */
  function BrowseFilter(date: string): (f: string)
    ensures |f| == 31 + |date| && f[31..] == date
  {
    "status:published+published_at:<" + date
  }

  /** The arguments of one `api.posts.browse` call. */
  datatype BrowseRequest = BrowseRequest(limit: int, page: nat, filter: string)

  /** A post as a browse page lists it, together with the answers the outside
      world gives while that post is processed. */
  datatype Listed = Listed(post: Post, answers: PostOracle)

  /** The platform's answer to one browse call: a page of posts or a failure. */
  datatype PageResult = PageOk(posts: seq<Listed>) | PageError(message: string)

  /** The error the CSV write of batch `k` throws, if any: `faults[k - 1]`, and
      no error past the end of `faults`. */
  function WriteFault(faults: seq<Option<string>>, k: nat): (e: Option<string>)
    ensures k == 0 || k > |faults| ==> e.None?
  {
    if 1 <= k <= |faults| then faults[k - 1] else None
  }

  /** How the page loop ended. */
  datatype Halt =
    | NoMorePosts
    | BrowseFailed(page: nat, message: string)
    | BatchWriteFailed(batch: nat, message: string)

  /** The answer to the browse call for page `i + 1`; past the end of the
      oracle the platform has no more posts. */
  function PageAt(pages: seq<PageResult>, i: nat): (r: PageResult)
    ensures i >= |pages| ==> r == PageOk([])
  {
    if i < |pages| then pages[i] else PageOk([])
  }

  predicate NonEmptyPage(r: PageResult) {
    r.PageOk? && |r.posts| > 0
  }

  /** The posts of the first `n` pages, in the order the loop visits them. */
  function Browsed(pages: seq<PageResult>, n: nat): seq<Listed> {
    if n == 0 then []
    else Browsed(pages, n - 1) + (if PageAt(pages, n - 1).PageOk? then PageAt(pages, n - 1).posts else [])
  }

  /** The rows the loop pushes for the listed posts `posts`. */
  function RowsFor(posts: seq<Listed>, reindexOn: bool): seq<Row> {
    if posts == [] then []
    else
      var last := posts[|posts| - 1];
      RowsFor(posts[..|posts| - 1], reindexOn)
        + match ProcessPost(last.post, last.answers, reindexOn)
          case None => []
          case Some(row) => [row]
  }

  /** The rows actually pushed, given what each handled post yielded. */
  function Present(yielded: seq<Option<Row>>): (rows: seq<Row>)
    ensures |rows| <= |yielded|
  {
    if yielded == [] then []
    else
      var last := yielded[|yielded| - 1];
      Present(yielded[..|yielded| - 1]) + if last.Some? then [last.value] else []
  }

  /** What the posts handed to `updatePost` yielded, one entry per post. */
  ghost predicate Yields(posts: seq<Listed>, yielded: seq<Option<Row>>, reindexOn: bool) {
    && |yielded| == |posts|
    && forall j {:trigger ProcessPost(posts[j].post, posts[j].answers, reindexOn)} ::
         0 <= j < |posts| ==> yielded[j] == ProcessPost(posts[j].post, posts[j].answers, reindexOn)
  }

  /** Handing one more post to the loop extends both lists by one entry, and
      the pushed rows by at most that post's row. */
  lemma YieldsAppend(posts: seq<Listed>, yielded: seq<Option<Row>>, item: Listed, row: Option<Row>,
                     reindexOn: bool)
    requires Yields(posts, yielded, reindexOn)
    requires row == ProcessPost(item.post, item.answers, reindexOn)
    ensures Yields(posts + [item], yielded + [row], reindexOn)
    ensures Present(yielded + [row]) == Present(yielded) + if row.Some? then [row.value] else []
  {
    assert (yielded + [row])[..|yielded|] == yielded;
  }

  /** The rows pushed are `RowsFor` of the posts handled. */
  lemma {:induction false} PresentIsRowsFor(posts: seq<Listed>, yielded: seq<Option<Row>>, reindexOn: bool)
    requires Yields(posts, yielded, reindexOn)
    ensures Present(yielded) == RowsFor(posts, reindexOn)
  {
    if posts != [] {
      var n := |posts| - 1;
      assert Yields(posts[..n], yielded[..n], reindexOn);
      PresentIsRowsFor(posts[..n], yielded[..n], reindexOn);
    }
  }

  /** Every post gets at most one row, and a post whose update did not fault
      gets exactly one. */
  lemma {:induction false} RowsForLength(posts: seq<Listed>, reindexOn: bool)
    ensures |RowsFor(posts, reindexOn)| <= |posts|
    ensures (forall j :: 0 <= j < |posts| ==> posts[j].answers.update.fault.None?)
            ==> |RowsFor(posts, reindexOn)| == |posts|
  {
    if posts != [] {
      RowsForLength(posts[..|posts| - 1], reindexOn);
    }
  }

  /** The last post handed to `updatePost` pushed a row: after a batch write
      throws, the loop stops right after the post whose row completed it. */
  ghost predicate EndsWithRow(yielded: seq<Option<Row>>) {
    yielded != [] && yielded[|yielded| - 1].Some?
  }

  /** When the last post handed to `updatePost` pushed a row, that row is the
      last of the rows pushed: with `FailedBatchState` it is row `20 b` of the
      failed batch `b`, so no post was handled after the one that completed it. */
  lemma LastHandledPushedLastRow(seen: seq<Listed>, yielded: seq<Option<Row>>, reindexOn: bool)
    requires Yields(seen, yielded, reindexOn) && EndsWithRow(yielded)
    ensures var last := seen[|seen| - 1];
      && ProcessPost(last.post, last.answers, reindexOn).Some?
      && Present(yielded) == Present(yielded[..|yielded| - 1]) + [ProcessPost(last.post, last.answers, reindexOn).value]
  {
    var last := seen[|seen| - 1];
    assert yielded[|yielded| - 1] == ProcessPost(last.post, last.answers, reindexOn);
  }

  /** `seen` is `before` followed by the first few posts of `page`. */
  ghost predicate TakesFrom(seen: seq<Listed>, before: seq<Listed>, page: seq<Listed>) {
    |before| <= |seen| <= |before| + |page| && seen == before + page[..|seen| - |before|]
  }

  /** The bookkeeping the loop keeps between rows: the next batch number
      follows the full batches written so far, which are exactly the full
      batches of the rows, and none of their writes failed. */
  ghost predicate BatchState(output: string, results: seq<Row>, writes: seq<CsvWrite>, batchNumber: nat,
                             faults: seq<Option<string>>)
  {
    && batchNumber == |results| / BatchSize + 1
    && writes == FullBatches(output, results, |results| / BatchSize)
    && forall k :: 1 <= k < batchNumber ==> WriteFault(faults, k).None?
  }

  /** Pushing a row that does not complete a batch keeps the bookkeeping. */
  lemma PushRow(output: string, results: seq<Row>, writes: seq<CsvWrite>, batchNumber: nat,
                faults: seq<Option<string>>, row: Row)
    requires BatchState(output, results, writes, batchNumber, faults)
    requires (|results| + 1) % BatchSize != 0
    ensures BatchState(output, results + [row], writes, batchNumber, faults)
  {
    FullBatchesPrefix(output, results, [row], |results| / BatchSize);
  }

  /** Pushing a row that completes a batch: the write of the last twenty rows
      under the current batch number is the next full batch. */
  lemma PushRowFullBatch(output: string, results: seq<Row>, writes: seq<CsvWrite>, batchNumber: nat,
                         faults: seq<Option<string>>, row: Row)
    requires BatchState(output, results, writes, batchNumber, faults)
    requires (|results| + 1) % BatchSize == 0
    ensures var rs := results + [row];
      && batchNumber == |rs| / BatchSize
      && writes + [CsvWrite(BatchFile(output, batchNumber), rs[|rs| - BatchSize..])]
         == FullBatches(output, rs, |rs| / BatchSize)
      && (WriteFault(faults, batchNumber).None? ==>
            BatchState(output, rs, writes + [CsvWrite(BatchFile(output, batchNumber), rs[|rs| - BatchSize..])],
                       batchNumber + 1, faults))
  {
    var rs := results + [row];
    var n := |rs| / BatchSize;
    assert |rs| == BatchSize * n && n >= 1;
    assert |results| / BatchSize == n - 1;
    FullBatchesPrefix(output, results, [row], n - 1);
    assert rs[|rs| - BatchSize..] == rs[BatchSize * (n - 1)..BatchSize * (n - 1) + BatchSize];
  }

  /** The remainder write after the loop completes the batch files: with it
      (or without it, when the count is a multiple of twenty) the writes are
      exactly `Batches` of the rows. */
  lemma FlushRemainder(output: string, results: seq<Row>, writes: seq<CsvWrite>)
    requires writes == FullBatches(output, results, |results| / BatchSize)
    ensures Batches(output, results)
         == if |results| % BatchSize != 0
            then writes + [CsvWrite(BatchFile(output, |results| / BatchSize + 1), results[|results| - |results| % BatchSize..])]
            else writes
  {
    assert BatchSize * (|results| / BatchSize) == |results| - |results| % BatchSize;
  }

  /** The bookkeeping after a batch write threw: the failed write is the last
      full batch, and every earlier write succeeded. */
  ghost predicate FailedBatchState(output: string, results: seq<Row>, writes: seq<CsvWrite>, batchNumber: nat,
                                   faults: seq<Option<string>>)
  {
    && |results| % BatchSize == 0
    && batchNumber == |results| / BatchSize
    && writes == FullBatches(output, results, batchNumber)
    && WriteFault(faults, batchNumber).Some?
    && forall k :: 1 <= k < batchNumber ==> WriteFault(faults, k).None?
  }

  /** `results.push(row)` followed by the check at every multiple of twenty:
      the last twenty rows are written as batch `batchNumber`, and the number
      moves on unless the write throws, in which case its error is `failure`. */
  method AppendRow(
    output: string,
    faults: seq<Option<string>>,
    results0: seq<Row>, writes0: seq<CsvWrite>, batchNumber0: nat,
    row: Row)
    returns (results: seq<Row>, writes: seq<CsvWrite>, batchNumber: nat, failure: Option<string>)
    requires BatchState(output, results0, writes0, batchNumber0, faults)
    ensures results == results0 + [row]
    ensures writes == if |results| % BatchSize == 0
                      then writes0 + [CsvWrite(BatchFile(output, batchNumber0), results[|results| - BatchSize..])]
                      else writes0
    ensures failure == if |results| % BatchSize == 0 then WriteFault(faults, batchNumber0) else None
    ensures failure.None? ==> BatchState(output, results, writes, batchNumber, faults)
    ensures failure.Some? ==> batchNumber == batchNumber0 && FailedBatchState(output, results, writes, batchNumber, faults)
  {
    results, writes, batchNumber, failure := results0 + [row], writes0, batchNumber0, None;
    if |results| % BatchSize == 0 {
      PushRowFullBatch(output, results0, writes0, batchNumber0, faults, row);
      writes := writes + [CsvWrite(BatchFile(output, batchNumber), results[|results| - BatchSize..])];
      failure := WriteFault(faults, batchNumber);
      if failure.None? {
        batchNumber := batchNumber + 1;
      }
    } else {
      PushRow(output, results0, writes0, batchNumber0, faults, row);
    }
  }

  /** The body of the post loop up to the push: the row the listed post
      yields, if any. */
  method HandlePost(item: Listed, reindexOn: bool, ghost seen: seq<Listed>, ghost yielded: seq<Option<Row>>)
    returns (row: Option<Row>)
    requires Yields(seen, yielded, reindexOn)
    ensures Yields(seen + [item], yielded + [row], reindexOn)
    ensures Present(yielded + [row]) == Present(yielded) + if row.Some? then [row.value] else []
  {
    row := ProcessPost(item.post, item.answers, reindexOn);
    YieldsAppend(seen, yielded, item, row, reindexOn);
  }

  /** One pass of the post loop: hand the post to `updatePost`, push its row
      if it yields one, and write the last twenty rows as batch `batchNumber`
      when the list reaches a multiple of twenty. */
  method ProcessListed(
    output: string, reindexOn: bool,
    item: Listed,
    faults: seq<Option<string>>,
    results0: seq<Row>, writes0: seq<CsvWrite>, batchNumber0: nat,
    ghost seen: seq<Listed>, ghost yielded0: seq<Option<Row>>)
    returns (results: seq<Row>, writes: seq<CsvWrite>, batchNumber: nat,
             failure: Option<string>, ghost yielded: seq<Option<Row>>)
    requires Yields(seen, yielded0, reindexOn) && results0 == Present(yielded0)
    requires BatchState(output, results0, writes0, batchNumber0, faults)
    ensures Yields(seen + [item], yielded, reindexOn) && results == Present(yielded)
    ensures failure.None? ==> BatchState(output, results, writes, batchNumber, faults)
    ensures failure.Some? ==>
      && failure == WriteFault(faults, batchNumber)
      && FailedBatchState(output, results, writes, batchNumber, faults)
      && EndsWithRow(yielded)
  {
    var row := HandlePost(item, reindexOn, seen, yielded0);
    yielded := yielded0 + [row];
    results, writes, batchNumber, failure := results0, writes0, batchNumber0, None;
    if row.Some? {
      results, writes, batchNumber, failure := AppendRow(output, faults, results, writes, batchNumber, row.value);
    }
  }

  /** The `for (const post of posts)` loop over one page: push the row of
      every post that yields one, and write the last twenty rows as batch
      `batchNumber` whenever the list reaches a multiple of twenty. A batch
      write that throws ends the page early; its error is `failure`. The
      state the loop threads through (`results`, the writes issued, the batch
      number, and the ghost lists `seen` of posts handed to `updatePost` and
      `yielded` of what each one yielded) comes in and goes out. */
  method ProcessPage(
    opts: RunOptions,
    posts: seq<Listed>,
    faults: seq<Option<string>>,
    results0: seq<Row>, writes0: seq<CsvWrite>, batchNumber0: nat,
    ghost seen0: seq<Listed>, ghost yielded0: seq<Option<Row>>)
    returns (results: seq<Row>, writes: seq<CsvWrite>, batchNumber: nat,
             failure: Option<string>, ghost seen: seq<Listed>, ghost yielded: seq<Option<Row>>)
    requires Yields(seen0, yielded0, opts.reindex) && results0 == Present(yielded0)
    requires BatchState(opts.output, results0, writes0, batchNumber0, faults)
    ensures Yields(seen, yielded, opts.reindex) && results == Present(yielded)
    ensures TakesFrom(seen, seen0, posts)
    ensures failure.None? ==> seen == seen0 + posts && BatchState(opts.output, results, writes, batchNumber, faults)
    ensures failure.Some? ==>
      && |seen0| < |seen|
      && failure == WriteFault(faults, batchNumber)
      && FailedBatchState(opts.output, results, writes, batchNumber, faults)
      && EndsWithRow(yielded)
  {
    results, writes, batchNumber, seen, yielded := results0, writes0, batchNumber0, seen0, yielded0;
    failure := None;
    for i := 0 to |posts|
      invariant seen == seen0 + posts[..i]
      invariant Yields(seen, yielded, opts.reindex) && results == Present(yielded)
      invariant BatchState(opts.output, results, writes, batchNumber, faults)
      invariant failure.None?
    {
      results, writes, batchNumber, failure, yielded :=
        ProcessListed(opts.output, opts.reindex, posts[i], faults, results, writes, batchNumber, seen, yielded);
      assert posts[..i + 1] == posts[..i] + [posts[i]];
      seen := seen + [posts[i]];
      if failure.Some? {
        return;
      }
    }
    assert posts[..|posts|] == posts;
  }

  /** "Write any remaining results": after the page loop, whatever ended it,
      the rows past the last multiple of twenty go to batch `batchNumber`.
      Afterwards the writes are exactly `Batches` of the rows, and every write
      but possibly the last one succeeded. */
  method WriteRemainder(
    output: string,
    faults: seq<Option<string>>,
    results: seq<Row>, writes0: seq<CsvWrite>, batchNumber: nat)
    returns (writes: seq<CsvWrite>, flushError: Option<string>)
    requires BatchState(output, results, writes0, batchNumber, faults)
          || FailedBatchState(output, results, writes0, batchNumber, faults)
    ensures writes == Batches(output, results) && Flatten(writes) == results
    ensures flushError == if |results| % BatchSize != 0 then WriteFault(faults, |results| / BatchSize + 1) else None
    ensures forall k :: 1 <= k < |writes| ==> WriteFault(faults, k).None?
  {
    FlushRemainder(output, results, writes0);
    BatchesPartition(output, results);
    writes, flushError := writes0, None;
    if |results| % BatchSize != 0 {
      writes := writes + [CsvWrite(BatchFile(output, batchNumber), results[|results| - |results| % BatchSize..])];
      flushError := WriteFault(faults, batchNumber);
    }
  }

  /** The `while (true)` loop of `processAllPosts`: request pages 1, 2, 3, ...
      until a page is empty, a browse call fails, or a batch write throws.
      Returns the state the loop leaves behind for the remainder write. */
  method PageLoop(
    opts: RunOptions,
    pages: seq<PageResult>,
    faults: seq<Option<string>>)
    returns (
      results: seq<Row>,
      requests: seq<BrowseRequest>,
      writes: seq<CsvWrite>,
      batchNumber: nat,
      halt: Halt,
      ghost seen: seq<Listed>,
      ghost yielded: seq<Option<Row>>)
    ensures Yields(seen, yielded, opts.reindex) && results == Present(yielded)
    ensures 1 <= |requests| <= |pages| + 1
    ensures forall i :: 0 <= i < |requests| ==>
      requests[i] == BrowseRequest(PageSize(opts.limit), i + 1, BrowseFilter(opts.date))
    ensures forall i :: 0 <= i < |requests| - 1 ==> NonEmptyPage(PageAt(pages, i))
    ensures halt.NoMorePosts? ==> PageAt(pages, |requests| - 1) == PageOk([])
    ensures halt.BrowseFailed? ==>
      halt.page == |requests| && PageAt(pages, |requests| - 1) == PageError(halt.message)
    ensures !halt.BatchWriteFailed? ==>
      seen == Browsed(pages, |requests| - 1) && BatchState(opts.output, results, writes, batchNumber, faults)
    ensures halt.BatchWriteFailed? ==>
      && halt.batch == batchNumber && WriteFault(faults, batchNumber) == Some(halt.message)
      && FailedBatchState(opts.output, results, writes, batchNumber, faults)
      && EndsWithRow(yielded)
      && PageAt(pages, |requests| - 1).PageOk?
      && TakesFrom(seen, Browsed(pages, |requests| - 1), PageAt(pages, |requests| - 1).posts)
      && |Browsed(pages, |requests| - 1)| < |seen|
  {
    results, requests, writes, seen, yielded := [], [], [], [], [];
    halt := NoMorePosts;
    var limit := PageSize(opts.limit);
    var filter := BrowseFilter(opts.date);
    var page := 1;
    batchNumber := 1;

    while true
      invariant 1 <= page <= |pages| + 1
      invariant |requests| == page - 1
      invariant forall i :: 0 <= i < |requests| ==> requests[i] == BrowseRequest(limit, i + 1, filter)
      invariant forall i :: 0 <= i < page - 1 ==> NonEmptyPage(PageAt(pages, i))
      invariant seen == Browsed(pages, page - 1)
      invariant Yields(seen, yielded, opts.reindex) && results == Present(yielded)
      invariant BatchState(opts.output, results, writes, batchNumber, faults)
      decreases |pages| + 1 - page
    {
      var fetched := PageAt(pages, page - 1);
      requests := requests + [BrowseRequest(limit, page, filter)];
      if fetched.PageError? {
        halt := BrowseFailed(page, fetched.message);
        return;
      }
      var posts := fetched.posts;
      if |posts| == 0 {
        halt := NoMorePosts;
        return;
      }
      assert page - 1 < |pages| && NonEmptyPage(PageAt(pages, page - 1));
      assert Browsed(pages, page) == Browsed(pages, page - 1) + posts;

      var failure;
      results, writes, batchNumber, failure, seen, yielded :=
        ProcessPage(opts, posts, faults, results, writes, batchNumber, seen, yielded);
      if failure.Some? {
        halt := BatchWriteFailed(batchNumber, failure.value);
        return;
      }
      page := page + 1;
    }
  }

  /** `processAllPosts`. Returns the rows, the browse calls made, the CSV
      writes issued, how the page loop ended, and the error thrown by the
      final remainder write if it failed; `seen` is every post handed to
      `updatePost`, in order, and `yielded` what each one yielded. */
  method ProcessAllPosts(
    opts: RunOptions,
    pages: seq<PageResult>,
    faults: seq<Option<string>>)
    returns (
      results: seq<Row>,
      requests: seq<BrowseRequest>,
      writes: seq<CsvWrite>,
      halt: Halt,
      flushError: Option<string>,
      ghost seen: seq<Listed>,
      ghost yielded: seq<Option<Row>>)
    // the batch files partition the rows (WriteRemainder), in the shape Batching.BatchesShape describes
    ensures writes == Batches(opts.output, results)
    // one row per handled post whose outcome carries a post, in order (see PresentIsRowsFor)
    ensures Yields(seen, yielded, opts.reindex) && results == Present(yielded)
    // pages are requested as 1, 2, 3, ... with the same limit and filter
    ensures 1 <= |requests| <= |pages| + 1
    ensures forall i :: 0 <= i < |requests| ==>
      requests[i] == BrowseRequest(PageSize(opts.limit), i + 1, BrowseFilter(opts.date))
    // every page before the last one requested was a non-empty page
    ensures forall i :: 0 <= i < |requests| - 1 ==> NonEmptyPage(PageAt(pages, i))
    // the loop stops at the first empty page, at the first failed browse, or at a failed batch write
    ensures halt.NoMorePosts? ==> PageAt(pages, |requests| - 1) == PageOk([])
    ensures halt.BrowseFailed? ==>
      halt.page == |requests| && PageAt(pages, |requests| - 1) == PageError(halt.message)
    ensures !halt.BatchWriteFailed? ==> seen == Browsed(pages, |requests| - 1)
    ensures halt.BatchWriteFailed? ==>
      && WriteFault(faults, halt.batch) == Some(halt.message)
      && halt.batch == |results| / BatchSize && |results| % BatchSize == 0
      && PageAt(pages, |requests| - 1).PageOk?
      && TakesFrom(seen, Browsed(pages, |requests| - 1), PageAt(pages, |requests| - 1).posts)
      && |Browsed(pages, |requests| - 1)| < |seen|
      && EndsWithRow(yielded)
    // at most one row per post handed to updatePost
    ensures |results| <= |seen|
    // every batch write before the last one issued succeeded
    ensures forall k :: 1 <= k < |writes| ==> WriteFault(faults, k).None?
    ensures !halt.BatchWriteFailed? ==> forall k :: 1 <= k <= |results| / BatchSize ==> WriteFault(faults, k).None?
    // the remainder write runs after the loop whatever ended it
    ensures flushError == if |results| % BatchSize != 0 then WriteFault(faults, |results| / BatchSize + 1) else None
  {
    var batchNumber;
    results, requests, writes, batchNumber, halt, seen, yielded := PageLoop(opts, pages, faults);
    writes, flushError := WriteRemainder(opts.output, faults, results, writes, batchNumber);
  }
}
