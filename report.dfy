/** One post's journey from `updatePost` to a row of the result list: the
    reindex gating, the derived row flags, and the `--reindex` option parser. */
module Report {
  import opened Posts
  import opened Updater

  /** A row of the results list, in the CSV's column order. */
  datatype Row = Row(
    id: string,
    title: string,
    excerptCopied: bool,
    madePublic: bool,
    updated: bool,
    reindexed: bool,
    error: string)

  /** A value handed to the `--reindex` option parser. */
  datatype CliValue = CliString(s: string) | CliBool(b: bool)

  /** The `--reindex` parser: `'true'`, `true` and the empty string switch
      reindexing on; every other value switches it off. */
  function ParseReindex(v: CliValue): (on: bool)
    ensures on <==> v in {CliString("true"), CliBool(true), CliString("")}
  {
    match v
    case CliString(s) => s == "true" || s == ""
    case CliBool(b) => b
  }

  /** The `reindex` option: on by default, otherwise whatever the parser says. */
  function ReindexOption(arg: Option<CliValue>): (on: bool)
    ensures arg.None? ==> on
    ensures arg.Some? ==> on == ParseReindex(arg.value)
  {
    if arg.None? then true else ParseReindex(arg.value)
  }

  /** Anything but exactly `true`, `"true"` or `""` turns reindexing off; the
      parser is case-sensitive. */
  lemma ReindexParserRejects()
    ensures !ReindexOption(Some(CliString("false")))
    ensures !ReindexOption(Some(CliString("TRUE")))
    ensures !ReindexOption(Some(CliString("1")))
    ensures !ReindexOption(Some(CliBool(false)))
    ensures ReindexOption(Some(CliString(""))) && ReindexOption(None)
  {
  }

  /** The URL `reindexPost` is asked to notify for an outcome: only an updated
      post, and only while the option is on, reaches the indexing API. */
  function ReindexTarget(outcome: Outcome, reindexOn: bool): (url: Option<string>)
    ensures url.Some? <==> outcome.post.Some? && outcome.updated && reindexOn
    ensures url.Some? ==> url.value == outcome.post.value.url
  {
    if outcome.post.Some? && outcome.updated && reindexOn then Some(outcome.post.value.url) else None
  }

  /** `updated ? await reindexPost(url) : false`, where `reindexPost` answers
      `false` without calling out when the option is off and otherwise
      reports whether the notification went through (`notified`). The caller
      reaches this only for an outcome that carries a post. */
  function Reindexed(outcome: Outcome, reindexOn: bool, notified: bool): (r: bool)
    requires outcome.post.Some?
    ensures r <==> ReindexTarget(outcome, reindexOn).Some? && notified
  {
    if outcome.updated then (if !reindexOn then false else notified) else false
  }

  /** The row pushed for `original` once its outcome carries a post. */
  function ResultRow(original: Post, outcome: Outcome, reindexed: bool): (row: Row)
    requires outcome.post.Some?
    ensures row.id == original.id && row.title == original.title
    ensures row.excerptCopied <==> OrEmpty(original.metaDescription) != OrEmpty(outcome.post.value.metaDescription)
    ensures row.madePublic <==> IsPublic(outcome.post.value.visibility) && !IsPublic(original.visibility)
    ensures row.updated == outcome.updated && row.reindexed == reindexed
    ensures row.error == "" <==> outcome.error.None? || outcome.error == Some("")
    ensures outcome.error.Some? ==> row.error == outcome.error.value
  {
    var stored := outcome.post.value;
    Row(original.id, original.title,
        OrEmpty(original.metaDescription) != OrEmpty(stored.metaDescription),
        IsPublic(stored.visibility) && !IsPublic(original.visibility),
        outcome.updated, reindexed,
        OrEmpty(outcome.error))
  }

  /** The answers one post receives over its whole processing. */
  datatype PostOracle = PostOracle(update: UpdateOracle, notified: bool)

  /** The body of the `for (const post of posts)` loop up to the push: the row
      it pushes, or None when the post is skipped because the outcome has no post. */
  function ProcessPost(p: Post, o: PostOracle, reindexOn: bool): (row: Option<Row>)
    ensures row.None? <==> o.update.fault.Some?
    ensures row.Some? ==> row.value.id == p.id && row.value.title == p.title
    ensures row.Some? ==> row.value.updated == UpdatePost(p, o.update).outcome.updated
    ensures row.Some? ==> row.value.reindexed == (ReindexTarget(UpdatePost(p, o.update).outcome, reindexOn).Some? && o.notified)
  {
    var outcome := UpdatePost(p, o.update).outcome;
    if outcome.post.None? then None
    else Some(ResultRow(p, outcome, Reindexed(outcome, reindexOn, o.notified)))
  }

  /** A post whose update faulted (the outcome carries the `null` post) is
      skipped: no row, and no reindex target. */
  lemma SkippedPostHasNoRow(p: Post, o: PostOracle, reindexOn: bool)
    requires o.update.fault.Some?
    ensures ProcessPost(p, o, reindexOn).None?
    ensures ReindexTarget(UpdatePost(p, o.update).outcome, reindexOn).None?
  {
  }

  /** A post that was not updated yields a row with both change flags false,
      and its error column is the rejected edit's message or empty. */
  lemma NotUpdatedRowHasNoChanges(p: Post, o: PostOracle, reindexOn: bool)
    requires o.update.fault.None?
    requires !UpdatePost(p, o.update).outcome.updated
    ensures ProcessPost(p, o, reindexOn).Some?
    ensures !ProcessPost(p, o, reindexOn).value.excerptCopied
    ensures !ProcessPost(p, o, reindexOn).value.madePublic
    ensures !ProcessPost(p, o, reindexOn).value.reindexed
    ensures ProcessPost(p, o, reindexOn).value.error
         == if NeedsEdit(p) then o.update.edit.message else ""
  {
    var step := UpdatePost(p, o.update);
    assert step.outcome.post == Some(p);
  }

  /** When the platform stores exactly the staged fields, the row flags report
      exactly what was staged: `excerptCopied` iff the meta-description was
      staged, `madePublic` iff the visibility was. */
  lemma AppliedEditFlagsMatchStaging(p: Post, o: PostOracle, reindexOn: bool)
    requires o.update.fault.None? && NeedsEdit(p)
    requires o.update.edit == Edited(Apply(p, Stage(p)))
    ensures ProcessPost(p, o, reindexOn).Some?
    ensures ProcessPost(p, o, reindexOn).value.updated
    ensures ProcessPost(p, o, reindexOn).value.excerptCopied <==> MetaDescriptionKey in Stage(p)
    ensures ProcessPost(p, o, reindexOn).value.madePublic <==> VisibilityKey in Stage(p)
    ensures ProcessPost(p, o, reindexOn).value.error == ""
  {
    var q := Apply(p, Stage(p));
    if MetaDescriptionKey in Stage(p) {
      assert OrEmpty(p.metaDescription) == "";
      assert OrEmpty(q.metaDescription) == p.customExcerpt.value != "";
    } else {
      assert q.metaDescription == p.metaDescription;
    }
  }

  /** The indexing API's answer fills only the `reindexed` column. */
  lemma ReindexOnlyFillsReindexed(p: Post, o: PostOracle, reindexOn: bool, notified: bool)
    requires o.update.fault.None?
    ensures ProcessPost(p, o.(notified := notified), reindexOn).Some? && ProcessPost(p, o, reindexOn).Some?
    ensures ProcessPost(p, o.(notified := notified), reindexOn).value.(reindexed := false)
         == ProcessPost(p, o, reindexOn).value.(reindexed := false)
  {
  }

  /** Scenario: excerpt "A", empty meta-description, public, edit succeeds and
      the platform stores the staged field: the row reads copied, not made
      public, updated, no error. */
  lemma ExcerptCopiedScenario(p: Post, o: PostOracle)
    requires p.customExcerpt == Some("A") && p.metaDescription == Some("") && IsPublic(p.visibility)
    requires o.update.fault.None? && o.update.edit == Edited(Apply(p, Stage(p)))
    ensures ProcessPost(p, o, false)
         == Some(Row(p.id, p.title, true, false, true, false, ""))
  {
    assert Stage(p) == map[MetaDescriptionKey := "A"];
  }
}
