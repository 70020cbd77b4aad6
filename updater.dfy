/** The per-post update routine `updatePost`: which fields it stages, whether it
    sends an edit, how it classifies the result, and the best-effort diagnostic
    capture it runs when the edit is rejected. Every call into the Admin API or
    the file system is an oracle answer passed in as a parameter. */
module Updater {
  import opened Posts

  const MetaDescriptionKey: string := "meta_description"
  const VisibilityKey: string := "visibility"
  const IdKey: string := "id"
  const UpdatedAtKey: string := "updated_at"

  /** The `updatedFields` object: field name to the new value. */
  function Stage(p: Post): (fields: map<string, string>)
    ensures fields.Keys <= {MetaDescriptionKey, VisibilityKey}
    ensures MetaDescriptionKey in fields <==> Truthy(p.customExcerpt) && !Truthy(p.metaDescription)
    ensures MetaDescriptionKey in fields ==> fields[MetaDescriptionKey] == p.customExcerpt.value
    ensures VisibilityKey in fields <==> !IsPublic(p.visibility)
    ensures VisibilityKey in fields ==> fields[VisibilityKey] == Public
  {
    var excerpt := if Truthy(p.customExcerpt) && !Truthy(p.metaDescription)
                   then map[MetaDescriptionKey := p.customExcerpt.value] else map[];
    var visibility := if !IsPublic(p.visibility) then map[VisibilityKey := Public] else map[];
    excerpt + visibility
  }

  /** The `isUpdated` flag: something was staged. */
  predicate NeedsEdit(p: Post) {
    (Truthy(p.customExcerpt) && !Truthy(p.metaDescription)) || !IsPublic(p.visibility)
  }

  /** The flag and the staged object agree: `isUpdated` is set exactly when
      `updatedFields` is non-empty. */
  lemma NeedsEditIffStaged(p: Post)
    ensures NeedsEdit(p) <==> |Stage(p)| > 0
  {
    if MetaDescriptionKey in Stage(p) {
      assert |Stage(p)| > 0;
    } else if VisibilityKey in Stage(p) {
      assert |Stage(p)| > 0;
    } else {
      assert Stage(p).Keys == {};
    }
  }

  /** The object handed to `api.posts.edit`: the id, the last-known `updated_at`
      as concurrency token, and the staged fields spread over them. */
  function EditPayload(p: Post): (payload: map<string, string>)
    ensures payload.Keys == {IdKey, UpdatedAtKey} + Stage(p).Keys
    ensures payload.Keys <= {IdKey, UpdatedAtKey, MetaDescriptionKey, VisibilityKey}
    ensures payload[IdKey] == p.id && payload[UpdatedAtKey] == p.updatedAt
    ensures forall k :: k in Stage(p) ==> payload[k] == Stage(p)[k]
  {
    map[IdKey := p.id, UpdatedAtKey := p.updatedAt] + Stage(p)
  }

  /** What `api.posts.edit` does: resolve with the stored post, or reject. */
  datatype EditResult = Edited(post: Post) | EditRejected(message: string)

  /** What `api.posts.read` (with authors and tags) does inside `fetchFullPostDetails`. */
  datatype DetailResult = DetailRead(post: Post) | DetailUnavailable(message: string)

  /** Every answer the outside world gives while one post is updated:
      `edit` the edit call, `detail` the diagnostic read and `detailWritten`
      whether the diagnostic file write succeeds. `fault` stands for the outer
      catch (lines 142-145), which the source reaches only when the edit is
      rejected with a null or undefined value, so that reading its `message`
      at line 127 throws; the model records no edit payload and no diagnostic
      for it. */
  datatype UpdateOracle = UpdateOracle(
    fault: Option<string>,
    edit: EditResult,
    detail: DetailResult,
    detailWritten: bool)

  /** The `{post, updated, error}` object; `post == None` is the `null` post of
      the outer catch, `error == None` is `error: null`. */
  datatype Outcome = Outcome(post: Option<Post>, updated: bool, error: Option<string>)

  /** A diagnostic file left on disk: its name and the post serialised into it. */
  datatype DiagnosticFile = DiagnosticFile(name: string, post: Post)

  /** One run of `updatePost`: its outcome, the edit payload it sent (if any) and
      the diagnostic file it left (if any). */
  datatype UpdateStep = UpdateStep(
    outcome: Outcome,
    edit: Option<map<string, string>>,
    diagnostic: Option<DiagnosticFile>)

  function DetailsFileName(id: string): string {
    "post_" + id + "_details.json"
  }

  /** `fetchFullPostDetails` followed by `logPostDetails`: a read failure yields
      `null` and skips the write, a write failure is logged and swallowed. The
      file is named after the id of the post that was read. */
  function CaptureDetails(detail: DetailResult, written: bool): (file: Option<DiagnosticFile>)
    ensures file.Some? <==> detail.DetailRead? && written
    ensures file.Some? ==> file.value.post == detail.post && file.value.name == DetailsFileName(detail.post.id)
  {
    match detail
    case DetailUnavailable(_) => None
    case DetailRead(full) => if written then Some(DiagnosticFile(DetailsFileName(full.id), full)) else None
  }

  /** `updatePost`. */
  function UpdatePost(p: Post, o: UpdateOracle): (r: UpdateStep)
    // the outer catch: post null, not updated, the exception's message (no edit recorded)
    ensures o.fault.Some? ==> r == UpdateStep(Outcome(None, false, o.fault), None, None)
    ensures o.fault.None? ==> r.outcome.post.Some?
    // an edit is sent exactly when something was staged, and carries the payload
    ensures o.fault.None? ==> (r.edit.Some? <==> NeedsEdit(p))
    ensures r.edit.Some? ==> r.edit.value == EditPayload(p)
    // updated iff the edit was sent and succeeded
    ensures r.outcome.updated <==> r.edit.Some? && o.edit.Edited?
    ensures r.outcome.updated ==> r.outcome == Outcome(Some(o.edit.post), true, None)
    ensures r.edit.Some? && o.edit.EditRejected? ==> r.outcome == Outcome(Some(p), false, Some(o.edit.message))
    ensures o.fault.None? && r.edit.None? ==> r.outcome == Outcome(Some(p), false, None)
    // diagnostics are captured only after a rejected edit
    ensures r.diagnostic.Some? ==> r.edit.Some? && o.edit.EditRejected?
    ensures r.edit.Some? && o.edit.EditRejected? ==> r.diagnostic == CaptureDetails(o.detail, o.detailWritten)
  {
    if o.fault.Some? then
      UpdateStep(Outcome(None, false, o.fault), None, None)
    else if !NeedsEdit(p) then
      UpdateStep(Outcome(Some(p), false, None), None, None)
    else
      match o.edit
      case Edited(stored) =>
        UpdateStep(Outcome(Some(stored), true, None), Some(EditPayload(p)), None)
      case EditRejected(message) =>
        UpdateStep(Outcome(Some(p), false, Some(message)), Some(EditPayload(p)), CaptureDetails(o.detail, o.detailWritten))
  }

  /** A post that already has its meta-description (or no excerpt) and is public
      is left alone: no edit, not updated, no error. */
  lemma NothingStagedNoEdit(p: Post, o: UpdateOracle)
    requires o.fault.None?
    requires !(Truthy(p.customExcerpt) && !Truthy(p.metaDescription)) && IsPublic(p.visibility)
    ensures UpdatePost(p, o).edit.None?
    ensures UpdatePost(p, o).outcome == Outcome(Some(p), false, None)
  {
    assert Stage(p).Keys == {};
  }

  /** Whatever the diagnostic read or write does, the outcome of a rejected
      edit is the same: the original post, not updated, the edit's message. */
  lemma DiagnosticsNeverMaskEditError(p: Post, o: UpdateOracle, detail: DetailResult, written: bool)
    requires o.fault.None? && NeedsEdit(p) && o.edit.EditRejected?
    ensures UpdatePost(p, o.(detail := detail, detailWritten := written)).outcome
         == UpdatePost(p, o).outcome
         == Outcome(Some(p), false, Some(o.edit.message))
  {
  }

  /** The field values the platform stores when it applies `fields` to `p`. */
  function Apply(p: Post, fields: map<string, string>): (q: Post)
    ensures q.id == p.id && q.title == p.title && q.url == p.url
    ensures q.metaDescription == if MetaDescriptionKey in fields then Some(fields[MetaDescriptionKey]) else p.metaDescription
    ensures q.visibility == if VisibilityKey in fields then Some(fields[VisibilityKey]) else p.visibility
  {
    p.(metaDescription := if MetaDescriptionKey in fields then Some(fields[MetaDescriptionKey]) else p.metaDescription,
       visibility := if VisibilityKey in fields then Some(fields[VisibilityKey]) else p.visibility)
  }

  /** Staging is idempotent: once the platform has applied the staged fields,
      a second pass over the stored post stages nothing. */
  lemma StageIdempotent(p: Post)
    ensures !NeedsEdit(Apply(p, Stage(p)))
  {
    var q := Apply(p, Stage(p));
    assert Stage(q).Keys == {};
  }

  /** Scenario: excerpt "A", empty meta-description, already public: only the
      meta-description is staged, and the edit carries it with id and token. */
  lemma ExcerptOnlyScenario(p: Post)
    requires p.customExcerpt == Some("A") && p.metaDescription == Some("") && IsPublic(p.visibility)
    ensures Stage(p) == map[MetaDescriptionKey := "A"]
    ensures EditPayload(p) == map[IdKey := p.id, UpdatedAtKey := p.updatedAt, MetaDescriptionKey := "A"]
  {
  }
}
