/** Creating, revising, approving and archiving an Epic
    (src/ai_layer/application/epic_lifecycle.py:28-61, 115-293, 339-384). */
module EpicLifecycle {
  import opened Epics
  import opened Options
  import SpecEditor

  /** `create` */
  function Create(title: string, spec: string): Result<Epic> {
    var _ :- BoundedText(title, MAX_EPIC_TITLE_CHARS, true);
    var content :- BoundedText(spec, MAX_EPIC_SPEC_CHARS, true);
    Ok(Epic(Draft, map[1 := content], 1, None, None, None, None, "", 0, NoReason, [], {}))
  }

  predicate Revisable(e: Epic) { e.status.Draft? || e.status.Approved? }

  /** What a revision says about itself. */
  datatype Note = Note(changeSummary: string, rationale: string)

  /** `_persist_manual_revision` */
  function PersistManualRevision(e: Epic, content: string, note: Note): Result<Epic> {
    var current :- CurrentSpec(e);
    if content == current then Ok(e)
    else
      var _ :- BoundedText(note.changeSummary, 4_000, true);
      var _ :- BoundedText(note.rationale, 8_000, false);
      Ok(e.(specs := e.specs[e.current + 1 := content], current := e.current + 1, status := Draft,
            reason := NoReason, approved := None, execution := None))
  }

  /** `revise_spec` */
  function ReviseSpec(e: Epic, spec: string, note: Note): Result<Epic> {
    if !Revisable(e) then Err(NotRevisable)
    else
      var content :- BoundedText(spec, MAX_EPIC_SPEC_CHARS, true);
      PersistManualRevision(e, content, note)
  }

  /** The content `edit_spec` asks for. */
  function EditedContent(current: string, edits: seq<SpecEditor.Edit>): Result<string> {
    var edited := SpecEditor.Edited(current, edits);
    if edited.Err? then Err(BadEdit) else BoundedText(edited.value, MAX_EPIC_SPEC_CHARS, true)
  }

  /** `edit_spec` */
  function EditSpec(e: Epic, expected: int, edits: seq<SpecEditor.Edit>, note: Note): Result<Epic> {
    if !Revisable(e) then Err(NotRevisable)
    else if expected <= 0 then Err(BadVersion)
    else if expected != e.current then Err(VersionConflict)
    else
      var current :- CurrentSpec(e);
      var content :- EditedContent(current, edits);
      PersistManualRevision(e, content, note)
  }

  /** `approve`; `quality` stands for an empty `missing_recommended_sections` of `spec_quality`. */
  function Approve(e: Epic, quality: string -> bool): Result<Epic> {
    if !e.status.Draft? then Err(NotDraft)
    else
      var current :- CurrentSpec(e);
      if !quality(current) then Err(QualityGate)
      else Ok(e.(status := Approved, approved := Some(e.current), execution := None))
  }

  /** `archive` */
  function Archive(e: Epic): Result<Epic> {
    if !e.status.Completed? then Err(NotCompleted) else Ok(e.(status := Archived))
  }
}
