/**
 * The edit dialog of a record: its form is filled from the record it is given, and on
 * submit it sends an update of the edited fields to that record's row. `parseFloat` (in
 * tenths of a degree) is a parameter.
 */
module EditRecordModal {
  import opened Wrappers
  import opened Text
  import opened RecordTypes

  datatype EditForm = EditForm(
    title: string,
    details: string,
    notes: string,
    symptomType: Option<SymptomType>,
    temperature: string,
    photoUrl: Option<string>)

  const EmptyForm: EditForm := EditForm("", "", "", None, "", None)

  /** The form of a record: missing notes, type and temperature as `""`, a missing or empty photo as `null`. */
  function FormFromRecord(r: Record): (f: EditForm)
    ensures f.title == r.body.title && f.details == r.body.details
    ensures f.notes == "" <==> !HasNotes(r)
    ensures HasNotes(r) ==> f.notes == r.body.notes.value
    ensures f.symptomType == r.body.symptomType
    ensures f.temperature == "" <==> r.body.temperature.None?
    ensures f.photoUrl.Some? <==> r.body.photoUrl.Some? && r.body.photoUrl.value != ""
  {
    EditForm(
      r.body.title,
      r.body.details,
      if HasNotes(r) then r.body.notes.value else "",
      r.body.symptomType,
      if r.body.temperature.Some? then TenthsToString(r.body.temperature.value) else "",
      if r.body.photoUrl.Some? && r.body.photoUrl.value != "" then r.body.photoUrl else None)
  }

  /** `updateData`: title, details, notes and photo always; the symptom type and temperature only for a symptom. */
  function UpdateData(kind: RecordType, f: EditForm, parseTenths: string -> int): (p: RecordPatch)
    ensures p.title == Some(f.title) && p.details == Some(f.details)
    ensures p.notes == Some(if f.notes == "" then None else Some(f.notes))
    ensures p.photoUrl == Some(if f.photoUrl.Some? && f.photoUrl.value != "" then f.photoUrl else None)
    ensures p.symptomType.Some? <==> kind == Symptom
    ensures p.temperature.Some? <==> kind == Symptom
    ensures kind == Symptom ==> p.symptomType == Some(f.symptomType)
    ensures kind == Symptom ==> p.temperature == Some(if f.temperature == "" then None else Some(parseTenths(f.temperature)))
    ensures p.id.None? && p.createdAt.None? && p.kind.None? && p.childId.None? && p.userId.None?
  {
    var base := EmptyPatch.(
      title := Some(f.title), details := Some(f.details),
      notes := Some(if f.notes == "" then None else Some(f.notes)),
      photoUrl := Some(if f.photoUrl.Some? && f.photoUrl.value != "" then f.photoUrl else None));
    if kind == Symptom then
      base.(symptomType := Some(f.symptomType),
            temperature := Some(if f.temperature == "" then None else Some(parseTenths(f.temperature))))
    else base
  }

  /**
   * Submitting the form of a record without editing it changes nothing in the record, as
   * long as its notes and photo are not empty strings (which are saved as `null`) and its
   * temperature reads back from its text.
   */
  lemma UnchangedFormKeepsRecord(r: Record, parseTenths: string -> int)
    requires r.body.notes != Some("") && r.body.photoUrl != Some("")
    requires r.body.temperature.Some? ==> parseTenths(TenthsToString(r.body.temperature.value)) == r.body.temperature.value
    ensures Merge(r, UpdateData(r.body.kind, FormFromRecord(r), parseTenths)) == r
  {
  }

  /** The alert of a failed update. */
  const UpdateRecordFailed := "Erro ao atualizar registro. Por favor, tente novamente."

  /** The dialog's state: the record it edits, its form and whether an update is being sent. */
  class Modal {
    var record: Option<Record>
    var form: EditForm
    var isLoading: bool

    /** A fresh dialog: the empty form, about to be filled from `record`. */
    constructor (record: Option<Record>)
      ensures this.record == record && form == EmptyForm && !isLoading
    {
      this.record := record;
      form := EmptyForm;
      isLoading := false;
    }

    /** The effect on a new `record`: the form is filled from it; a null record leaves the form as it is. */
    method OnRecordChange(r: Option<Record>)
      modifies this
      ensures record == r
      ensures form == if r.Some? then FormFromRecord(r.value) else old(form)
      ensures isLoading == old(isLoading)
    {
      record := r;
      if r.Some? {
        form := FormFromRecord(r.value);
      }
    }

    /** One field typed by the user. */
    method SetForm(f: EditForm)
      modifies this
      ensures form == f && record == old(record) && isLoading == old(isLoading)
    {
      form := f;
    }

    /**
     * `handleSubmit`: nothing without a record; else the update is sent to the record's row.
     * `updateFails` is whether the server reports an error. On success the dialog asks its
     * parent to close it (`onOpenChange(false)`) and the page is refreshed; on failure the
     * alert is shown and the dialog stays open. Loading ends either way.
     */
    method Submit(parseTenths: string -> int, updateFails: bool)
      returns (update: Option<(string, RecordPatch)>, closed: bool, refreshed: bool, alert: Option<string>)
      modifies this
      ensures record == old(record) && form == old(form)
      ensures update.None? <==> record.None?
      ensures update.Some? <==> Renders()
      ensures record.Some? ==> update == Some((record.value.id, UpdateData(record.value.body.kind, form, parseTenths)))
      ensures closed <==> record.Some? && !updateFails
      ensures refreshed <==> closed
      ensures alert.Some? <==> record.Some? && updateFails
      ensures alert.Some? ==> alert.value == UpdateRecordFailed
      ensures isLoading == (old(isLoading) && record.None?)
    {
      closed, refreshed, alert := false, false, None;
      if record.None? {
        return None, closed, refreshed, alert;
      }
      isLoading := true;
      var r := record.value;
      var updateData := EmptyPatch.(
        title := Some(form.title), details := Some(form.details),
        notes := Some(if form.notes == "" then None else Some(form.notes)),
        photoUrl := Some(if form.photoUrl.Some? && form.photoUrl.value != "" then form.photoUrl else None));
      if r.body.kind == Symptom {
        updateData := updateData.(symptomType := Some(form.symptomType));
        updateData := updateData.(temperature := Some(if form.temperature == "" then None else Some(parseTenths(form.temperature))));
      }
      update := Some((r.id, updateData));
      if updateFails {
        alert := Some(UpdateRecordFailed);
      } else {
        closed, refreshed := true, true;
      }
      isLoading := false;
    }

    /** The dialog renders only with a record. */
    predicate Renders()
      reads this
    {
      record.Some?
    }
  }
}
