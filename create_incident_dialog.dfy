/**
 * The dialog that opens an incident for a child: the title check, the inserted row and
 * the form reset. The signed-in user and the insert's outcome are parameters.
 */
module CreateIncidentDialog {
  import opened Wrappers
  import opened Text

  datatype IncidentForm = IncidentForm(title: string, description: string, severity: string)

  const EmptyIncidentForm: IncidentForm := IncidentForm("", "", "low")

  /** The inserted `incidents` row. */
  datatype IncidentPayload = IncidentPayload(
    childId: string,
    userId: string,
    title: string,
    description: Option<string>,
    severity: string,
    status: string)

  const TitleRequired := "Por favor, insira um título para o incidente"
  const CreateFailed := "Erro ao criar incidente. Tente novamente."

  /** A title that is blank after trimming is refused. */
  predicate TitleMissing(form: IncidentForm) {
    Trim(form.title) == ""
  }

  lemma TitleMissingMeaning(form: IncidentForm)
    ensures TitleMissing(form) <==> AllWhitespace(form.title)
  {
    TrimEmptyIffBlank(form.title);
  }

  /** The row: trimmed title, trimmed description or `null`, the chosen severity, status `active`. */
  function MakePayload(childId: string, userId: string, form: IncidentForm): IncidentPayload {
    var d := Trim(form.description);
    IncidentPayload(childId, userId, Trim(form.title), if d == "" then None else Some(d), form.severity, "active")
  }

  /** The saved title is never blank and has no white space at either end. */
  lemma PayloadTitleShape(childId: string, userId: string, form: IncidentForm)
    requires !TitleMissing(form)
    ensures var t := MakePayload(childId, userId, form).title;
      t != "" && !IsWhitespace(t[0]) && !IsWhitespace(t[|t| - 1]) && Trim(t) == t
  {
    TrimEnds(form.title);
    TrimIdempotent(form.title);
  }

  /** Saving the payload's texts again changes nothing: they are already trimmed. */
  lemma PayloadStable(childId: string, userId: string, form: IncidentForm)
    ensures var p := MakePayload(childId, userId, form);
      MakePayload(childId, userId, IncidentForm(p.title, if p.description.Some? then p.description.value else "", p.severity)) == p
  {
    TrimIdempotent(form.title);
    TrimIdempotent(form.description);
  }

  /** The dialog's state. */
  class Dialog {
    var form: IncidentForm
    var open: bool
    var isCreating: bool

    constructor ()
      ensures form == EmptyIncidentForm && !open && !isCreating
    {
      form := EmptyIncidentForm;
      open := false;
      isCreating := false;
    }

    method SetForm(f: IncidentForm)
      modifies this
      ensures form == f && open == old(open) && isCreating == old(isCreating)
    {
      form := f;
    }

    /**
     * `handleSubmit`: a missing title is refused before anything else; without a user, or
     * when the insert fails, the error alert; otherwise the form resets and the dialog
     * closes. `sent` is the insert attempted, `created` whether `onIncidentCreated` ran.
     */
    method HandleSubmit(childId: string, userId: Option<string>, insertFails: bool)
      returns (alert: Option<string>, sent: Option<IncidentPayload>, created: bool)
      modifies this
      ensures TitleMissing(old(form)) ==> (alert == Some(TitleRequired) && sent.None? && !created
        && form == old(form) && open == old(open) && isCreating == old(isCreating))
      ensures !TitleMissing(old(form)) ==> !isCreating
      ensures sent.Some? <==> !TitleMissing(old(form)) && userId.Some?
      ensures sent.Some? ==> sent.value == MakePayload(childId, userId.value, old(form))
      ensures !TitleMissing(old(form)) && (userId.None? || insertFails) ==> (alert == Some(CreateFailed)
        && !created && form == old(form) && open == old(open))
      ensures created <==> sent.Some? && !insertFails
      ensures created ==> alert.None? && form == EmptyIncidentForm && !open
    {
      sent, created := None, false;
      if Trim(form.title) == "" {
        alert := Some(TitleRequired);
        return;
      }
      isCreating := true;
      if userId.None? {
        alert := Some(CreateFailed);
        isCreating := false;
        return;
      }
      var d := Trim(form.description);
      sent := Some(IncidentPayload(childId, userId.value, Trim(form.title), if d == "" then None else Some(d),
        form.severity, "active"));
      if insertFails {
        alert := Some(CreateFailed);
        isCreating := false;
        return;
      }
      alert := None;
      form := IncidentForm("", "", "low");
      open := false;
      created := true;
      isCreating := false;
    }
  }
}
