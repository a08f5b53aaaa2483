/**
 * The new-record form: the insert payload built from the form fields on submit. The
 * payload is a `RecordPatch` whose absent keys are `None`; `parseInt` and `parseFloat`
 * (in tenths of a degree) are parameters.
 */
module RecordForm {
  import opened Wrappers
  import opened Text
  import opened RecordTypes

  /** The form's state: empty strings for untouched fields, no symptom type for `''`. */
  datatype RecordFormData = RecordFormData(
    title: string,
    details: string,
    notes: string,
    symptomType: Option<SymptomType>,
    temperature: string,
    reminderEnabled: bool,
    reminderIntervalHours: string,
    photoUrl: Option<string>)

  /** JavaScript's `s || null` for a string. */
  function OrNull(s: string): Option<string> {
    if s == "" then None else Some(s)
  }

  function OptOrNull(s: Option<string>): Option<string> {
    if s.Some? && s.value != "" then s else None
  }

  /** The title derived from a symptom type: its label without the leading emoji and space. */
  function DerivedTitle(t: SymptomType): string {
    StripFirstToken(SymptomLabel(t))
  }

  /** A token without white space, a space and a rest: stripping the token leaves the rest. */
  lemma StripToken(token: string, rest: string)
    requires token != [] && forall j :: 0 <= j < |token| ==> !IsWhitespace(token[j])
    ensures StripFirstToken(token + " " + rest) == rest
  {
    var s := token + " " + rest;
    assert s[|token|] == ' ';
    assert FirstWhitespace(s) == |token|;
    assert s[|token| + 1..] == rest;
  }

  /** No emoji is empty or holds white space. */
  lemma EmojiIsToken(t: SymptomType)
    ensures SymptomEmoji(t) != [] && forall j :: 0 <= j < |SymptomEmoji(t)| ==> !IsWhitespace(SymptomEmoji(t)[j])
  {
  }

  /** Every label is one emoji token, a space and the name, so the derived title is the name. */
  lemma DerivedTitleIsName(t: SymptomType)
    ensures DerivedTitle(t) == SymptomLabelName(t)
  {
    EmojiIsToken(t);
    StripToken(SymptomEmoji(t), SymptomLabelName(t));
  }

  /**
   * `insertData` of `handleSubmit`: the base fields, then the reminder fields for a
   * medication with an enabled reminder and an interval, then the symptom fields for a
   * typed symptom (the derived title, and the temperature or a details text).
   */
  method InsertData(kind: RecordType, form: RecordFormData, selectedChildId: Option<string>, userId: Option<string>,
                    parseInt: string -> int, parseTenths: string -> int)
    returns (p: RecordPatch)
    ensures p.id.None? && p.createdAt.None? && p.kind == Some(kind)
    ensures p.notes == Some(OrNull(form.notes)) && p.photoUrl == Some(OptOrNull(form.photoUrl))
    ensures p.childId == Some(OptOrNull(selectedChildId))
    ensures p.userId == (if userId.Some? then Some(userId) else None)
    ensures var reminder := kind == Medication && form.reminderEnabled && form.reminderIntervalHours != "";
      && (p.reminderEnabled.Some? <==> reminder) && (p.reminderIntervalHours.Some? <==> reminder)
      && (reminder ==> p.reminderEnabled == Some(Some(true))
                       && p.reminderIntervalHours == Some(Some(parseInt(form.reminderIntervalHours))))
    ensures var typed := kind == Symptom && form.symptomType.Some?;
      && (p.symptomType.Some? <==> typed)
      && (!typed ==> p.title == Some(form.title) && p.details == Some(form.details) && p.temperature.None?)
      && (typed ==> p.symptomType == Some(form.symptomType) && p.title == Some(DerivedTitle(form.symptomType.value)))
    ensures var fever := kind == Symptom && form.symptomType == Some(Febre) && form.temperature != "";
      && (p.temperature.Some? <==> fever)
      && (fever ==> p.temperature == Some(Some(parseTenths(form.temperature)))
                    && p.details == Some(form.temperature + "°C"))
    ensures kind == Symptom && form.symptomType.Some? && !(form.symptomType == Some(Febre) && form.temperature != "") ==>
      p.details == Some(if form.notes != "" then form.notes else DerivedTitle(form.symptomType.value))
  {
    p := EmptyPatch.(kind := Some(kind), title := Some(form.title), details := Some(form.details),
      notes := Some(OrNull(form.notes)), childId := Some(OptOrNull(selectedChildId)),
      photoUrl := Some(OptOrNull(form.photoUrl)), userId := if userId.Some? then Some(userId) else None);
    if kind == Medication && form.reminderEnabled && form.reminderIntervalHours != "" {
      p := p.(reminderEnabled := Some(Some(true)),
              reminderIntervalHours := Some(Some(parseInt(form.reminderIntervalHours))));
    }
    if kind == Symptom && form.symptomType.Some? {
      var t := form.symptomType.value;
      p := p.(symptomType := Some(Some(t)));
      p := p.(title := Some(StripFirstToken(SymptomLabel(t))));
      if t == Febre && form.temperature != "" {
        p := p.(temperature := Some(Some(parseTenths(form.temperature))));
        p := p.(details := Some(form.temperature + "°C"));
      } else {
        p := p.(details := Some(if form.notes != "" then form.notes else p.title.value));
      }
    }
  }
}
