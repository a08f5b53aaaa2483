/**
 * The profile page: a form of seven text fields loaded from the user's profile row,
 * edited field by field, validated, saved as a normalised payload and compared with the
 * last saved snapshot to tell whether it has unsaved changes.
 */
module ProfilePage {
  import opened Wrappers
  import opened Text
  import opened Remote

  datatype ProfileForm = ProfileForm(
    fullName: string,
    age: string,
    phone: string,
    city: string,
    bio: string,
    emergencyContactName: string,
    emergencyContactPhone: string)

  const EmptyProfile: ProfileForm := ProfileForm("", "", "", "", "", "", "")

  datatype Field = FullName | Age | Phone | City | Bio | EmergencyContactName | EmergencyContactPhone

  /** A row of `user_profiles` as fetched; every column may be null. */
  datatype ProfileRow = ProfileRow(
    fullName: Option<string>,
    age: Option<int>,
    phone: Option<string>,
    city: Option<string>,
    bio: Option<string>,
    emergencyContactName: Option<string>,
    emergencyContactPhone: Option<string>)

  /** A JavaScript number as the page can produce it from text: an integer, or `NaN`. */
  datatype Num = Int(value: int) | NaN

  /** The payload's age: `null` or a number. */
  datatype AgeValue = NullAge | NumAge(n: Num)

  datatype Payload = Payload(
    userId: string,
    fullName: string,
    age: AgeValue,
    phone: Option<string>,
    city: Option<string>,
    bio: Option<string>,
    emergencyContactName: Option<string>,
    emergencyContactPhone: Option<string>)

  /** `Number(s)` for the texts an integer field receives: white space around is ignored and blank is 0. */
  function ToNumber(s: string): Num {
    var t := Trim(s);
    if t == "" then Int(0)
    else
      var p := ParseInt(t);
      if p.Some? then Int(p.value) else NaN
  }

  function OrEmpty(s: Option<string>): string {
    s.GetOr("")
  }

  /** The form of a fetched row: nulls become `""`, the age its decimal text; no row is the empty profile. */
  function FormFromRow(row: Option<ProfileRow>): (f: ProfileForm)
    ensures row.None? ==> f == EmptyProfile
    ensures row.Some? ==> f.fullName == OrEmpty(row.value.fullName) && f.bio == OrEmpty(row.value.bio)
    ensures row.Some? ==> (f.age == "" <==> row.value.age.None?)
    ensures row.Some? && row.value.age.Some? ==> ToNumber(f.age) == Int(row.value.age.value)
  {
    if row.None? then EmptyProfile
    else
      var r := row.value;
      ProfileForm(OrEmpty(r.fullName), AgeText(r.age),
        OrEmpty(r.phone), OrEmpty(r.city), OrEmpty(r.bio),
        OrEmpty(r.emergencyContactName), OrEmpty(r.emergencyContactPhone))
  }

  /** `String(age)` of a non-null age, else `""`. */
  function AgeText(a: Option<int>): (s: string)
    ensures s == "" <==> a.None?
    ensures a.Some? ==> ToNumber(s) == Int(a.value)
  {
    if a.None? then ""
    else
      NumberOfDigits(a.value);
      IntToString(a.value)
  }

  /** The decimal text of an integer has no white space to trim. */
  lemma NumberOfDigits(i: int)
    ensures Trim(IntToString(i)) == IntToString(i) && ToNumber(IntToString(i)) == Int(i)
  {
    var s := IntToString(i);
    ParseIntToString(i);
    var d := NatToString(if i >= 0 then i else -i);
    assert IsDigit(d[|d| - 1]) && IsDigit(d[0]);
    assert s[|s| - 1] == d[|d| - 1];
    TrimStartFixed(s);
    TrimEndFixed(s);
  }

  /** The value of one field. */
  function Get(f: ProfileForm, field: Field): string {
    match field
    case FullName => f.fullName
    case Age => f.age
    case Phone => f.phone
    case City => f.city
    case Bio => f.bio
    case EmergencyContactName => f.emergencyContactName
    case EmergencyContactPhone => f.emergencyContactPhone
  }

  /** `{ ...prev, [field]: value }`. */
  function Set(f: ProfileForm, field: Field, value: string): (g: ProfileForm)
    ensures Get(g, field) == value
    ensures forall other :: other != field ==> Get(g, other) == Get(f, other)
  {
    match field
    case FullName => f.(fullName := value)
    case Age => f.(age := value)
    case Phone => f.(phone := value)
    case City => f.(city := value)
    case Bio => f.(bio := value)
    case EmergencyContactName => f.(emergencyContactName := value)
    case EmergencyContactPhone => f.(emergencyContactPhone := value)
  }

  const NameRequired := "Informe seu nome completo."
  const AgeNotPositive := "A idade deve ser um número positivo."
  const LoadFailed := "Não foi possível carregar seu perfil. Tente novamente mais tarde."
  const Saved := "Perfil atualizado com sucesso!"
  const SaveFailed := "Erro ao salvar perfil. Tente novamente."

  /** The validation message of a form, or `None` when it may be saved. */
  function Validate(f: ProfileForm): Option<string>
  {
    if Trim(f.fullName) == "" then Some(NameRequired)
    else if f.age != "" && ToNumber(f.age).Int? && ToNumber(f.age).value < 0 then Some(AgeNotPositive)
    else None
  }

  /** A form is refused for a blank name, then for an age that is a negative number; nothing else is refused. */
  lemma ValidateMeaning(f: ProfileForm)
    ensures Trim(f.fullName) == "" ==> Validate(f) == Some(NameRequired)
    ensures Trim(f.fullName) != "" && f.age != "" && ToNumber(f.age).Int? && ToNumber(f.age).value < 0 ==>
      Validate(f) == Some(AgeNotPositive)
    ensures Validate(f).None? <==> Trim(f.fullName) != "" && !(f.age != "" && ToNumber(f.age).Int? && ToNumber(f.age).value < 0)
  {
  }

  /** `s.trim() || null`. */
  function TrimOrNull(s: string): (r: Option<string>)
    ensures r.None? <==> AllWhitespace(s)
    ensures r.Some? ==> r.value == Trim(s) && r.value != "" && !IsWhitespace(r.value[0]) && !IsWhitespace(r.value[|r.value| - 1])
  {
    var t := Trim(s);
    TrimEmptyIffBlank(s);
    TrimEnds(s);
    if t == "" then None else Some(t)
  }

  /** The upsert payload: each text trimmed with empty as `null`, the age a number or `null`. */
  function MakePayload(userId: string, f: ProfileForm): Payload {
    Payload(userId, Trim(f.fullName), PayloadAge(f.age),
      TrimOrNull(f.phone), TrimOrNull(f.city), TrimOrNull(f.bio),
      TrimOrNull(f.emergencyContactName), TrimOrNull(f.emergencyContactPhone))
  }

  /** `String(n)`. */
  function NumToString(n: Num): string {
    if n.Int? then IntToString(n.value) else "NaN"
  }

  /** The snapshot of a saved payload: `null` back to `""`, the age as its text. */
  function Snapshot(p: Payload): ProfileForm {
    ProfileForm(p.fullName, SnapshotAge(p.age),
      OrEmpty(p.phone), OrEmpty(p.city), OrEmpty(p.bio),
      OrEmpty(p.emergencyContactName), OrEmpty(p.emergencyContactPhone))
  }

  lemma TrimOrNullSnapshot(s: string)
    ensures TrimOrNull(OrEmpty(TrimOrNull(s))) == TrimOrNull(s)
  {
    TrimIdempotent(s);
  }

  function PayloadAge(age: string): AgeValue {
    if age != "" then NumAge(ToNumber(age)) else NullAge
  }

  function SnapshotAge(a: AgeValue): string {
    if a.NumAge? then NumToString(a.n) else ""
  }

  /** The age survives the round trip through the snapshot's text. */
  lemma AgeRoundTrip(age: string)
    ensures PayloadAge(SnapshotAge(PayloadAge(age))) == PayloadAge(age)
  {
    var a := PayloadAge(age);
    if a.NumAge? {
      if a.n.Int? {
        NumberOfDigits(a.n.value);
      } else {
        assert Trim("NaN") == "NaN" by {
          TrimStartFixed("NaN");
          TrimEndFixed("NaN");
        }
        assert !IsDigit('N');
        assert ToNumber("NaN") == NaN;
      }
    }
  }

  /** Saving the snapshot of a saved form again sends the very same payload. */
  lemma SnapshotRoundTrip(userId: string, f: ProfileForm)
    ensures MakePayload(userId, Snapshot(MakePayload(userId, f))) == MakePayload(userId, f)
  {
    TrimIdempotent(f.fullName);
    TrimOrNullSnapshot(f.phone);
    TrimOrNullSnapshot(f.city);
    TrimOrNullSnapshot(f.bio);
    TrimOrNullSnapshot(f.emergencyContactName);
    TrimOrNullSnapshot(f.emergencyContactPhone);
    AgeRoundTrip(f.age);
  }

  /** The profile row stored from a payload; a `NaN` age is stored as `null`. */
  function RowOfPayload(p: Payload): ProfileRow {
    ProfileRow(Some(p.fullName), if p.age.NumAge? && p.age.n.Int? then Some(p.age.n.value) else None,
      p.phone, p.city, p.bio, p.emergencyContactName, p.emergencyContactPhone)
  }

  /**
   * Loading the row a payload was stored as gives the snapshot taken after saving it, except
   * for an age that did not parse: the snapshot shows "NaN", the stored row `null`.
   */
  lemma ReloadGivesSnapshot(p: Payload)
    ensures p.age != NumAge(NaN) ==> FormFromRow(Some(RowOfPayload(p))) == Snapshot(p)
    ensures p.age == NumAge(NaN) ==> FormFromRow(Some(RowOfPayload(p))) == Snapshot(p).(age := "")
  {
  }

  /** The page's state. */
  class Editor {
    var form: ProfileForm
    var snapshot: ProfileForm
    var successMessage: string
    var errorMessage: string

    constructor ()
      ensures form == EmptyProfile && snapshot == EmptyProfile
      ensures successMessage == "" && errorMessage == ""
    {
      form := EmptyProfile;
      snapshot := EmptyProfile;
      successMessage := "";
      errorMessage := "";
    }

    /** `isDirty`: the form differs from the snapshot (`JSON.stringify` of two objects with the same keys). */
    predicate IsDirty()
      reads this
    {
      form != snapshot
    }

    /** `fetchProfile`: the row's form becomes both form and snapshot; a failure only sets the message. */
    method Load(reply: Reply<ProfileRow>)
      modifies this
      ensures reply.Succeeded? ==> form == FormFromRow(reply.data) && snapshot == form && errorMessage == ""
      ensures reply.Failed? ==> (form == old(form) && snapshot == old(snapshot)
        && errorMessage == LoadFailed)
      ensures successMessage == old(successMessage)
      ensures reply.Succeeded? ==> !IsDirty()
    {
      errorMessage := "";
      if reply.Failed? {
        errorMessage := LoadFailed;
        return;
      }
      var profile := FormFromRow(reply.data);
      form := profile;
      snapshot := profile;
    }

    /** `handleChange(field)`: only that field of the form changes. */
    method HandleChange(field: Field, value: string)
      modifies this
      ensures form == Set(old(form), field, value)
      ensures Get(form, field) == value && forall other :: other != field ==> Get(form, other) == Get(old(form), other)
      ensures snapshot == old(snapshot) && successMessage == old(successMessage) && errorMessage == old(errorMessage)
    {
      form := Set(form, field, value);
    }

    /** `handleReset`: back to the snapshot, with both messages cleared. */
    method HandleReset()
      modifies this
      ensures form == old(snapshot) && snapshot == old(snapshot)
      ensures successMessage == "" && errorMessage == ""
      ensures !IsDirty()
    {
      form := snapshot;
      successMessage := "";
      errorMessage := "";
    }

    /**
     * `handleSubmit`: nothing without a user; a form that does not validate only sets the
     * message; otherwise the payload is sent, and when the save succeeds its snapshot
     * becomes both form and snapshot. `saveError` is the upsert's error message, if any.
     */
    method HandleSubmit(userId: Option<string>, saveError: Option<string>) returns (sent: Option<Payload>)
      modifies this
      ensures userId.None? ==> (sent.None? && form == old(form) && snapshot == old(snapshot)
        && errorMessage == old(errorMessage) && successMessage == old(successMessage))
      ensures userId.Some? && Validate(old(form)).Some? ==> (sent.None? && form == old(form)
        && snapshot == old(snapshot) && errorMessage == Validate(old(form)).value && successMessage == "")
      ensures userId.Some? && Validate(old(form)).None? ==> sent == Some(MakePayload(userId.value, old(form)))
      ensures sent.Some? && saveError.None? ==> (form == Snapshot(sent.value) && snapshot == form
        && successMessage == Saved && errorMessage == "" && !IsDirty())
      ensures sent.Some? && saveError.Some? ==> (form == old(form) && snapshot == old(snapshot) && successMessage == ""
        && errorMessage == (if saveError.value != "" then saveError.value else SaveFailed))
    {
      if userId.None? {
        return None;
      }
      var e := Validate(form);
      if e.Some? {
        errorMessage := e.value;
        successMessage := "";
        return None;
      }
      errorMessage := "";
      successMessage := "";
      var payload := MakePayload(userId.value, form);
      sent := Some(payload);
      if saveError.Some? {
        errorMessage := if saveError.value != "" then saveError.value else SaveFailed;
        return;
      }
      var s := Snapshot(payload);
      snapshot := s;
      form := s;
      successMessage := Saved;
    }
  }
}
