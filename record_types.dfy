/**
 * The entities of the application: health records (symptoms and medications) of a child,
 * the children themselves and incidents that group records. Timestamps are milliseconds
 * since the epoch; temperatures are integer tenths of a degree Celsius (385 is 38.5 °C).
 */
module RecordTypes {
  import opened Wrappers

  datatype RecordType = Symptom | Medication

  datatype SymptomType =
    | Febre | Tosse | CongestaoNasal | Diarreia | Vomito
    | DorCabeca | DorBarriga | Irritacao | FaltaApetite | Outro

  const AllSymptomTypes: seq<SymptomType> :=
    [Febre, Tosse, CongestaoNasal, Diarreia, Vomito, DorCabeca, DorBarriga, Irritacao, FaltaApetite, Outro]

  /** The value stored in the database's `symptom_type` column. */
  function SymptomKey(t: SymptomType): string {
    match t
    case Febre => "febre"
    case Tosse => "tosse"
    case CongestaoNasal => "congestao_nasal"
    case Diarreia => "diarreia"
    case Vomito => "vomito"
    case DorCabeca => "dor_cabeca"
    case DorBarriga => "dor_barriga"
    case Irritacao => "irritacao"
    case FaltaApetite => "falta_apetite"
    case Outro => "outro"
  }

  /** The column value back to the symptom type; anything else is not a symptom type. */
  function ParseSymptomKey(s: string): (r: Option<SymptomType>)
    ensures r.Some? ==> SymptomKey(r.value) == s
  {
    if s == "febre" then Some(Febre)
    else if s == "tosse" then Some(Tosse)
    else if s == "congestao_nasal" then Some(CongestaoNasal)
    else if s == "diarreia" then Some(Diarreia)
    else if s == "vomito" then Some(Vomito)
    else if s == "dor_cabeca" then Some(DorCabeca)
    else if s == "dor_barriga" then Some(DorBarriga)
    else if s == "irritacao" then Some(Irritacao)
    else if s == "falta_apetite" then Some(FaltaApetite)
    else if s == "outro" then Some(Outro)
    else None
  }

  /** Every symptom type survives the trip through its column value, so the keys are distinct. */
  lemma SymptomKeyRoundTrip(t: SymptomType)
    ensures ParseSymptomKey(SymptomKey(t)) == Some(t)
  {
  }

  /** The emoji that opens the label of a symptom type. */
  function SymptomEmoji(t: SymptomType): string {
    match t
    case Febre => "🤒"
    case Tosse => "😷"
    case CongestaoNasal => "🤧"
    case Diarreia => "💩"
    case Vomito => "🤮"
    case DorCabeca => "🤕"
    case DorBarriga => "😣"
    case Irritacao => "😤"
    case FaltaApetite => "🍽️"
    case Outro => "📝"
  }

  /** The name of a symptom type, as its label shows it after the emoji. */
  function SymptomLabelName(t: SymptomType): string {
    match t
    case Febre => "Febre"
    case Tosse => "Tosse"
    case CongestaoNasal => "Congestão Nasal"
    case Diarreia => "Diarreia"
    case Vomito => "Vômito"
    case DorCabeca => "Dor de Cabeça"
    case DorBarriga => "Dor de Barriga"
    case Irritacao => "Irritação/Choro"
    case FaltaApetite => "Falta de Apetite"
    case Outro => "Outro"
  }

  /** The label shown for a symptom type: its emoji, a space and its name. */
  function SymptomLabel(t: SymptomType): (s: string)
    ensures |s| >= 3
  {
    SymptomEmoji(t) + " " + SymptomLabelName(t)
  }

  /** Everything a record holds apart from its id and creation time. */
  datatype RecordData = RecordData(
    kind: RecordType,
    title: string,
    details: string,
    notes: Option<string>,
    symptomType: Option<SymptomType>,
    temperature: Option<int>,
    childId: Option<string>,
    reminderIntervalHours: Option<int>,
    reminderEnabled: Option<bool>,
    nextDoseAt: Option<int>,
    photoUrl: Option<string>,
    userId: Option<string>,
    userEmail: Option<string>,
    incidentId: Option<string>)

  datatype Record = Record(id: string, createdAt: int, body: RecordData)

  /** A JavaScript truthiness test on an optional temperature: absent and 0 are both false. */
  predicate HasTemperature(r: Record) {
    r.body.temperature.Some? && r.body.temperature.value != 0
  }

  /** A record with a non-empty notes text. */
  predicate HasNotes(r: Record) {
    r.body.notes.Some? && r.body.notes.value != ""
  }

  /**
   * `Partial<Record>`: each key either absent (`None`) or present with a value; for the
   * nullable columns the value itself may be `null` (`Some(None)`).
   */
  datatype RecordPatch = RecordPatch(
    id: Option<string>,
    createdAt: Option<int>,
    kind: Option<RecordType>,
    title: Option<string>,
    details: Option<string>,
    notes: Option<Option<string>>,
    symptomType: Option<Option<SymptomType>>,
    temperature: Option<Option<int>>,
    childId: Option<Option<string>>,
    reminderIntervalHours: Option<Option<int>>,
    reminderEnabled: Option<Option<bool>>,
    nextDoseAt: Option<Option<int>>,
    photoUrl: Option<Option<string>>,
    userId: Option<Option<string>>,
    userEmail: Option<Option<string>>,
    incidentId: Option<Option<string>>)

  const EmptyPatch: RecordPatch :=
    RecordPatch(None, None, None, None, None, None, None, None, None, None, None, None, None, None, None, None)

  /** The object `{ id }`. */
  function IdOnly(id: string): RecordPatch {
    EmptyPatch.(id := Some(id))
  }

  /** A record's data as an object without `id` and `created_at`: every other key present. */
  function PatchOfData(d: RecordData): RecordPatch {
    RecordPatch(None, None, Some(d.kind), Some(d.title), Some(d.details), Some(d.notes),
      Some(d.symptomType), Some(d.temperature), Some(d.childId), Some(d.reminderIntervalHours),
      Some(d.reminderEnabled), Some(d.nextDoseAt), Some(d.photoUrl), Some(d.userId),
      Some(d.userEmail), Some(d.incidentId))
  }

  /** The object spread `{ ...r, ...p }`: every key present in `p` overrides the one of `r`. */
  function Merge(r: Record, p: RecordPatch): Record {
    var d := r.body;
    Record(
      p.id.GetOr(r.id),
      p.createdAt.GetOr(r.createdAt),
      RecordData(
        p.kind.GetOr(d.kind), p.title.GetOr(d.title), p.details.GetOr(d.details),
        p.notes.GetOr(d.notes), p.symptomType.GetOr(d.symptomType),
        p.temperature.GetOr(d.temperature), p.childId.GetOr(d.childId),
        p.reminderIntervalHours.GetOr(d.reminderIntervalHours),
        p.reminderEnabled.GetOr(d.reminderEnabled), p.nextDoseAt.GetOr(d.nextDoseAt),
        p.photoUrl.GetOr(d.photoUrl), p.userId.GetOr(d.userId), p.userEmail.GetOr(d.userEmail),
        p.incidentId.GetOr(d.incidentId)))
  }

  /** The spread `{ ...p, ...q }` of two partial objects. */
  function Combine(p: RecordPatch, q: RecordPatch): RecordPatch {
    RecordPatch(
      if q.id.Some? then q.id else p.id,
      if q.createdAt.Some? then q.createdAt else p.createdAt,
      if q.kind.Some? then q.kind else p.kind,
      if q.title.Some? then q.title else p.title,
      if q.details.Some? then q.details else p.details,
      if q.notes.Some? then q.notes else p.notes,
      if q.symptomType.Some? then q.symptomType else p.symptomType,
      if q.temperature.Some? then q.temperature else p.temperature,
      if q.childId.Some? then q.childId else p.childId,
      if q.reminderIntervalHours.Some? then q.reminderIntervalHours else p.reminderIntervalHours,
      if q.reminderEnabled.Some? then q.reminderEnabled else p.reminderEnabled,
      if q.nextDoseAt.Some? then q.nextDoseAt else p.nextDoseAt,
      if q.photoUrl.Some? then q.photoUrl else p.photoUrl,
      if q.userId.Some? then q.userId else p.userId,
      if q.userEmail.Some? then q.userEmail else p.userEmail,
      if q.incidentId.Some? then q.incidentId else p.incidentId)
  }

  /** Merging the empty object changes nothing. */
  lemma MergeEmpty(r: Record)
    ensures Merge(r, EmptyPatch) == r
  {
  }

  /** Spreading the same object twice is spreading it once. */
  lemma MergeIdempotent(r: Record, p: RecordPatch)
    ensures Merge(Merge(r, p), p) == Merge(r, p)
  {
  }

  /** Spreading two objects one after the other is spreading their combination. */
  lemma MergeCombine(r: Record, p: RecordPatch, q: RecordPatch)
    ensures Merge(Merge(r, p), q) == Merge(r, Combine(p, q))
  {
  }

  /** A patch without an `id` key keeps the record's id; the full data of a record replaces all of its data. */
  lemma MergeKeepsIdentity(r: Record, p: RecordPatch, d: RecordData)
    ensures p.id.None? ==> Merge(r, p).id == r.id
    ensures Merge(r, PatchOfData(d)) == Record(r.id, r.createdAt, d)
  {
  }

  /** The keys of the full data of a record are never the identity keys. */
  lemma PatchOfDataHasNoIdentity(d: RecordData)
    ensures PatchOfData(d).id.None? && PatchOfData(d).createdAt.None?
  {
  }

  /** A child as the `children` table stores it. */
  datatype Child = Child(
    id: string,
    name: string,
    birthDate: Option<CalendarDate>,
    isActive: bool,
    allergies: Option<string>,
    medicalConditions: Option<string>,
    createdAt: int)

  datatype CalendarDate = CalendarDate(year: int, month: int, day: int)

  /** An incident as the `incidents` table stores it; severity and status are free strings. */
  datatype Incident = Incident(
    id: string,
    childId: string,
    userId: string,
    title: string,
    description: Option<string>,
    severity: string,
    status: string,
    startedAt: int,
    resolvedAt: Option<int>)

  /** `filter(r => r.type === kind)`, order kept. */
  function OfKind(rs: seq<Record>, kind: RecordType): (r: seq<Record>)
    ensures |r| <= |rs|
    ensures forall x :: x in r <==> x in rs && x.body.kind == kind
  {
    if rs == [] then []
    else (if rs[0].body.kind == kind then [rs[0]] else []) + OfKind(rs[1..], kind)
  }

  /** Every record is a symptom or a medication, so the two filters split a list. */
  lemma {:induction false} OfKindSplit(rs: seq<Record>)
    ensures |OfKind(rs, Symptom)| + |OfKind(rs, Medication)| == |rs|
  {
    if rs != [] {
      OfKindSplit(rs[1..]);
    }
  }
}
