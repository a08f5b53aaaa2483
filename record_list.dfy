/**
 * The record history list: the avatar of the user who wrote each record (its initials
 * and colour, both derived from the e-mail address) and the texts of the title, details
 * and notes cells.
 */
module RecordList {
  import opened Wrappers
  import opened Text
  import opened RecordTypes
  import RecordForm

  /** JavaScript `!email`: absent and `""` are both missing. */
  predicate Missing(email: Option<string>) {
    !Truthy(email)
  }

  /** The local part of an address: the text before the first `@` (all of it when there is none). */
  function LocalPart(email: string): string {
    Split(email, '@')[0]
  }

  /**
   * `parts[k][0]` concatenated as text: the first character of a part, or the word
   * "undefined" that JavaScript writes for the missing character of an empty part.
   */
  function FirstCharText(part: string): string {
    if part == [] then "undefined" else [part[0]]
  }

  /**
   * `getUserInitials`. With two or more dot-separated parts in the local part the result
   * is their first characters, uppercased; when both of those parts are empty the sum
   * `undefined + undefined` is `NaN`, whose `toUpperCase` throws (`None`). With a single
   * part it is the first two characters of the whole address, uppercased.
   */
  function UserInitials(email: Option<string>): Option<string> {
    if Missing(email) then Some("?")
    else
      var parts := Split(LocalPart(email.value), '.');
      if |parts| >= 2 then
        if parts[0] == [] && parts[1] == [] then None
        else Some(ToUpper(FirstCharText(parts[0]) + FirstCharText(parts[1])))
      else Some(ToUpper(email.value[..if |email.value| < 2 then |email.value| else 2]))
  }

  /** No lower-case ASCII letter. */
  predicate NoLowerCase(s: string) {
    forall i :: 0 <= i < |s| ==> !('a' <= s[i] <= 'z')
  }

  lemma ToUpperNoLowerCase(s: string)
    ensures NoLowerCase(ToUpper(s))
  {
  }

  /**
   * The initials rule: "?" for a missing address; for an address whose local part has no
   * dot, its first two characters (all of it when shorter), uppercased; for a local part
   * `first.last…` with both parts non-empty, their two first characters, uppercased.
   */
  lemma InitialsRule(email: Option<string>)
    ensures Missing(email) ==> UserInitials(email) == Some("?")
    ensures !Missing(email) && '.' !in LocalPart(email.value) ==>
      UserInitials(email) == Some(ToUpper(email.value[..if |email.value| < 2 then |email.value| else 2]))
    ensures (!Missing(email) && |Split(LocalPart(email.value), '.')| >= 2
      && Split(LocalPart(email.value), '.')[0] != [] && Split(LocalPart(email.value), '.')[1] != []) ==>
      (UserInitials(email) == Some(ToUpper([Split(LocalPart(email.value), '.')[0][0],
        Split(LocalPart(email.value), '.')[1][0]])))
  {
    if !Missing(email) {
      SplitSingle(LocalPart(email.value), '.');
    }
  }

  /** Whatever the address, the initials hold no lower-case letter and are `?`, two characters or one part's word. */
  lemma InitialsAreUpperCase(email: Option<string>)
    ensures UserInitials(email).Some? ==> NoLowerCase(UserInitials(email).value)
    ensures UserInitials(email).Some? && !Missing(email) && '.' !in LocalPart(email.value) ==>
      1 <= |UserInitials(email).value| <= 2
  {
    if !Missing(email) {
      var parts := Split(LocalPart(email.value), '.');
      SplitSingle(LocalPart(email.value), '.');
      if |parts| >= 2 {
        if !(parts[0] == [] && parts[1] == []) {
          ToUpperNoLowerCase(FirstCharText(parts[0]) + FirstCharText(parts[1]));
        }
      } else {
        ToUpperNoLowerCase(email.value[..if |email.value| < 2 then |email.value| else 2]);
      }
    }
  }

  /** A local part made of two empty parts, such as in `.@x`, makes the initials throw. */
  lemma EmptyPartsThrow()
    ensures UserInitials(Some(".@x")) == None
  {
    assert IndexOf(".@x", '@') == 1;
    assert LocalPart(".@x") == ".";
    assert IndexOf(".", '.') == 0;
    assert Split("", '.') == [""];
    assert Split(".", '.') == ["", ""];
  }

  const Palette: seq<string> := [
    "bg-blue-500", "bg-green-500", "bg-yellow-500", "bg-purple-500",
    "bg-pink-500", "bg-indigo-500", "bg-red-500", "bg-teal-500"]

  /** The sum of the character codes of `s` (the `reduce` over `charCodeAt`). */
  function CodeSum(s: string): nat {
    if s == [] then 0 else s[0] as nat + CodeSum(s[1..])
  }

  /** `getAvatarColor`: grey for a missing address, else the palette entry at the code sum modulo 8. */
  function AvatarColor(email: Option<string>): (color: string)
    ensures Missing(email) <==> color == "bg-gray-400"
    ensures !Missing(email) ==> color in Palette
  {
    if Missing(email) then "bg-gray-400" else Palette[CodeSum(email.value) % |Palette|]
  }

  lemma {:induction false} CodeSumAppend(a: string, b: string)
    ensures CodeSum(a + b) == CodeSum(a) + CodeSum(b)
  {
    if a != [] {
      assert (a + b)[1..] == a[1..] + b;
      CodeSumAppend(a[1..], b);
    } else {
      assert a + b == b;
    }
  }

  /** The colour depends on the letters only, not on their order: swapping two halves keeps it. */
  lemma AvatarColorIgnoresOrder(a: string, b: string)
    requires a + b != []
    ensures AvatarColor(Some(a + b)) == AvatarColor(Some(b + a))
  {
    CodeSumAppend(a, b);
    CodeSumAppend(b, a);
    assert |b + a| == |a + b| > 0;
    assert CodeSum(a + b) == CodeSum(b + a);
  }

  /** The title cell: the symptom's label when the record has a symptom type, else its title. */
  function DisplayTitle(r: Record): (t: string)
    ensures r.body.symptomType.Some? ==> t == SymptomLabel(r.body.symptomType.value)
    ensures r.body.symptomType.None? ==> t == r.body.title
  {
    if r.body.symptomType.Some? then SymptomLabel(r.body.symptomType.value) else r.body.title
  }

  /** Under the label, the title is shown again unless it is the label without its emoji. */
  function Subtitle(r: Record): (o: Option<string>)
    ensures o.Some? ==> o.value == r.body.title
  {
    if r.body.symptomType.Some? && r.body.title != StripFirstToken(SymptomLabel(r.body.symptomType.value)) then
      Some(r.body.title)
    else None
  }

  /**
   * The two title lines: an untyped record shows its title alone; a typed one shows the
   * symptom's label, and its own title under it exactly when that title is not the
   * symptom's plain name. Either way the record's title is on screen, as the heading,
   * as the heading after the emoji, or as the line under it.
   */
  lemma TitleCells(r: Record)
    ensures r.body.symptomType.None? ==> DisplayTitle(r) == r.body.title && Subtitle(r).None?
    ensures r.body.symptomType.Some? ==>
      var t := r.body.symptomType.value;
      DisplayTitle(r) == SymptomLabel(t)
      && (Subtitle(r).Some? <==> r.body.title != SymptomLabelName(t))
    ensures DisplayTitle(r) == r.body.title || Subtitle(r) == Some(r.body.title)
      || (r.body.symptomType.Some? && DisplayTitle(r) == SymptomEmoji(r.body.symptomType.value) + " " + r.body.title)
  {
    if r.body.symptomType.Some? {
      RecordForm.DerivedTitleIsName(r.body.symptomType.value);
    }
  }

  const Celsius := "°C"

  /** The details cell: the temperature and "°C" when the temperature is truthy, else the details text. */
  function DetailsText(r: Record): string {
    if HasTemperature(r) then TenthsToString(r.body.temperature.value) + Celsius else r.body.details
  }

  /** The notes cell: the notes, or "-" when they are absent or empty. */
  function NotesText(r: Record): (t: string)
    ensures t != ""
    ensures HasNotes(r) ==> t == r.body.notes.value
    ensures !HasNotes(r) ==> t == "-"
  {
    if HasNotes(r) then r.body.notes.value else "-"
  }

  /** Reads a temperature written by `TenthsToString` back in tenths. */
  function ReadTenths(s: string): Option<int> {
    var f := ParseFixed1(s);
    if f.Some? then f
    else
      var i := ParseInt(s);
      if i.Some? then Some(i.value * 10) else None
  }

  /** Every temperature's text reads back as that temperature. */
  lemma TenthsReadBack(t: int)
    ensures ReadTenths(TenthsToString(t)) == Some(t)
  {
    if t % 10 == 0 {
      IntTextIsNotFixed(t / 10);
      ParseIntToString(t / 10);
      assert ReadTenths(TenthsToString(t)) == Some(t / 10 * 10);
    } else {
      Fixed1RoundTrip(t);
    }
  }

  lemma IntTextIsNotFixed(i: int)
    ensures ParseFixed1(IntToString(i)).None?
  {
    var s := IntToString(i);
    if i >= 0 {
      assert AllDigits(s);
      if |s| >= 3 {
        assert IsDigit(s[|s| - 2]);
      }
    } else {
      var d := NatToString(-i);
      assert s == "-" + d;
      assert s[1..] == d;
      if |d| >= 3 {
        assert IsDigit(d[|d| - 2]);
      }
      assert s[0] != '.';
      if |s| >= 3 {
        assert s[|s| - 2] == d[|d| - 2];
        assert IsDigit(s[|s| - 2]);
      }
    }
  }

  /**
   * The details cell of a record with a temperature is that temperature's text followed
   * by "°C", and the text reads back as the same temperature; without one it is the
   * details text.
   */
  lemma DetailsShowTemperature(r: Record)
    ensures HasTemperature(r) ==> exists s :: DetailsText(r) == s + Celsius && ReadTenths(s) == r.body.temperature
    ensures !HasTemperature(r) ==> DetailsText(r) == r.body.details
  {
    if HasTemperature(r) {
      var t := r.body.temperature.value;
      var s := TenthsToString(t);
      TenthsReadBack(t);
      assert DetailsText(r) == s + Celsius;
    }
  }
}
