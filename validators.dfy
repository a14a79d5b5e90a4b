/** The field validators of the serializers: pure accept/reject decisions on
    request data. Hours are counted in hundredths, so 24 hours is 2400. */
module Validators {
  import opened Common
  import opened Domain

  const HoursScale: int := 100
  const MaxHours: int := 24 * HoursScale
  const MinBatch: nat := 1
  const MaxBatch: nat := 50
  const MinPasswordLength: nat := 6

  // ----- attendance hours and adjustment deltas -----

  /** `validate_horas` of both attendance serializers: 0 and 24 are both accepted. */
  function CheckHours(h: int): (r: Option<Reason>)
    ensures r.None? <==> 0 <= h <= MaxHours
    ensures r.Some? ==> r.value == HoursOutOfRange
  {
    if h < 0 || h > MaxHours then Some(HoursOutOfRange) else None
  }

  /** `validate_cantidad_horas`: the range is checked before the zero test. */
  function CheckDelta(v: int): (r: Option<Reason>)
    ensures r.None? <==> -MaxHours <= v <= MaxHours && v != 0
    ensures r == Some(DeltaZero) <==> v == 0
    ensures r == Some(DeltaOutOfRange) <==> v < -MaxHours || MaxHours < v
  {
    if v < -MaxHours || v > MaxHours then Some(DeltaOutOfRange)
    else if v == 0 then Some(DeltaZero)
    else None
  }

  // ----- slot batches -----

  /** One element of the `horarios` list: a key may be missing, and the day
      may fail `int(...)`. */
  datatype RawSlot = RawSlot(day: Field<int>, shift: Option<string>, site: Option<string>)

  /** A batch item that passed validation. */
  datatype SlotSpec = SlotSpec(day: int, shift: Shift, site: Site)

  /** The declarative acceptance condition for one item. */
  predicate WellFormedItem(item: RawSlot) {
    && item.day.Given? && 0 <= item.day.value <= 6
    && item.shift.Some? && ParseShift(item.shift.value).Some?
    && item.site.Some? && ParseSite(item.site.value).Some?
  }

  /** The checks of one loop turn of `validate_horarios`, in the order that
      function makes them: the three keys must be present, then the day, the
      shift and the site are checked. */
  function ItemIssue(item: RawSlot): (r: Option<SlotIssue>)
    ensures r.None? <==> WellFormedItem(item)
    ensures item.day.Absent? ==> r == Some(MissingDay)
    ensures !item.day.Absent? && item.shift.None? ==> r == Some(MissingShift)
    ensures !item.day.Absent? && item.shift.Some? && item.site.None? ==> r == Some(MissingSite)
    ensures item.day.Malformed? && item.shift.Some? && item.site.Some? ==> r == Some(DayNotNumber)
    ensures (item.day.Given? && item.shift.Some? && item.site.Some? && !(0 <= item.day.value <= 6))
              ==> r == Some(DayOutOfRange)
    ensures (&& item.day.Given? && 0 <= item.day.value <= 6 && item.shift.Some? && item.site.Some?
             && ParseShift(item.shift.value).None?)
              ==> r == Some(BadShift)
    ensures (&& item.day.Given? && 0 <= item.day.value <= 6 && item.shift.Some? && item.site.Some?
             && ParseShift(item.shift.value).Some? && ParseSite(item.site.value).None?)
              ==> r == Some(BadSite)
  {
    if item.day.Absent? then Some(MissingDay)
    else if item.shift.None? then Some(MissingShift)
    else if item.site.None? then Some(MissingSite)
    else if item.day.Malformed? then Some(DayNotNumber)
    else if !(0 <= item.day.value <= 6) then Some(DayOutOfRange)
    else if ParseShift(item.shift.value).None? then Some(BadShift)
    else if ParseSite(item.site.value).None? then Some(BadSite)
    else None
  }

  function ToSpec(item: RawSlot): (s: SlotSpec)
    requires WellFormedItem(item)
    ensures s.day == item.day.value && 0 <= s.day <= 6
    ensures ShiftCode(s.shift) == item.shift.value && SiteCode(s.site) == item.site.value
  {
    SlotSpec(item.day.value, ParseShift(item.shift.value).value, ParseSite(item.site.value).value)
  }

  /** The item loop of `validate_horarios`: the first bad item rejects the
      whole list, reporting its index and what is wrong with it. */
  function CheckItems(items: seq<RawSlot>): (r: Result<seq<SlotSpec>, Reason>)
    ensures r.Success? <==> forall i :: 0 <= i < |items| ==> WellFormedItem(items[i])
    ensures r.Success? ==> |r.value| == |items|
    ensures r.Success? ==> forall i :: 0 <= i < |items| ==> r.value[i] == ToSpec(items[i])
    ensures r.Failure? ==> r.error.BadSlotItem? && r.error.index < |items|
    ensures r.Failure? ==> Some(r.error.issue) == ItemIssue(items[r.error.index])
    ensures r.Failure? ==> forall j :: 0 <= j < r.error.index ==> WellFormedItem(items[j])
  {
    if items == [] then Success([])
    else match ItemIssue(items[0])
      case Some(issue) => Failure(BadSlotItem(0, issue))
      case None =>
        match CheckItems(items[1..])
        case Success(rest) =>
          assert forall i :: 1 <= i < |items| ==> items[i] == items[1..][i - 1];
          Success([ToSpec(items[0])] + rest)
        case Failure(e) =>
          assert forall j :: 1 <= j <= e.index ==> items[j] == items[1..][j - 1];
          Failure(BadSlotItem(e.index + 1, e.issue))
  }

  /** The whole `horarios` field: 1..50 items (the list field's bounds, checked
      first), then every item well formed. */
  function CheckBatch(items: seq<RawSlot>): (r: Result<seq<SlotSpec>, Reason>)
    ensures r.Success? <==> MinBatch <= |items| <= MaxBatch && forall i :: 0 <= i < |items| ==> WellFormedItem(items[i])
    ensures r.Success? ==> |r.value| == |items| && forall i :: 0 <= i < |items| ==> r.value[i] == ToSpec(items[i])
    ensures |items| < MinBatch ==> r == Failure(BatchTooShort)
    ensures |items| > MaxBatch ==> r == Failure(BatchTooLong)
    ensures MinBatch <= |items| <= MaxBatch ==> r == CheckItems(items)
  {
    if |items| < MinBatch then Failure(BatchTooShort)
    else if |items| > MaxBatch then Failure(BatchTooLong)
    else CheckItems(items)
  }

  // ----- configuration keys and values -----

  /** `str.isalnum` on one character, restricted to ASCII letters and digits. */
  predicate IsAlnumChar(c: char) {
    ('a' <= c <= 'z') || ('A' <= c <= 'Z') || ('0' <= c <= '9')
  }

  /** `str.isalnum`: non-empty, and every character a letter or digit. */
  predicate IsAlnum(s: string) {
    |s| > 0 && forall i :: 0 <= i < |s| ==> IsAlnumChar(s[i])
  }

  /** `value.replace('_', '')`. */
  function WithoutUnderscores(s: string): (r: string)
    ensures |r| <= |s|
    ensures forall c :: c in r <==> c in s && c != '_'
  {
    if s == [] then []
    else if s[0] == '_' then WithoutUnderscores(s[1..])
    else [s[0]] + WithoutUnderscores(s[1..])
  }

  /** `str.lower` on one character, restricted to ASCII. */
  function LowerChar(c: char): char {
    if 'A' <= c <= 'Z' then (c as int + 32) as char else c
  }

  /** `str.lower`. */
  function Lower(s: string): (r: string)
    ensures |r| == |s|
    ensures forall i :: 0 <= i < |s| ==> r[i] == LowerChar(s[i])
  {
    if s == [] then [] else [LowerChar(s[0])] + Lower(s[1..])
  }

  /** The acceptance condition of `validate_clave`. */
  predicate ValidKey(k: string) {
    IsAlnum(WithoutUnderscores(k))
  }

  /** The key condition stated character by character: at least one
      non-underscore character, and every character an underscore, a letter
      or a digit. */
  predicate KeyShape(k: string) {
    && (exists i :: 0 <= i < |k| && k[i] != '_')
    && forall i :: 0 <= i < |k| ==> k[i] == '_' || IsAlnumChar(k[i])
  }

  lemma ValidKeyIsKeyShape(k: string)
    ensures ValidKey(k) <==> KeyShape(k)
  {
    var w := WithoutUnderscores(k);
    if KeyShape(k) {
      var i :| 0 <= i < |k| && k[i] != '_';
      assert k[i] in w;
      forall j | 0 <= j < |w| ensures IsAlnumChar(w[j]) {
        assert w[j] in k;
      }
    }
    if ValidKey(k) {
      assert w[0] in k;
      forall i | 0 <= i < |k| ensures k[i] == '_' || IsAlnumChar(k[i]) {
        if k[i] != '_' {
          assert k[i] in w;
        }
      }
    }
  }

  /** `validate_clave`: reject a key that is not letters, digits and
      underscores with at least one letter or digit; store it lowercased. */
  function NormalizeKey(k: string): (r: Result<string, Reason>)
    ensures r.Success? <==> KeyShape(k)
    ensures r.Success? ==> |r.value| == |k| && forall i :: 0 <= i < |k| ==> r.value[i] == LowerChar(k[i])
    ensures r.Failure? ==> r.error == BadKey
  {
    ValidKeyIsKeyShape(k);
    if !IsAlnum(WithoutUnderscores(k)) then Failure(BadKey) else Success(Lower(k))
  }

  /** Normalizing twice gives the same key: the stored form of an accepted
      key is itself accepted and maps to itself. */
  lemma NormalizeKeyIdempotent(k: string)
    requires NormalizeKey(k).Success?
    ensures NormalizeKey(NormalizeKey(k).value) == NormalizeKey(k)
  {
    var n := NormalizeKey(k).value;
    var i :| 0 <= i < |k| && k[i] != '_';
    assert n[i] != '_';
    assert KeyShape(n);
    assert Lower(n) == n by {
      forall j | 0 <= j < |n| ensures Lower(n)[j] == n[j] {
        assert n[j] == LowerChar(k[j]);
      }
    }
  }

  /** The literals `validate_valor` accepts for a `booleano` value, in the
      order that function lists them ("no" appears twice in its list). */
  const BoolLiterals: seq<string> := ["true", "false", "1", "0", "yes", "no", "si", "no"]

  /** `validate_valor`. `kind` is `tipo_dato` as the client sent it (None when
      missing); the `float(...)` and `int(...)` conversions are the given
      predicates `isDecimal` and `isInteger`. */
  function CheckValue(kind: Option<string>, value: string,
                      isDecimal: string -> bool, isInteger: string -> bool): (r: Option<Reason>)
    ensures kind == Some("decimal") ==> (r.None? <==> isDecimal(value))
    ensures kind == Some("entero") ==> (r.None? <==> isInteger(value))
    ensures kind == Some("booleano") ==> (r.None? <==> Lower(value) in BoolLiterals)
    ensures kind !in {Some("decimal"), Some("entero"), Some("booleano")} ==> r.None?
    ensures r.Some? ==> r.value == BadValue
  {
    if kind == Some("decimal") then (if isDecimal(value) then None else Some(BadValue))
    else if kind == Some("entero") then (if isInteger(value) then None else Some(BadValue))
    else if kind == Some("booleano") then (if Lower(value) in BoolLiterals then None else Some(BadValue))
    else None
  }

  // ----- registration -----

  /** `UsuarioCreateSerializer` validation. The field checks (username not
      taken, password at least 6 characters) are reported together; the
      object-level password comparison only runs when both pass. */
  function RegistrationErrors(taken: bool, password: string, confirm: string): (r: set<Reason>)
    ensures r == {} <==> !taken && |password| >= MinPasswordLength && password == confirm
    ensures UsernameTaken in r <==> taken
    ensures PasswordTooShort in r <==> |password| < MinPasswordLength
    ensures PasswordMismatch in r <==> !taken && |password| >= MinPasswordLength && password != confirm
    ensures r <= {UsernameTaken, PasswordTooShort, PasswordMismatch}
  {
    var fieldErrors := (if taken then {UsernameTaken} else {})
                     + (if |password| < MinPasswordLength then {PasswordTooShort} else {});
    if fieldErrors != {} then fieldErrors
    else if password != confirm then {PasswordMismatch}
    else {}
  }
}
