/** Field-level rules of gen/__init__.py: master values, multiplicities,
    index names and search values, the String validators (modulo 97, IBAN,
    BIC), storage of strings, inner values of List fields, transitions and
    Zope permission attributes. */
module GenInit {
  import opened Wrappers
  import opened Text
  import GenUtils

  // ---------------------------------------------------------------------------
  // initMasterValue

  /** A master value as a slave field declares it: falsy (None, '', [] ...),
      a single value, or a sequence of values. */
  datatype MasterValue<T> = Falsy | Single(x: T) | Many(xs: seq<T>)

  /** `initMasterValue`: a list of strings, `str` being applied to each value. */
  function InitMasterValue<T>(v: MasterValue<T>, str: T -> string): (r: seq<string>)
    ensures v.Falsy? ==> r == []
    ensures v.Single? ==> r == [str(v.x)]
    ensures v.Many? ==> |r| == |v.xs| && forall i :: 0 <= i < |r| ==> r[i] == str(v.xs[i])
  {
    match v
    case Falsy => []
    case Single(x) => [str(x)]
    case Many(xs) => seq(|xs|, i requires 0 <= i < |xs| => str(xs[i]))
  }

  // ---------------------------------------------------------------------------
  // Multiplicities and Ref.validateValue

  /** A multiplicity (min, max); a missing max means unbounded. */
  datatype Multiplicity = Multiplicity(min: int, max: Option<int>)

  /** `Type.isMultiValued`. */
  predicate IsMultiValued(m: Multiplicity) {
    m.max.None? || m.max.value > 1
  }

  /** `Type.__init__`: a field is required iff its min multiplicity is positive. */
  predicate IsRequired(m: Multiplicity) {
    m.min > 0
  }

  /** Python 2's `sys.maxint` on a 64-bit platform, standing for "no maximum". */
  const MAXINT: int := 0x7fff_ffff_ffff_ffff

  /** A Ref value as the request gives it: nothing, one uid, or a list. */
  datatype RefValue = NoRef | OneUid(uid: string) | Uids(uids: seq<string>)

  /** The number of referred objects: 0 for a falsy value, 1 for a string,
      else the length of the list. */
  function RefCount(v: RefValue): (n: nat)
    ensures v.NoRef? ==> n == 0
    ensures v.OneUid? ==> n == (if v.uid == "" then 0 else 1)
    ensures v.Uids? ==> n == |v.uids|
  {
    match v
    case NoRef => 0
    case OneUid(u) => if u == "" then 0 else 1
    case Uids(us) => |us|
  }

  /** `Ref.validateValue`: only "link" Refs are checked; the error is the
      label of the violated bound. */
  function RefValidate(link: bool, m: Multiplicity, v: RefValue): (r: Option<string>)
    ensures !link ==> r.None?
    ensures r.None? || r == Some("min_ref_violated") || r == Some("max_ref_violated")
  {
    if !link then None
    else
      var n := RefCount(v);
      var maxRef := m.max.GetOr(MAXINT);
      if n < m.min then Some("min_ref_violated")
      else if n > maxRef then Some("max_ref_violated")
      else None
  }

  /** A linked value is accepted iff its count lies within the multiplicity,
      a missing maximum allowing up to `sys.maxint` objects. */
  lemma RefValidateIff(m: Multiplicity, v: RefValue)
    ensures RefValidate(true, m, v).None? <==>
      m.min <= RefCount(v) && RefCount(v) <= m.max.GetOr(MAXINT)
    ensures RefValidate(true, m, v) == Some("min_ref_violated") <==> RefCount(v) < m.min
  {
  }

  /** A required Ref refuses an empty value; a single-valued one refuses two
      objects. */
  lemma RefValidateMultiplicity(m: Multiplicity, uids: seq<string>)
    ensures IsRequired(m) ==> RefValidate(true, m, NoRef) == Some("min_ref_violated")
    ensures !IsMultiValued(m) && |uids| >= 2 && m.min <= |uids| ==>
      RefValidate(true, m, Uids(uids)) == Some("max_ref_violated")
  {
  }

  // ---------------------------------------------------------------------------
  // Search.getIndexName and Search.getSearchValue

  /** `Search.getIndexName`: the catalog index for a field, for searching or
      sorting; None when the field cannot be used that way. */
  function IndexName(fieldName: string, forSearch: bool): (r: Option<string>)
    requires fieldName != ""
    ensures fieldName == "title" ==> r == Some(if forSearch then "Title" else "sortable_title")
    ensures fieldName == "description" ==> r == (if forSearch then Some("Description") else None)
    ensures fieldName != "title" && fieldName != "description" ==>
      r == Some("get" + [ToUpperChar(fieldName[0])] + fieldName[1..])
  {
    if fieldName == "title" then Some(if forSearch then "Title" else "sortable_title")
    else if fieldName == "description" then (if forSearch then Some("Description") else None)
    else Some("get" + [ToUpperChar(fieldName[0])] + fieldName[1..])
  }

  /** For an ordinary field whose name starts with a lower-case letter, the
      index name gives the field name back: drop "get" and lower the initial. */
  lemma IndexNameRoundTrip(fieldName: string, forSearch: bool)
    requires fieldName != "" && IsLower(fieldName[0])
    requires fieldName != "title" && fieldName != "description"
    ensures var r := IndexName(fieldName, forSearch).value;
      |r| > 3 && r[..3] == "get" && [ToLowerChar(r[3])] + r[4..] == fieldName
  {
    var r := IndexName(fieldName, forSearch).value;
    assert r[3] == ToUpperChar(fieldName[0]);
    assert r[4..] == fieldName[1..];
    assert [fieldName[0]] + fieldName[1..] == fieldName;
  }

  /** A search value as a search or the request gives it. */
  datatype SearchInput<T> =
    | Str(s: string)
    | Strings(items: seq<string>)
    | Pair(lo: Option<T>, hi: Option<T>)
    | Scalar(x: T)

  /** The value handed to the catalog. */
  datatype SearchValue<T> =
    | TextQuery(q: string)
    | PrefixRange(first: string, last: string)
    | AnyOf(values: seq<string>)
    | MinMax(low: T, high: T)
    | AtMost(max: Option<T>)
    | AtLeast(min: T)
    | AsIs(input: SearchInput<T>)

  /** `Search.getSearchValue` once it is known whether the field has a text
      index: a text index is queried with the typed keywords (a value that is
      not a string has no `strip`); a string ending in '*' asks for the
      "min:max" range (v, v + 'z'); a non-empty list of strings means any of
      them; a pair is a range whose missing side makes it "max" or "min".
      Unpacking an empty list fails. */
  function SearchValueFor<T>(textIndex: bool, v: SearchInput<T>): (r: Result<SearchValue<T>, string>)
    ensures textIndex ==> (r.Ok? <==> v.Str?)
    ensures textIndex && v.Str? ==> r == Ok(TextQuery(GenUtils.KeywordsQuery(GenUtils.CleanKeywords(v.s), "AND")))
    ensures !textIndex && v.Str? && EndsWith(v.s, "*") ==>
      r == Ok(PrefixRange(v.s[..|v.s| - 1], v.s[..|v.s| - 1] + "z"))
    ensures !textIndex && v.Str? && !EndsWith(v.s, "*") ==> r == Ok(AsIs(v))
    ensures !textIndex && v.Strings? ==> (r.Ok? <==> v.items != [])
    ensures !textIndex && v.Strings? && v.items != [] ==> r == Ok(AnyOf(v.items))
    ensures !textIndex && v.Pair? && v.lo.None? ==> r == Ok(AtMost(v.hi))
    ensures !textIndex && v.Pair? && v.lo.Some? && v.hi.None? ==> r == Ok(AtLeast(v.lo.value))
    ensures !textIndex && v.Pair? && v.lo.Some? && v.hi.Some? ==> r == Ok(MinMax(v.lo.value, v.hi.value))
    ensures !textIndex && v.Scalar? ==> r == Ok(AsIs(v))
  {
    if textIndex then
      if v.Str? then Ok(TextQuery(GenUtils.KeywordsQuery(GenUtils.CleanKeywords(v.s), "AND")))
      else Err("AttributeError: no strip")
    else
      match v
      case Str(s) =>
        if EndsWith(s, "*") then Ok(PrefixRange(s[..|s| - 1], s[..|s| - 1] + "z")) else Ok(AsIs(v))
      case Strings(items) =>
        if items != [] then Ok(AnyOf(items)) else Err("ValueError: need more than 0 values to unpack")
      case Pair(lo, hi) =>
        if lo.None? then Ok(AtMost(hi))
        else if hi.None? then Ok(AtLeast(lo.value))
        else Ok(MinMax(lo.value, hi.value))
      case Scalar(_) => Ok(AsIs(v))
  }

  /** In this version only the title field has a text index. */
  function SearchValueOf<T>(fieldName: string, v: SearchInput<T>): (r: Result<SearchValue<T>, string>)
    ensures fieldName == "title" ==> (r.Ok? <==> v.Str?)
    ensures fieldName != "title" && v.Str? && EndsWith(v.s, "*") ==> r.Ok? && r.value.PrefixRange?
    ensures fieldName != "title" && v.Strings? ==> (r.Ok? <==> v.items != [])
  {
    SearchValueFor(fieldName == "title", v)
  }

  /** The prefix range contains every string that starts with the prefix
      followed by a character not above 'z'. */
  lemma PrefixRangeCovers(v: string, c: char)
    requires c <= 'z'
    ensures StartsWith(v + [c], v)
    ensures (v + [c])[..|v|] == v && (v + "z")[..|v|] == v && (v + [c])[|v|] <= (v + "z")[|v|]
  {
  }

  // ---------------------------------------------------------------------------
  // String._MODULO_97

  /** The digits of a string, in order (the loop keeping what matches [0-9]). */
  function DigitsOf(s: string): (r: string)
    ensures AllDigits(r) && |r| <= |s|
  {
    if s == [] then [] else DigitsOf(s[..|s| - 1]) + (if IsDigit(s[|s| - 1]) then [s[|s| - 1]] else [])
  }

  lemma {:induction false} DigitsOfDigits(s: string)
    requires AllDigits(s)
    ensures DigitsOf(s) == s
  {
    if s != [] {
      DigitsOfDigits(s[..|s| - 1]);
      assert s[..|s| - 1] + [s[|s| - 1]] == s;
    }
  }

  /** `String._MODULO_97`: an empty value passes; otherwise, of its digits,
      the last two must be the rest modulo 97 (0 read as 97), or 97 minus it
      in complement mode; fewer than 3 digits fail. */
  function Modulo97(value: string, complement: bool): bool {
    if value == "" then true
    else
      var v := DigitsOf(value);
      if |v| < 3 then false
      else
        var number := DecimalValue(v[..|v| - 2]);
        var checkNumber := DecimalValue(v[|v| - 2..]);
        if complement then 97 - number % 97 == checkNumber
        else if number % 97 == 0 then checkNumber == 97
        else checkNumber == number % 97
  }

  /** Two digits for a number below 100, with a leading zero when needed. */
  function TwoDigits(c: nat): (s: string)
    requires c < 100
    ensures |s| == 2 && AllDigits(s) && DecimalValue(s) == c
  {
    var s := [DigitChar(c / 10), DigitChar(c % 10)];
    assert s[..1] == [DigitChar(c / 10)];
    assert s[..1][..0] == [];
    assert DecimalValue(s[..1]) == c / 10;
    s
  }

  /** The check digits that make a number valid. */
  function Check97(n: nat, complement: bool): (c: nat)
    ensures 1 <= c <= 97
  {
    if complement then 97 - n % 97 else if n % 97 == 0 then 97 else n % 97
  }

  /** A number followed by two check digits passes exactly when those digits
      are its check number, in both modes. */
  lemma Modulo97Iff(n: nat, c: nat, complement: bool)
    requires c < 100
    ensures Modulo97(NatToString(n) + TwoDigits(c), complement) <==> c == Check97(n, complement)
  {
    var a := NatToString(n);
    var value := a + TwoDigits(c);
    assert AllDigits(value) by {
      assert forall i :: 0 <= i < |value| ==> value[i] == if i < |a| then a[i] else TwoDigits(c)[i - |a|];
    }
    DigitsOfDigits(value);
    assert value[..|value| - 2] == a;
    assert value[|value| - 2..] == TwoDigits(c);
    NatToStringRoundTrip(n);
  }

  // ---------------------------------------------------------------------------
  // String.IBAN (ISO 13616-1, check digits per ISO/IEC 7064 MOD 97-10)

  /** The letters and digits of a string, in order. */
  predicate AllAlnum(s: string) {
    forall i :: 0 <= i < |s| ==> IsAlnum(s[i])
  }

  function AlnumOf(s: string): (r: string)
    ensures AllAlnum(r)
    ensures |r| <= |s|
  {
    if s == [] then [] else AlnumOf(s[..|s| - 1]) + (if IsAlnum(s[|s| - 1]) then [s[|s| - 1]] else [])
  }

  /** The number of a letter, A = 10 ... Z = 35, whatever its case. */
  function LetterNumber(c: char): (n: nat)
    requires IsAlpha(c)
    ensures 10 <= n <= 35
  {
    ToUpperChar(c) as int - 55
  }

  /** A letter becomes the two digits of its number, a digit stays itself. */
  function ExpandChar(c: char): (r: string)
    requires IsAlnum(c)
    ensures AllDigits(r)
    ensures IsAlpha(c) ==> |r| == 2 && DecimalValue(r) == LetterNumber(c)
    ensures IsDigit(c) ==> r == [c]
  {
    if IsAlpha(c) then TwoDigits(LetterNumber(c)) else [c]
  }

  function Expand(s: string): (r: string)
    requires AllAlnum(s)
    ensures AllDigits(r)
  {
    if s == [] then []
    else
      var r := Expand(s[..|s| - 1]) + ExpandChar(s[|s| - 1]);
      assert forall i :: 0 <= i < |r| ==> IsDigit(r[i]) by {
        var a := Expand(s[..|s| - 1]);
        var b := ExpandChar(s[|s| - 1]);
        assert forall i :: 0 <= i < |r| ==> r[i] == if i < |a| then a[i] else b[i - |a|];
      }
      r
  }

  /** `String.IBAN`: an empty value passes; otherwise its letters and digits
      must number 8 to 34, start with a known country code (the list of
      countries is a parameter), then two digits from 0 to 96; with the four
      leading characters moved to the end and letters expanded, the number
      must be 1 modulo 97. */
  function Iban(value: string, countries: seq<string>): bool {
    if value == "" then true
    else
      var v := AlnumOf(value);
      if |v| < 8 || |v| > 34 then false
      else if Upper(v[..2]) !in countries then false
      else
        var code := PyInt(v[2..4]);
        if code.None? || code.value < 0 || code.value > 96 then false
        else DecimalValue(Expand(Rearrange(v))) % 97 == 1
  }

  /** The four leading characters (country and check digits) moved to the end. */
  function Rearrange(v: string): (r: string)
    requires |v| >= 4
    ensures |r| == |v|
    ensures AllAlnum(v) ==> AllAlnum(r)
  {
    var r := v[4..] + v[..4];
    assert forall i :: 0 <= i < |r| ==> r[i] == if i < |v| - 4 then v[i + 4] else v[i - (|v| - 4)];
    r
  }

  /** The piece-wise computation of ISO/IEC 7064 MOD 97-10: the remainder is
      updated character by character, shifting by 100 for a letter and by 10
      for a digit, so no big number is ever built. */
  function Mod97Piecewise(s: string): (m: nat)
    requires AllAlnum(s)
    ensures m < 97
  {
    if s == [] then 0
    else
      var c := s[|s| - 1];
      assert IsAlnum(c);
      var prev := Mod97Piecewise(s[..|s| - 1]);
      if IsAlpha(c) then (prev * 100 + LetterNumber(c)) % 97 else (prev * 10 + DigitValue(c)) % 97
  }

  lemma ModStep(a: nat, p: nat, b: nat)
    ensures (a * p + b) % 97 == ((a % 97) * p + b) % 97
  {
    var q := a / 97;
    var r := a % 97;
    assert a == 97 * q + r;
    assert a * p + b == 97 * (q * p) + (r * p + b);
  }

  /** The big number the source builds and the piece-wise computation agree
      modulo 97. */
  lemma {:induction false} IbanPiecewise(s: string)
    requires AllAlnum(s)
    ensures DecimalValue(Expand(s)) % 97 == Mod97Piecewise(s)
  {
    if s != [] {
      var init := s[..|s| - 1];
      var c := s[|s| - 1];
      assert AllAlnum(init) && IsAlnum(c);
      IbanPiecewise(init);
      var a := Expand(init);
      var b := ExpandChar(c);
      assert Expand(s) == a + b;
      DecimalValueConcat(a, b);
      Mod97Step(s, DecimalValue(a));
    }
  }

  /** Appending the last character to a number known modulo 97. */
  lemma Mod97Step(s: string, x: nat)
    requires AllAlnum(s) && s != []
    requires x % 97 == Mod97Piecewise(s[..|s| - 1])
    ensures (x * Pow10(|ExpandChar(s[|s| - 1])|) + DecimalValue(ExpandChar(s[|s| - 1]))) % 97 == Mod97Piecewise(s)
  {
    var c := s[|s| - 1];
    assert IsAlnum(c);
    PiecewiseChar(c);
    ModStep(x, Pow10(|ExpandChar(c)|), DecimalValue(ExpandChar(c)));
  }

  /** One character shifts by 100 and adds its number for a letter, shifts
      by 10 and adds its value for a digit. */
  lemma PiecewiseChar(c: char)
    requires IsAlnum(c)
    ensures IsAlpha(c) ==> Pow10(|ExpandChar(c)|) == 100 && DecimalValue(ExpandChar(c)) == LetterNumber(c)
    ensures !IsAlpha(c) ==> Pow10(|ExpandChar(c)|) == 10 && DecimalValue(ExpandChar(c)) == DigitValue(c)
  {
    var b := ExpandChar(c);
    if !IsAlpha(c) {
      assert b[..0] == [];
    }
  }

  /** `String.IBAN` therefore accepts exactly the values whose rearranged
      characters have piece-wise remainder 1, once the length, the country
      and the check digits are right. */
  lemma IbanIsMod97_10(value: string, countries: seq<string>)
    requires value != ""
    ensures var v := AlnumOf(value);
      Iban(value, countries) <==>
        8 <= |v| <= 34 && Upper(v[..2]) in countries &&
        PyInt(v[2..4]).Some? && 0 <= PyInt(v[2..4]).value <= 96 &&
        Mod97Piecewise(Rearrange(v)) == 1
  {
    var v := AlnumOf(value);
    if 8 <= |v| <= 34 {
      IbanPiecewise(Rearrange(v));
    }
  }

  // ---------------------------------------------------------------------------
  // String.BIC (ISO 9362)

  /** The bank code: the 4 first characters are letters. */
  predicate BankCode(value: string)
    requires |value| >= 4
  {
    forall i :: 0 <= i < 4 ==> IsAlpha(value[i])
  }

  /** The location and branch: every character after the 6th is a letter or digit. */
  predicate LocationCode(value: string) {
    forall i :: 6 <= i < |value| ==> IsAlnum(value[i])
  }

  /** `String.BIC`: an empty value passes; otherwise 8 or 11 characters,
      4 letters for the bank, a known country code, then letters or digits. */
  function Bic(value: string, countries: seq<string>): bool {
    if value == "" then true
    else if |value| != 8 && |value| != 11 then false
    else if !BankCode(value) then false
    else if Upper(value[4..6]) !in countries then false
    else LocationCode(value)
  }

  /** The 3-character branch code is optional: an 11-character BIC is valid
      iff its 8-character head is and the branch is alphanumeric. */
  lemma BicBranchOptional(bic8: string, branch: string, countries: seq<string>)
    requires |bic8| == 8 && |branch| == 3
    ensures Bic(bic8 + branch, countries) <==>
      Bic(bic8, countries) && forall i :: 0 <= i < 3 ==> IsAlnum(branch[i])
  {
    var full := bic8 + branch;
    assert full[4..6] == bic8[4..6];
    assert forall i :: 0 <= i < 8 ==> full[i] == bic8[i];
    assert forall i :: 8 <= i < 11 ==> full[i] == branch[i - 8];
    assert BankCode(full) <==> BankCode(bic8);
    assert LocationCode(full) <==> LocationCode(bic8) && forall i :: 0 <= i < 3 ==> IsAlnum(branch[i]) by {
      if LocationCode(bic8) && forall i :: 0 <= i < 3 ==> IsAlnum(branch[i]) {
        forall i | 6 <= i < 11 ensures IsAlnum(full[i]) {
          if i >= 8 { assert full[i] == branch[i - 8]; }
        }
      }
      if LocationCode(full) {
        forall i | 0 <= i < 3 ensures IsAlnum(branch[i]) {
          assert full[i + 8] == branch[i];
        }
      }
    }
  }

  // ---------------------------------------------------------------------------
  // Type.formatSync

  /** The `sync` parameter: one flag for all layouts, or a flag per layout. */
  datatype Sync = SyncAll(flag: bool) | SyncPerLayout(flags: map<string, bool>)

  /** `Type.formatSync`: one flag per layout type edit, view and cell; a
      single flag is used for all three and a missing layout is not synced. */
  function FormatSync(sync: Sync): (r: map<string, bool>)
    ensures "edit" in r && "view" in r && "cell" in r
    ensures sync.SyncAll? ==> r == map["edit" := sync.flag, "view" := sync.flag, "cell" := sync.flag]
    ensures sync.SyncPerLayout? ==> r.Keys == sync.flags.Keys + {"edit", "view", "cell"}
    ensures sync.SyncPerLayout? ==> forall k :: k in sync.flags ==> r[k] == sync.flags[k]
    ensures sync.SyncPerLayout? ==> forall k :: k in {"edit", "view", "cell"} && k !in sync.flags ==> !r[k]
  {
    match sync
    case SyncAll(b) => map["edit" := b, "view" := b, "cell" := b]
    case SyncPerLayout(m) =>
      var m1 := if "edit" in m then m else m["edit" := false];
      var m2 := if "view" in m1 then m1 else m1["view" := false];
      if "cell" in m2 then m2 else m2["cell" := false]
  }

  // ---------------------------------------------------------------------------
  // String.store

  /** A String value: one string, or a list of strings. */
  datatype StringValue = One(s: string) | Several(items: seq<string>)

  /** What `String.store` writes: a multi-valued field wraps a single string
      in a list; a single string longer than `maxChars` (when set and not 0)
      is cut. A string wrapped in a list is not cut. */
  function StoredString(value: StringValue, multiValued: bool, maxChars: nat): (r: StringValue)
    ensures multiValued && value.One? ==> r == Several([value.s])
    ensures value.Several? ==> r == value
    ensures !multiValued && value.One? ==>
      r.One? && r.s == (if maxChars > 0 && |value.s| > maxChars then value.s[..maxChars] else value.s)
  {
    var v := if multiValued && value.One? then Several([value.s]) else value;
    if maxChars > 0 && v.One? && |v.s| > maxChars then One(v.s[..maxChars]) else v
  }

  /** A stored single string never exceeds `maxChars` characters and is a
      prefix of the value. */
  lemma StoredStringBounded(s: string, maxChars: nat)
    requires maxChars > 0
    ensures var r := StoredString(One(s), false, maxChars);
      |r.s| <= maxChars && r.s == s[..|r.s|]
  {
  }

  /** An object whose attributes `store` sets. */
  class StoredObject {
    var attrs: map<string, StringValue>

    constructor()
      ensures attrs == map[]
    {
      attrs := map[];
    }

    /** `String.store`: sets the field's attribute and nothing else. */
    method Store(name: string, value: StringValue, multiValued: bool, maxChars: nat)
      modifies this
      ensures attrs == old(attrs)[name := StoredString(value, multiValued, maxChars)]
    {
      attrs := attrs[name := StoredString(value, multiValued, maxChars)];
    }
  }

  // ---------------------------------------------------------------------------
  // List.getInnerValue

  /** `List.getInnerValue`: the value of inner field `name` in row `i`: ''
      for row -1, for no rows, for a row past the end or a missing name; a
      negative row counts from the end as Python indexing does, and one
      before the first row is an IndexError (None). */
  function InnerValue(outer: seq<map<string, string>>, name: string, i: int): (r: Option<string>)
    ensures i == -1 || outer == [] || i >= |outer| ==> r == Some("")
    ensures 0 <= i < |outer| ==> r == Some(if name in outer[i] then outer[i][name] else "")
    ensures outer != [] && i < -1 && i < -|outer| ==> r.None?
    ensures outer != [] && -|outer| <= i < -1 ==>
      r == Some(if name in outer[|outer| + i] then outer[|outer| + i][name] else "")
  {
    if i == -1 || outer == [] || i >= |outer| then Some("")
    else
      var k := if i < 0 then |outer| + i else i;
      if k < 0 then None
      else Some(if name in outer[k] then outer[k][name] else "")
  }

  // ---------------------------------------------------------------------------
  // Transition.hasState

  /** The states of a transition: one (from, to) pair, or several. */
  datatype TransitionStates = SingleMove(from: string, to: string) | MultiMove(pairs: seq<(string, string)>)

  function Side(p: (string, string), isFrom: bool): string {
    if isFrom then p.0 else p.1
  }

  /** `Transition.hasState`: whether `state` starts (or ends) one of the
      transition's moves; the search stops at the first match. */
  method HasState(t: TransitionStates, state: string, isFrom: bool) returns (res: bool)
    ensures t.SingleMove? ==> (res <==> state == Side((t.from, t.to), isFrom))
    ensures t.MultiMove? ==> (res <==> exists i :: 0 <= i < |t.pairs| && Side(t.pairs[i], isFrom) == state)
  {
    match t
    case SingleMove(f, to) =>
      res := state == Side((f, to), isFrom);
    case MultiMove(pairs) =>
      res := false;
      var i := 0;
      while i < |pairs|
        invariant 0 <= i <= |pairs|
        invariant forall k :: 0 <= k < i ==> Side(pairs[k], isFrom) != state
      {
        if Side(pairs[i], isFrom) == state {
          res := true;
          return;
        }
        i := i + 1;
      }
  }

  // ---------------------------------------------------------------------------
  // Permission.getZopeAttrName

  /** `Permission.allowedChars`: ASCII digits, letters and '_'. */
  predicate Allowed(c: char) {
    IsAlnum(c) || c == '_'
  }

  function SafeChars(p: string): (r: string)
    ensures |r| == |p|
    ensures forall i :: 0 <= i < |p| ==> r[i] == if Allowed(p[i]) then p[i] else '_'
  {
    if p == [] then [] else SafeChars(p[..|p| - 1]) + [if Allowed(p[|p| - 1]) then p[|p| - 1] else '_']
  }

  /** `Permission.getZopeAttrName`: "_<p>_Permission" with every character
      of p outside [0-9A-Za-z_] made '_'. */
  function ZopeAttrName(permission: string): (r: string)
    ensures |r| == |permission| + 12
    ensures r[..1] == "_" && r[|r| - 11..] == "_Permission"
    ensures forall i :: 0 <= i < |permission| ==>
      r[i + 1] == if Allowed(permission[i]) then permission[i] else '_'
  {
    "_" + SafeChars(permission) + "_Permission"
  }

  /** The attribute name only holds allowed characters, so it is a valid
      Python identifier part, and applying the rule to it again is harmless. */
  lemma ZopeAttrNameSafe(permission: string)
    ensures forall i :: 0 <= i < |ZopeAttrName(permission)| ==> Allowed(ZopeAttrName(permission)[i])
    ensures SafeChars(SafeChars(permission)) == SafeChars(permission)
  {
    var r := ZopeAttrName(permission);
    forall i | 0 <= i < |r| ensures Allowed(r[i]) {
      if i == 0 {
      } else if i <= |permission| {
        assert r[i] == r[(i - 1) + 1];
      } else {
        assert r[i] == r[|r| - 11..][i - (|r| - 11)];
      }
    }
  }
}
