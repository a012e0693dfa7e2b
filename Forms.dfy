/** The two form-normalisation rules the model keeps: the optional vehicle
    of a revenue is taken only when the field is a non-empty string of
    digits, and plates are stored upper-cased. */
module Forms {
  import opened Wrappers

  predicate IsDigit(c: char)
  {
    '0' <= c <= '9'
  }

  /** `s.isdigit()` on ASCII text: non-empty and digits only. */
  predicate IsDigitString(s: string)
  {
    |s| > 0 && forall i :: 0 <= i < |s| ==> IsDigit(s[i])
  }

  function DigitValue(c: char): (d: nat)
    requires IsDigit(c)
    ensures d < 10
  {
    c as int - '0' as int
  }

  /** `int(s)` for a string of decimal digits. */
  function DecimalValue(s: string): (n: nat)
    requires forall i :: 0 <= i < |s| ==> IsDigit(s[i])
  {
    if s == [] then 0
    else DecimalValue(s[..|s| - 1]) * 10 + DigitValue(s[|s| - 1])
  }

  /** `int(f) if f and f.isdigit() else None`, where `f` is
      `request.form.get('id_veiculo')`. */
  function ParseVehicleId(field: Option<string>): (r: Option<nat>)
    ensures r.Some? <==> field.Some? && IsDigitString(field.value)
    ensures r.Some? ==> r.value == DecimalValue(field.value)
  {
    match field
    case None => None
    case Some(s) => if IsDigitString(s) then Some(DecimalValue(s)) else None
  }

  /** `str(n)`: decimal digits, no leading zero. */
  function Decimal(n: nat): (s: string)
    ensures IsDigitString(s)
    decreases n
  {
    if n < 10 then [('0' as int + n) as char]
    else Decimal(n / 10) + [('0' as int + n % 10) as char]
  }

  /** The id a vehicle select field submits is read back unchanged. */
  lemma {:induction false} ParseDecimal(n: nat)
    ensures ParseVehicleId(Some(Decimal(n))) == Some(n)
    decreases n
  {
    var s := Decimal(n);
    if n < 10 {
      assert s[..0] == [];
      assert DecimalValue(s) == DigitValue(s[0]) == n;
    } else {
      ParseDecimal(n / 10);
      assert s[..|s| - 1] == Decimal(n / 10);
      assert DigitValue(s[|s| - 1]) == n % 10;
      assert DecimalValue(s) == (n / 10) * 10 + n % 10;
    }
  }

  /** Leading zeros do not change the id. */
  lemma {:induction false} LeadingZero(s: string)
    requires IsDigitString(s)
    ensures ParseVehicleId(Some("0" + s)) == ParseVehicleId(Some(s))
  {
    LeadingZeroValue(s);
  }

  lemma {:induction false} LeadingZeroValue(s: string)
    requires forall i :: 0 <= i < |s| ==> IsDigit(s[i])
    ensures DecimalValue("0" + s) == DecimalValue(s)
  {
    if s != [] {
      var t := "0" + s;
      assert t[..|t| - 1] == "0" + s[..|s| - 1];
      LeadingZeroValue(s[..|s| - 1]);
    } else {
      assert ("0" + s)[..0] == [];
    }
  }

  // The parse as written: `str.isdigit` also accepts the superscript
  // digits, which `int` then rejects with a ValueError.

  predicate IsSuperscriptDigit(c: char)
  {
    c == '\U{B9}' || c == '\U{B2}' || c == '\U{B3}'
  }

  /** `s.isdigit()` over the ASCII digits and the superscript digits. */
  predicate IsDigitLike(s: string)
  {
    |s| > 0 && forall i :: 0 <= i < |s| ==> IsDigit(s[i]) || IsSuperscriptDigit(s[i])
  }

  datatype ParseOutcome = Parsed(id: Option<nat>) | ValueError

  /** `int(f) if f and f.isdigit() else None`, with `int` failing on the
      strings `isdigit` accepts but that are not decimal numbers. */
  function ParseVehicleIdAsWritten(field: Option<string>): (r: ParseOutcome)
    ensures r == ValueError <==> field.Some? && IsDigitLike(field.value) && !IsDigitString(field.value)
  {
    match field
    case None => Parsed(None)
    case Some(s) =>
      if IsDigitLike(s) then
        if IsDigitString(s) then Parsed(Some(DecimalValue(s))) else ValueError
      else Parsed(None)
  }

  /** A superscript two in the field makes the route fail. */
  lemma SuperscriptDigitFails()
    ensures ParseVehicleIdAsWritten(Some("\U{B2}")) == ValueError
    ensures ParseVehicleId(Some("\U{B2}")) == None
  {
    assert !IsDigit("\U{B2}"[0]);
  }

  /** Wherever the parse as written does not fail, it agrees with
      `ParseVehicleId`, which never fails. */
  lemma ParseAgreesUnlessValueError(field: Option<string>)
    ensures ParseVehicleIdAsWritten(field) != ValueError ==>
      ParseVehicleIdAsWritten(field) == Parsed(ParseVehicleId(field))
  {
    if field.Some? && IsDigitString(field.value) {
      assert IsDigitLike(field.value);
    }
  }

  function UpperChar(c: char): char
  {
    if 'a' <= c <= 'z' then (c as int - 'a' as int + 'A' as int) as char else c
  }

  /** `placa.upper()` on ASCII text. */
  function NormalizePlate(s: string): (r: string)
  {
    seq(|s|, i requires 0 <= i < |s| => UpperChar(s[i]))
  }

  /** An upper-cased plate has no lower-case letter left, keeps its length
      and every non-letter, and upper-casing it again changes nothing. */
  lemma NormalizePlateFacts(s: string)
    ensures var r := NormalizePlate(s);
      && |r| == |s|
      && (forall i :: 0 <= i < |r| ==> !('a' <= r[i] <= 'z'))
      && (forall i :: 0 <= i < |s| && !('a' <= s[i] <= 'z') ==> r[i] == s[i])
      && (forall i :: 0 <= i < |s| && 'a' <= s[i] <= 'z' ==> 'A' <= r[i] <= 'Z')
      && NormalizePlate(r) == r
  {
  }

  /** `c` and `d` are the same character, or the lower- and upper-case
      forms of one ASCII letter, which lie 32 code points apart. */
  predicate SameIgnoringCase(c: char, d: char)
  {
    || c == d
    || ('a' <= c <= 'z' && d as int == c as int - 32)
    || ('a' <= d <= 'z' && c as int == d as int - 32)
  }

  /** Two plates typed with different letter case are stored the same. */
  lemma NormalizePlateCaseInsensitive(a: string, b: string)
    requires |a| == |b|
    requires forall i :: 0 <= i < |a| ==> SameIgnoringCase(a[i], b[i])
    ensures NormalizePlate(a) == NormalizePlate(b)
  {
  }
}
