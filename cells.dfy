/** Spreadsheet cells and the two ways the comparer turns a client-code cell
    into a comparable key: the plain `astype(str).strip().lower()` applied to
    the Base Gamma and Positivador Novo columns, and `ajustar_codigo_cliente`
    followed by `lower()` applied to the Inclusões column. */
module Cells {

  datatype Option<T> = None | Some(value: T)

  /** A cell as the spreadsheet reader hands it over. A floating-point cell is
      kept as its sign, its integer part and the fractional digits that its
      shortest decimal representation prints ("0" for 42.0, "5" for -3.5). */
  datatype Cell =
    | Null
    | Int(i: int)
    | Float(negative: bool, whole: nat, fraction: string)
    | Text(s: string)

  // ---------------------------------------------------------------------
  // Decimal rendering of integers (Python's str(int))
  // ---------------------------------------------------------------------

  predicate IsDigit(c: char) { '0' <= c <= '9' }

  function DigitChar(d: nat): (c: char)
    requires d < 10
    ensures IsDigit(c) && c as int - '0' as int == d
  {
    ('0' as int + d) as char
  }

  /** The decimal digits of `n`, most significant first, without leading zeros. */
  function NatToDecimal(n: nat): (s: string)
    ensures |s| >= 1
    ensures forall i :: 0 <= i < |s| ==> IsDigit(s[i])
    ensures s[0] == '0' ==> n == 0
    decreases n
  {
    if n < 10 then [DigitChar(n)] else NatToDecimal(n / 10) + [DigitChar(n % 10)]
  }

  /** The number a string of decimal digits denotes: the partner of NatToDecimal. */
  function DecimalValue(s: string): nat
    requires forall i :: 0 <= i < |s| ==> IsDigit(s[i])
  {
    if s == [] then 0
    else
      assert IsDigit(s[|s| - 1]);
      10 * DecimalValue(s[..|s| - 1]) + (s[|s| - 1] as int - '0' as int)
  }

  lemma {:induction false} DecimalRoundTrip(n: nat)
    ensures DecimalValue(NatToDecimal(n)) == n
    decreases n
  {
    if n >= 10 {
      var s := NatToDecimal(n);
      assert s[..|s| - 1] == NatToDecimal(n / 10);
      DecimalRoundTrip(n / 10);
    }
  }

  /** Python's str(i) for an int: a minus sign for negatives, then the digits. */
  function IntToDecimal(i: int): string
  {
    if i < 0 then "-" + NatToDecimal(-i) else NatToDecimal(i)
  }

  /** Reads back a rendered integer: the partner of IntToDecimal. */
  function ParseInt(s: string): int
    requires s != [] && s[0] == '-' ==> forall i :: 1 <= i < |s| ==> IsDigit(s[i])
    requires s == [] || s[0] != '-' ==> forall i :: 0 <= i < |s| ==> IsDigit(s[i])
  {
    if s != [] && s[0] == '-' then -(DecimalValue(s[1..]) as int) else DecimalValue(s)
  }

  lemma IntRoundTrip(i: int)
    ensures var s := IntToDecimal(i);
      s != [] && (s[0] == '-' <==> i < 0) && ParseInt(s) == i
  {
    var s := IntToDecimal(i);
    if i < 0 {
      assert s[1..] == NatToDecimal(-i);
      DecimalRoundTrip(-i);
    } else {
      DecimalRoundTrip(i);
    }
  }

  /** Two integers render to the same string only if they are equal. */
  lemma IntToDecimalInjective(a: int, b: int)
    requires IntToDecimal(a) == IntToDecimal(b)
    ensures a == b
  {
    IntRoundTrip(a);
    IntRoundTrip(b);
  }

  /** Python's int(x) for a finite float: truncation toward zero. */
  function Truncate(negative: bool, whole: nat): int
  {
    if negative then -(whole as int) else whole
  }

  /** Python's str(x) for a float in positional notation, e.g. "42.0", "-3.5". */
  function FloatToStr(negative: bool, whole: nat, fraction: string): string
  {
    (if negative then "-" else "") + NatToDecimal(whole) + "." + fraction
  }

  // ---------------------------------------------------------------------
  // str.strip() and str.lower()
  // ---------------------------------------------------------------------

  /** The characters Python's str.isspace accepts, which str.strip() removes. */
  predicate IsSpace(c: char)
  {
    ('\t' <= c <= '\r') || ('\U{1c}' <= c <= ' ') || c == '\U{85}' || c == '\U{a0}'
    || c == '\U{1680}' || ('\U{2000}' <= c <= '\U{200a}') || c == '\U{2028}' || c == '\U{2029}'
    || c == '\U{202f}' || c == '\U{205f}' || c == '\U{3000}'
  }

  /** No white space at either end. */
  predicate Trimmed(s: string)
  {
    s == [] || (!IsSpace(s[0]) && !IsSpace(s[|s| - 1]))
  }

  /** Removes leading white space: the result is the suffix of `s` that
      follows its longest all-space prefix. */
  function TrimStart(s: string): (r: string)
    ensures |r| <= |s| && r == s[|s| - |r|..]
    ensures forall i :: 0 <= i < |s| - |r| ==> IsSpace(s[i])
    ensures r == [] || !IsSpace(r[0])
  {
    if s != [] && IsSpace(s[0]) then TrimStart(s[1..]) else s
  }

  /** Removes trailing white space: the result is the prefix of `s` that
      precedes its longest all-space suffix. */
  function TrimEnd(s: string): (r: string)
    ensures |r| <= |s| && r == s[..|r|]
    ensures forall i :: |r| <= i < |s| ==> IsSpace(s[i])
    ensures r == [] || !IsSpace(r[|r| - 1])
  {
    if s != [] && IsSpace(s[|s| - 1]) then TrimEnd(s[..|s| - 1]) else s
  }

  /** Python's str.strip() with no argument. */
  function Strip(s: string): (r: string)
    ensures Trimmed(r)
  {
    var t := TrimStart(s);
    var r := TrimEnd(t);
    assert r != [] ==> r[0] == t[0];
    r
  }

  /** A string with no white space at either end is its own strip. */
  lemma StripKeepsTrimmed(s: string)
    requires Trimmed(s)
    ensures Strip(s) == s
  {
    assert TrimStart(s) == s;
  }

  predicate IsUpper(c: char) { 'A' <= c <= 'Z' }

  /** No ASCII upper-case letter. */
  predicate LowerCase(s: string)
  {
    forall i :: 0 <= i < |s| ==> !IsUpper(s[i])
  }

  /** Python's str.lower() restricted to ASCII letters. */
  function LowerChar(c: char): char
  {
    if IsUpper(c) then (c as int - 'A' as int + 'a' as int) as char else c
  }

  /** Lower-cases every letter and leaves every other character alone. */
  function Lower(s: string): (r: string)
    ensures |r| == |s| && LowerCase(r)
    ensures forall i :: 0 <= i < |s| && !IsUpper(s[i]) ==> r[i] == s[i]
    ensures forall i :: 0 <= i < |s| && IsUpper(s[i]) ==> r[i] as int == s[i] as int + ('a' as int - 'A' as int)
  {
    seq(|s|, i requires 0 <= i < |s| => LowerChar(s[i]))
  }

  /** `c` is `d` or the capital of `d`. */
  predicate SameLetter(c: char, d: char)
  {
    c == d || (IsUpper(c) && d as int == c as int + ('a' as int - 'A' as int))
  }

  /** Codes that differ only in the case of their letters, such as "ABC"
      and "abc", lower-case to the same text. */
  lemma LowerIgnoresCase(s: string, t: string)
    requires |s| == |t|
    requires forall i :: 0 <= i < |s| ==> SameLetter(s[i], t[i]) || SameLetter(t[i], s[i])
    ensures Lower(s) == Lower(t)
  {
  }

  /** A string without upper-case letters is its own lower(). */
  lemma LowerKeepsLowerCase(s: string)
    requires LowerCase(s)
    ensures Lower(s) == s
  {
  }

  /** Lower-casing keeps a stripped string stripped. */
  lemma LowerKeepsTrimmed(s: string)
    requires Trimmed(s)
    ensures Trimmed(Lower(s))
  {
    if s != [] {
      assert !IsUpper(s[0]) ==> Lower(s)[0] == s[0];
      assert !IsUpper(s[|s| - 1]) ==> Lower(s)[|s| - 1] == s[|s| - 1];
    }
  }

  /** A decimal rendering has no white space at its ends and no letters, so
      strip() and lower() leave it as it is. */
  lemma DecimalIsTrimmed(i: int)
    ensures Trimmed(IntToDecimal(i)) && LowerCase(IntToDecimal(i))
    ensures Strip(IntToDecimal(i)) == IntToDecimal(i) && Lower(IntToDecimal(i)) == IntToDecimal(i)
  {
    var s := IntToDecimal(i);
    var d := NatToDecimal(if i < 0 then -i else i);
    assert s == (if i < 0 then "-" else "") + d;
    assert IsDigit(s[|s| - 1]) by { assert s[|s| - 1] == d[|d| - 1]; }
    assert s[0] == '-' || IsDigit(s[0]);
    assert LowerCase(s) by {
      forall j | 0 <= j < |s| ensures !IsUpper(s[j]) {
        assert s[j] == '-' || IsDigit(s[j]);
      }
    }
    StripKeepsTrimmed(s);
    LowerKeepsLowerCase(s);
  }

  // ---------------------------------------------------------------------
  // The two key normalisations
  // ---------------------------------------------------------------------

  /** pandas' astype(str) on one cell: a missing cell becomes "nan". */
  function CellToStr(c: Cell): string
  {
    match c
    case Null => "nan"
    case Int(i) => IntToDecimal(i)
    case Float(negative, whole, fraction) => FloatToStr(negative, whole, fraction)
    case Text(s) => s
  }

  /** `ajustar_codigo_cliente`: absent for a missing cell, the truncated
      integer of a float, and the stripped string form of anything else. */
  function AdjustCode(c: Cell): (r: Option<string>)
    ensures r.None? <==> c.Null?
    ensures c.Text? ==> r.Some? && r.value == Strip(c.s)
  {
    match c
    case Null => None
    case Float(negative, whole, _) => Some(IntToDecimal(Truncate(negative, whole)))
    case Int(i) => Some(Strip(IntToDecimal(i)))
    case Text(s) => Some(Strip(s))
  }

  /** An int code keys to its decimal rendering: strip() finds nothing to
      remove. */
  lemma IntCodeIsItsDecimal(i: int)
    ensures AdjustCode(Int(i)) == Some(IntToDecimal(i))
  {
    DecimalIsTrimmed(i);
  }

  /** strip() followed by lower(): the result has no white space at either
      end and no upper-case letter. */
  function StripLower(s: string): (k: string)
    ensures Trimmed(k) && LowerCase(k)
  {
    var t := Strip(s);
    LowerKeepsTrimmed(t);
    Lower(t)
  }

  /** strip().lower() of a key it produced gives that key back. */
  lemma StripLowerIdempotent(s: string)
    ensures StripLower(StripLower(s)) == StripLower(s)
  {
    var k := StripLower(s);
    StripKeepsTrimmed(k);
    LowerKeepsLowerCase(k);
  }

  /** The key of a Base Gamma or Positivador Novo client cell:
      astype(str), then strip(), then lower(). */
  function RosterKey(c: Cell): string
  {
    StripLower(CellToStr(c))
  }

  /** The key of an Inclusões client cell: `ajustar_codigo_cliente`, then
      lower(); absent exactly when the cell is missing. */
  function InclusionKey(c: Cell): (k: Option<string>)
    ensures k.None? <==> c.Null?
    ensures k.Some? ==> LowerCase(k.value)
  {
    match AdjustCode(c)
    case None => None
    case Some(s) => Some(Lower(s))
  }

  /** A float code keys to the rendering of its truncated integer (1023.7
      gives "1023"), and that rendering reads back as that integer. */
  lemma FloatCodeKeysToTruncation(negative: bool, whole: nat, fraction: string)
    ensures var k := InclusionKey(Float(negative, whole, fraction));
      k.Some? && k.value == IntToDecimal(Truncate(negative, whole))
      && ParseInt(k.value) == Truncate(negative, whole)
  {
    DecimalIsTrimmed(Truncate(negative, whole));
    IntRoundTrip(Truncate(negative, whole));
  }

  /** Zero is a code like any other: only a missing cell is absent. */
  lemma ZeroIsNotAbsent(negative: bool, fraction: string)
    ensures AdjustCode(Int(0)) == Some("0")
    ensures AdjustCode(Float(negative, 0, fraction)) == Some("0")
  {
    assert NatToDecimal(0) == "0";
    IntCodeIsItsDecimal(0);
  }

  /** Normalising an inclusion key a second time, as a text cell, changes
      nothing. */
  lemma InclusionKeyIdempotent(c: Cell)
    requires !c.Null?
    ensures InclusionKey(Text(InclusionKey(c).value)) == InclusionKey(c)
  {
    var a := AdjustCode(c).value;
    var k := Lower(a);
    match c
    case Float(negative, whole, _) => DecimalIsTrimmed(Truncate(negative, whole));
    case Int(i) => IntCodeIsItsDecimal(i); DecimalIsTrimmed(i);
    case Text(s) => LowerKeepsTrimmed(a);
    assert Trimmed(k);
    StripKeepsTrimmed(k);
    LowerKeepsLowerCase(k);
  }

  /** Normalising a roster key a second time, as a text cell, changes nothing. */
  lemma RosterKeyIdempotent(c: Cell)
    ensures RosterKey(Text(RosterKey(c))) == RosterKey(c)
  {
    StripLowerIdempotent(CellToStr(c));
  }

  /** An inclusion code written as an int, as a float with that integer
      part (whatever its fraction), or as the int's digits padded with
      spaces, keys to the same string: the int's decimal rendering. */
  lemma InclusionCodeSpellingsAgree(n: int, fraction: string)
    ensures InclusionKey(Int(n)) == Some(IntToDecimal(n))
    ensures InclusionKey(Float(n < 0, if n < 0 then -n else n, fraction)) == Some(IntToDecimal(n))
    ensures InclusionKey(Text(" " + IntToDecimal(n) + " ")) == Some(IntToDecimal(n))
  {
    var d := IntToDecimal(n);
    DecimalIsTrimmed(n);
    IntCodeIsItsDecimal(n);
    assert Truncate(n < 0, if n < 0 then -n else n) == n;
    StripPadded(d);
    LowerKeepsLowerCase(d);
  }

  /** strip() removes one space on each side of a trimmed non-empty string. */
  lemma StripPadded(d: string)
    requires d != [] && Trimmed(d)
    ensures Strip(" " + d + " ") == d
  {
    var padded := " " + d + " ";
    var tail := d + " ";
    assert padded == [' '] + tail;
    TrimStartDropsSpace(' ', tail);
    assert tail == d + [' '];
    TrimEndDropsSpace(d, ' ');
    TrimStartStops(tail);
    TrimEndStops(d);
  }

  lemma TrimStartDropsSpace(c: char, s: string)
    requires IsSpace(c)
    ensures TrimStart([c] + s) == TrimStart(s)
  {
    assert ([c] + s)[1..] == s;
  }

  lemma TrimEndDropsSpace(s: string, c: char)
    requires IsSpace(c)
    ensures TrimEnd(s + [c]) == TrimEnd(s)
  {
    assert (s + [c])[..|s|] == s;
  }

  lemma TrimStartStops(s: string)
    requires s != [] && !IsSpace(s[0])
    ensures TrimStart(s) == s
  {
  }

  lemma TrimEndStops(s: string)
    requires s != [] && !IsSpace(s[|s| - 1])
    ensures TrimEnd(s) == s
  {
  }

  /** A non-negative float's rendering has no white space at its ends and
      no letters. */
  lemma FloatTextIsPlain(whole: nat, fraction: string)
    requires fraction != [] && forall i :: 0 <= i < |fraction| ==> IsDigit(fraction[i])
    ensures Trimmed(FloatToStr(false, whole, fraction)) && LowerCase(FloatToStr(false, whole, fraction))
  {
    var d := NatToDecimal(whole);
    var s := FloatToStr(false, whole, fraction);
    assert s == d + "." + fraction;
    assert IsDigit(s[0]) && IsDigit(s[|s| - 1]);
    forall j | 0 <= j < |s| ensures !IsUpper(s[j]) {
      assert j < |d| ==> s[j] == d[j];
      assert j > |d| ==> s[j] == fraction[j - |d| - 1];
    }
  }

  /** An int cell's roster key is its decimal rendering. */
  lemma IntRosterKey(i: int)
    ensures RosterKey(Int(i)) == IntToDecimal(i)
  {
    DecimalIsTrimmed(i);
    KeepsPlainKey(IntToDecimal(i));
  }

  /** A non-negative float cell's roster key is its rendering. */
  lemma FloatRosterKey(whole: nat, fraction: string)
    requires fraction != [] && forall i :: 0 <= i < |fraction| ==> IsDigit(fraction[i])
    ensures RosterKey(Float(false, whole, fraction)) == NatToDecimal(whole) + "." + fraction
  {
    var s := FloatToStr(false, whole, fraction);
    assert s == NatToDecimal(whole) + "." + fraction;
    FloatTextIsPlain(whole, fraction);
    KeepsPlainKey(s);
  }

  /** A text cell holding a decimal rendering keys to that rendering. */
  lemma DecimalTextRosterKey(i: int)
    ensures RosterKey(Text(IntToDecimal(i))) == IntToDecimal(i)
  {
    DecimalIsTrimmed(i);
    KeepsPlainKey(IntToDecimal(i));
  }

  /** A float roster code keeps its fractional part ("42.0"), so it never
      matches the same client's code written as an int or as its digits. */
  lemma RosterFloatKeepsFraction(whole: nat, fraction: string)
    requires fraction != [] && forall i :: 0 <= i < |fraction| ==> IsDigit(fraction[i])
    ensures RosterKey(Float(false, whole, fraction)) == NatToDecimal(whole) + "." + fraction
    ensures RosterKey(Float(false, whole, fraction)) != RosterKey(Int(whole))
    ensures RosterKey(Float(false, whole, fraction)) != RosterKey(Text(NatToDecimal(whole)))
  {
    var d := NatToDecimal(whole);
    FloatRosterKey(whole, fraction);
    IntRosterKey(whole);
    DecimalTextRosterKey(whole);
    assert IntToDecimal(whole) == d;
    assert |d + "." + fraction| > |d|;
  }

  /** A missing roster cell becomes the key "nan". */
  lemma MissingRosterCodeIsNan()
    ensures RosterKey(Null) == "nan"
  {
    KeepsPlainKey("nan");
  }

  /** A key with no surrounding space and no capital is its own strip().lower(). */
  lemma KeepsPlainKey(s: string)
    requires Trimmed(s) && LowerCase(s)
    ensures StripLower(s) == s
  {
    StripKeepsTrimmed(s);
    LowerKeepsLowerCase(s);
  }
}
