/** Numbers in text, as Python prints and reads them. */
module Numbers {
  import opened Text

  /** The zeros of the decimal digits outside ASCII (Unicode 14). */
  const ZEROS: set<int> := {
    0x660, 0x6F0, 0x7C0, 0x966, 0x9E6, 0xA66, 0xAE6, 0xB66, 0xBE6, 0xC66,
    0xCE6, 0xD66, 0xDE6, 0xE50, 0xED0, 0xF20, 0x1040, 0x1090, 0x17E0, 0x1810,
    0x1946, 0x19D0, 0x1A80, 0x1A90, 0x1B50, 0x1BB0, 0x1C40, 0x1C50, 0xA620, 0xA8D0,
    0xA900, 0xA9D0, 0xA9F0, 0xAA50, 0xABF0, 0xFF10, 0x104A0, 0x10D30, 0x11066, 0x110F0,
    0x11136, 0x111D0, 0x112F0, 0x11450, 0x114D0, 0x11650, 0x116C0, 0x11730, 0x118E0, 0x11950,
    0x11C50, 0x11D50, 0x11DA0, 0x16A60, 0x16AC0, 0x16B50, 0x1D7CE, 0x1D7D8, 0x1D7E2, 0x1D7EC,
    0x1D7F6, 0x1E140, 0x1E2F0, 0x1E950, 0x1FBF0}

  /** Characters that are digits but not decimal ones, such as exponents: ranges of them. */
  const OTHER_DIGITS: seq<(int, int)> := [
    (0xB2, 0xB3), (0xB9, 0xB9), (0x1369, 0x1371), (0x19DA, 0x19DA), (0x2070, 0x2070),
    (0x2074, 0x2079), (0x2080, 0x2089), (0x2460, 0x2468), (0x2474, 0x247C), (0x2488, 0x2490),
    (0x24EA, 0x24EA), (0x24F5, 0x24FD), (0x24FF, 0x24FF), (0x2776, 0x277E), (0x2780, 0x2788),
    (0x278A, 0x2792), (0x10A40, 0x10A43), (0x10E60, 0x10E68), (0x11052, 0x1105A), (0x1F100, 0x1F10A)]

  predicate IsDigit(c: char) { '0' <= c <= '9' }

  /** How far a character stands behind the nearest zero before it, up to nine. */
  function ValueFrom(c: int, v: nat): Option<int>
    decreases 10 - v
  {
    if v > 9 then None else if c - v in ZEROS then Some(v) else ValueFrom(c, v + 1)
  }

  /** The value of a decimal digit, None for any other character. */
  function Decimal(c: char): Option<int> {
    if IsDigit(c) then Some(c as int - '0' as int)
    else if c as int < 0x80 then None
    else ValueFrom(c as int, 0)
  }

  lemma {:induction false} ValueFromIs(c: int, v: nat)
    ensures var r := ValueFrom(c, v);
      if r.Some? then v <= r.value <= 9 && c - r.value in ZEROS && forall z :: c - r.value < z <= c - v ==> z !in ZEROS
      else forall z :: c - 9 <= z <= c - v ==> z !in ZEROS
    decreases 10 - v
  {
    hide ZEROS;
    if v <= 9 && c - v !in ZEROS { ValueFromIs(c, v + 1); }
  }

  /** A decimal digit is a zero or one of the nine characters behind one, and its distance
      from the zero is its value. */
  lemma DecimalIs(c: char)
    ensures 48 <= c as int <= 57 ==> Decimal(c) == Some(c as int - 48)
    ensures c as int < 128 && !(48 <= c as int <= 57) ==> Decimal(c) == None
    ensures c as int >= 128 ==>
      match Decimal(c)
      case Some(v) => 0 <= v <= 9 && c as int - v in ZEROS && forall z :: c as int - v < z <= c as int ==> z !in ZEROS
      case None => forall z :: c as int - 9 <= z <= c as int ==> z !in ZEROS
  {
    hide ZEROS;
    ValueFromIs(c as int, 0);
  }

  predicate Among(c: int, ranges: seq<(int, int)>) {
    ranges != [] && (ranges[0].0 <= c <= ranges[0].1 || Among(c, ranges[1..]))
  }

  /** `c.isdigit()`. */
  predicate DigitLike(c: char) {
    Decimal(c).Some? || Among(c as int, OTHER_DIGITS)
  }

  // ---- printing -------------------------------------------------------------------

  function DigitChar(n: nat): (c: char)
    requires n < 10
    ensures IsDigit(c) && c as int - '0' as int == n
  {
    ('0' as int + n) as char
  }

  /** Python `str(n)` for n >= 0. */
  function Digits(n: nat): (s: string)
    ensures s != [] && forall i :: 0 <= i < |s| ==> IsDigit(s[i])
  {
    if n < 10 then [DigitChar(n)] else Digits(n / 10) + [DigitChar(n % 10)]
  }

  /** Python `str(n)`. */
  function IntText(n: int): (s: string)
    ensures s != []
  {
    if n < 0 then "-" + Digits(-n) else Digits(n)
  }

  // ---- reading --------------------------------------------------------------------

  /** Decimal digits, with single underscores between them if any. */
  function Numeral(w: string): Option<int> {
    if w == [] then None
    else
      var front := w[..|w| - 1];
      match Decimal(w[|w| - 1])
      case None => None
      case Some(v) =>
        if front == [] then Some(v)
        else
          match Numeral(if front[|front| - 1] == '_' then front[..|front| - 1] else front)
          case None => None
          case Some(n) => Some(n * 10 + v)
  }

  function Negated(n: Option<int>): Option<int> {
    match n case None => None case Some(v) => Some(-v)
  }

  /** Python `int(w)` on one word, None for ValueError. */
  function ParseInt(w: string): Option<int> {
    if |w| > 1 && w[0] == '-' then Negated(Numeral(w[1..]))
    else if |w| > 1 && w[0] == '+' then Numeral(w[1..])
    else Numeral(w)
  }

  /** The digits at the start of a word. */
  function LeadingDigits(w: string): (r: string)
    ensures |r| <= |w|
  {
    if w == [] || !DigitLike(w[0]) then [] else [w[0]] + LeadingDigits(w[1..])
  }

  /** lib/func.py `getInt` on one word, None for an exception: what `int` cannot read counts
      by its leading digits, and for nothing if it has none or nothing else. */
  function GetInt(w: string): Option<int> {
    match ParseInt(w)
    case Some(n) => Some(n)
    case None =>
      var lead := LeadingDigits(w);
      if lead == [] || |lead| == |w| then Some(0) else ParseInt(lead)
  }

  // ---- what is a number ----------------------------------------------------------------

  lemma {:induction false} AmongIs(c: int, ranges: seq<(int, int)>)
    ensures Among(c, ranges) <==> exists i :: 0 <= i < |ranges| && ranges[i].0 <= c <= ranges[i].1
    decreases |ranges|
  {
    if ranges != [] {
      AmongIs(c, ranges[1..]);
      assert forall i :: 0 < i < |ranges| ==> ranges[i] == ranges[1..][i - 1];
    }
  }

  /** What `isdigit` accepts: the decimal digits and the characters of the other ranges. */
  lemma DigitLikeIs(c: char)
    ensures DigitLike(c) <==>
      (Decimal(c).Some? || exists i :: 0 <= i < |OTHER_DIGITS| && OTHER_DIGITS[i].0 <= c as int <= OTHER_DIGITS[i].1)
  {
    hide OTHER_DIGITS;
    hide Decimal;
    AmongIs(c as int, OTHER_DIGITS);
  }

  lemma NotDecimal()
    ensures Decimal('_') == None && Decimal('-') == None && Decimal('+') == None
  {
  }

  /** A numeral with a digit behind it. */
  function Longer(n: Option<int>, v: Option<int>): Option<int> {
    if n.Some? && v.Some? then Some(10 * n.value + v.value) else None
  }

  lemma NumeralOne(d: char)
    ensures Numeral([d]) == Decimal(d) && Numeral([]) == None
  {
    hide Decimal;
    assert [d][..0] == [] && [d][0] == d;
  }

  /** A digit is a numeral, and behind a numeral another digit counts on. */
  lemma NumeralIs(a: string, d: char)
    requires a != [] && a[|a| - 1] != '_'
    ensures Numeral(a + [d]) == Longer(Numeral(a), Decimal(d))
  {
    hide Decimal;
    var w := a + [d];
    assert w != [] && w[..|w| - 1] == a && w[|w| - 1] == d;
  }

  /** A single underscore may stand between two digits and nowhere else. */
  lemma UnderscoreIs(a: string, d: char)
    ensures Numeral(a + ['_']) == None
    ensures Numeral((a + ['_']) + [d]) == Longer(Numeral(a), Decimal(d))
  {
    NotDecimal();
    hide Decimal;
    var b := a + ['_'];
    assert b[|a|] == '_' && b[..|a|] == a;
    assert (b + [d])[..|b|] == b && (b + [d])[|b|] == d;
  }

  /** One sign may stand in front. */
  lemma Signs(w: string)
    requires w != [] && w[0] != '-' && w[0] != '+'
    ensures ParseInt(w) == Numeral(w)
    ensures ParseInt("+" + w) == Numeral(w)
    ensures ParseInt("-" + w) == match Numeral(w) case None => None case Some(n) => Some(-n)
    ensures ParseInt("-") == None && ParseInt("+") == None
  {
    assert ("+" + w)[1..] == w && ("-" + w)[1..] == w;
    assert Decimal('-') == None && Decimal('+') == None;
    assert "-"[0] == '-' && "+"[0] == '+';
  }

  /** `getInt` of what is no number: the number in front of the first character that is no
      digit; nothing if there is none such in front, or nothing else. */
  lemma {:induction false} LeadingIs(lead: string, rest: string)
    requires forall i :: 0 <= i < |lead| ==> DigitLike(lead[i])
    requires rest != [] ==> !DigitLike(rest[0])
    ensures LeadingDigits(lead + rest) == lead
    decreases |lead|
  {
    hide DigitLike;
    if lead == [] {
      assert lead + rest == rest;
    } else {
      assert (lead + rest)[1..] == lead[1..] + rest;
      LeadingIs(lead[1..], rest);
    }
  }

  lemma GetIntIs(lead: string, rest: string)
    requires forall i :: 0 <= i < |lead| ==> DigitLike(lead[i])
    requires rest != [] ==> !DigitLike(rest[0])
    ensures var w := lead + rest;
      GetInt(w) == if ParseInt(w).Some? then ParseInt(w)
                   else if |lead| == 0 || |rest| == 0 then Some(0) else ParseInt(lead)
  {
    hide DigitLike;
    hide ParseInt;
    LeadingIs(lead, rest);
  }

  // ---- there and back -----------------------------------------------------------------

  lemma {:induction false} NumeralOfDigits(n: nat)
    ensures Numeral(Digits(n)) == Some(n)
  {
    if n < 10 {
      assert [DigitChar(n)][..0] == [];
    } else {
      var s := Digits(n / 10);
      NumeralOfDigits(n / 10);
      assert (s + [DigitChar(n % 10)])[..|s|] == s && s[|s| - 1] != '_';
    }
  }

  /** `int(str(n)) == n`. */
  lemma IntRoundTrip(n: int)
    ensures ParseInt(IntText(n)) == Some(n)
  {
    hide Digits;
    hide Numeral;
    if n < 0 {
      NumeralOfDigits(-n);
      var w := IntText(n);
      assert w[0] == '-' && w[1..] == Digits(-n);
    } else {
      NumeralOfDigits(n);
      assert IsDigit(IntText(n)[0]);
    }
  }

  /** A printed number is one word. */
  lemma IntTextIsWord(n: int)
    ensures IsWord(PYTHON, IntText(n))
  {
    assert forall c: char :: IsDigit(c) ==> c !in PYTHON;
  }
}
