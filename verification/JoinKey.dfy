/** Join keys of different types: what makes two raw key values meet. */
module JoinKey {
  import opened Prelude
  import opened JoinRows

  const MIN_INT64: int := -0x8000_0000_0000_0000
  const MAX_INT64: int := 0x7fff_ffff_ffff_ffff

  predicate IsInt64(i: int) {
    MIN_INT64 <= i <= MAX_INT64
  }

  /**
   A raw key: nil, a signed or unsigned integer of any width, a float, a string, or another value with
   its printed text.
   */
  datatype Raw =
    | NilRaw
    | IntRaw(i: int)
    | UnsignedRaw(u: nat)
    | FloatRaw(r: real)
    | StringRaw(s: string)
    | OtherRaw(printed: string)

  predicate IsDigit(c: char) {
    '0' <= c <= '9'
  }

  function Digits(s: string): Option<nat> {
    if s == "" || !IsDigit(s[|s| - 1]) then None
    else
      var d := s[|s| - 1] as int - '0' as int;
      if |s| == 1 then Some(d)
      else match Digits(s[..|s| - 1])
           case None => None
           case Some(n) => Some(10 * n + d)
  }

  /** Base-10 parsing with an optional sign, for 64-bit results. */
  function ParseInt(s: string): Option<int> {
    var negative := s != "" && s[0] == '-';
    var signed := s != "" && (s[0] == '-' || s[0] == '+');
    match Digits(if signed then s[1..] else s)
    case None => None
    case Some(n) =>
      var magnitude: int := n;
      var i := if negative then -magnitude else magnitude;
      if IsInt64(i) then Some(i) else None
  }

  function DigitsOf(n: nat): string {
    var last := ['0' + (n % 10) as char];
    if n < 10 then last else DigitsOf(n / 10) + last
  }

  /** The key, or None for a float that is not an integer. Unsigned integers are printed, like all other types. */
  function NormalizeKey(raw: Raw): Option<Key> {
    match raw
    case NilRaw => Some(NilKey)
    case IntRaw(i) => Some(IntKey(i))
    case FloatRaw(r) => if r.Floor as real == r && IsInt64(r.Floor) then Some(IntKey(r.Floor)) else None
    case StringRaw(s) =>
      (match ParseInt(s)
       case Some(i) => Some(IntKey(i))
       case None => Some(TextKey(s)))
    case UnsignedRaw(u) => Some(TextKey(DigitsOf(u)))
    case OtherRaw(printed) => Some(TextKey(printed))
  }

  // ---- What number a value denotes, however it is typed ----

  function Zeros(k: nat): string {
    seq(k, _ => '0')
  }

  /** s is a decimal numeral of i: a sign that fits, any number of leading zeros, and the digits. */
  ghost predicate IsNumeral(s: string, i: int) {
    exists sign, k: nat :: FitsSign(sign, i) && s == sign + Zeros(k) + DigitsOf(Magnitude(i))
  }

  predicate FitsSign(sign: string, i: int) {
    (i >= 0 && (sign == "" || sign == "+")) || (i <= 0 && sign == "-")
  }

  function Magnitude(i: int): nat {
    if i < 0 then -i else i
  }

  ghost predicate Denotes(raw: Raw, i: int) {
    match raw
    case IntRaw(j) => j == i
    case UnsignedRaw(u) => u == i
    case FloatRaw(r) => r == i as real
    case StringRaw(s) => IsNumeral(s, i)
    case _ => false
  }

  // ---- Parsing finds exactly the number that a numeral denotes ----

  lemma {:induction false} DigitsRoundTrip(n: nat)
    ensures Digits(DigitsOf(n)) == Some(n) && |DigitsOf(n)| > 0 && IsDigit(DigitsOf(n)[0])
  {
    var s := DigitsOf(n);
    if n >= 10 {
      DigitsRoundTrip(n / 10);
      assert s[..|s| - 1] == DigitsOf(n / 10);
    }
  }

  lemma {:induction false} PaddedDigits(k: nat, n: nat)
    ensures Digits(Zeros(k) + DigitsOf(n)) == Some(n)
    decreases k, n
  {
    var s := Zeros(k) + DigitsOf(n);
    DigitsRoundTrip(n);
    if n >= 10 {
      PaddedDigits(k, n / 10);
      assert s[..|s| - 1] == Zeros(k) + DigitsOf(n / 10);
    } else if k > 0 {
      assert s[..|s| - 1] == Zeros(k - 1) + DigitsOf(0);
      PaddedDigits(k - 1, 0);
    } else {
      assert s == DigitsOf(n);
    }
  }

  /** Every string of digits is its value's digits behind zeros. */
  lemma {:induction false} DigitsAreNumeral(s: string) returns (k: nat)
    requires Digits(s).Some?
    ensures s == Zeros(k) + DigitsOf(Digits(s).value)
  {
    var n := Digits(s).value;
    if |s| == 1 {
      k := 0;
    } else {
      var init, c := s[..|s| - 1], s[|s| - 1];
      var m := Digits(init).value;
      var j := DigitsAreNumeral(init);
      assert s == init + [c];
      OneMoreDigit(m, n, c);
      if m == 0 {
        k := j + 1;
        assert Zeros(j) + "0" == Zeros(j + 1);
      } else {
        k := j;
      }
    }
  }

  lemma OneMoreDigit(m: nat, n: nat, c: char)
    requires IsDigit(c) && n == 10 * m + (c as int - '0' as int)
    ensures DigitsOf(n) == if m == 0 then [c] else DigitsOf(m) + [c]
    ensures DigitsOf(0) == "0"
  {
    assert n / 10 == m && n % 10 == c as int - '0' as int;
  }

  /** A sign before a string that begins with a digit can be told from it. */
  lemma SignApart(sign: string, body: string, i: int)
    requires FitsSign(sign, i) && body != "" && IsDigit(body[0])
    ensures var s := sign + body;
      && (if s[0] == '-' || s[0] == '+' then s[1..] else s) == body
      && (i < 0 ==> s[0] == '-') && (i > 0 ==> s[0] != '-')
  {
    if sign != "" { assert (sign + body)[1..] == body; } else { assert sign + body == body; }
  }

  lemma NumeralDigits(s: string, i: int)
    requires IsNumeral(s, i)
    ensures s != "" && Digits(if s[0] == '-' || s[0] == '+' then s[1..] else s) == Some(Magnitude(i))
    ensures (i < 0 ==> s[0] == '-') && (i > 0 ==> s[0] != '-')
  {
    var sign, k: nat :| FitsSign(sign, i) && s == sign + Zeros(k) + DigitsOf(Magnitude(i));
    assert s == sign + (Zeros(k) + DigitsOf(Magnitude(i)));
    SignedDigits(sign, k, i);
  }

  lemma SignedDigits(sign: string, k: nat, i: int)
    requires FitsSign(sign, i)
    ensures var s := sign + (Zeros(k) + DigitsOf(Magnitude(i)));
      && s != "" && Digits(if s[0] == '-' || s[0] == '+' then s[1..] else s) == Some(Magnitude(i))
      && (i < 0 ==> s[0] == '-') && (i > 0 ==> s[0] != '-')
  {
    PaddedDigits(k, Magnitude(i));
    BodyStarts(k, Magnitude(i));
    SignApart(sign, Zeros(k) + DigitsOf(Magnitude(i)), i);
  }

  lemma BodyStarts(k: nat, n: nat)
    ensures var body := Zeros(k) + DigitsOf(n); body != "" && IsDigit(body[0])
  {
    DigitsRoundTrip(n);
  }

  lemma NumeralParses(s: string, i: int)
    requires IsNumeral(s, i) && IsInt64(i)
    ensures ParseInt(s) == Some(i)
  {
    NumeralDigits(s, i);
  }

  lemma ParsesNumeral(s: string)
    requires ParseInt(s).Some?
    ensures IsNumeral(s, ParseInt(s).value) && IsInt64(ParseInt(s).value)
  {
    var i := ParseInt(s).value;
    var signed := s != "" && (s[0] == '-' || s[0] == '+');
    var body := if signed then s[1..] else s;
    var sign := if signed then [s[0]] else "";
    var k := DigitsAreNumeral(body);
    assert Magnitude(i) == Digits(body).value;
    assert s == sign + Zeros(k) + DigitsOf(Magnitude(i));
    assert FitsSign(sign, i);
  }

  /** A 64-bit number is found in a value other than an unsigned integer exactly if the value denotes it. */
  lemma NumberFound(raw: Raw, i: int)
    requires IsInt64(i) && !raw.UnsignedRaw?
    ensures NormalizeKey(raw) == Some(IntKey(i)) <==> Denotes(raw, i)
  {
    if raw.StringRaw? {
      if IsNumeral(raw.s, i) { NumeralParses(raw.s, i); }
      if ParseInt(raw.s) == Some(i) { ParsesNumeral(raw.s); }
    }
  }

  /** Digits are decimal, the last one for the units; a minus sign makes the number negative. */
  lemma NumeralsAreDecimal(n: nat, d: nat)
    requires d < 10
    ensures DigitsOf(d) == ["0123456789"[d]]
    ensures n > 0 ==> DigitsOf(10 * n + d) == DigitsOf(n) + ["0123456789"[d]]
    ensures ParseInt("7") == ParseInt("+7") == Some(7) && ParseInt("-7") == Some(-7) && ParseInt("--7") == None
  {
    assert (10 * n + d) / 10 == n && (10 * n + d) % 10 == d;
    assert "+7"[1..] == "7" && "-7"[1..] == "7" && Digits("7") == Some(7);
    assert "--7"[1..] == "-7" && "-7"[..1] == "-" && Digits("-") == None;
  }

  // ---- When keys meet ----

  ghost predicate Meet(a: Raw, b: Raw) {
    NormalizeKey(a).Some? && NormalizeKey(a) == NormalizeKey(b)
  }

  /**
   Two values that denote the same 64-bit number meet exactly if both or neither are unsigned integers:
   a signed integer, the equal float and every decimal numeral of it are one key, and an unsigned
   integer meets none of them.
   */
  lemma NumbersMeet(a: Raw, b: Raw, i: int)
    requires IsInt64(i) && Denotes(a, i) && Denotes(b, i)
    ensures Meet(a, b) <==> (a.UnsignedRaw? <==> b.UnsignedRaw?)
  {
    if !a.UnsignedRaw? { NumberFound(a, i); }
    if !b.UnsignedRaw? { NumberFound(b, i); }
  }

  /** Signed integers, floats and strings that denote different numbers, of which one is in range, do not meet. */
  lemma DifferentNumbersDoNotMeet(a: Raw, b: Raw, i: int, j: int)
    requires i != j && IsInt64(i) && Denotes(a, i) && Denotes(b, j) && !a.UnsignedRaw?
    ensures !Meet(a, b)
  {
    NumberFound(a, i);
    if !b.UnsignedRaw? && Meet(a, b) {
      NumberFound(b, i);
      OneNumber(b, i, j);
    }
  }

  lemma OneNumber(raw: Raw, i: int, j: int)
    requires Denotes(raw, i) && Denotes(raw, j)
    ensures i == j
  {
    if raw.StringRaw? {
      NumeralDigits(raw.s, i);
      NumeralDigits(raw.s, j);
    }
  }

  /**
   Two different strings meet exactly if they are numerals, with their signs and leading zeros, of one
   64-bit number.
   */
  lemma StringsMeet(s: string, t: string)
    ensures Meet(StringRaw(s), StringRaw(t)) <==> s == t || exists i :: IsInt64(i) && IsNumeral(s, i) && IsNumeral(t, i)
  {
    if i :| IsInt64(i) && IsNumeral(s, i) && IsNumeral(t, i) {
      NumeralParses(s, i);
      NumeralParses(t, i);
    }
    if ParseInt(s).Some? && ParseInt(s) == ParseInt(t) {
      ParsesNumeral(s);
      ParsesNumeral(t);
    }
  }

  /** Unsigned integers meet if and only if they are equal, also within the range of signed ones. */
  lemma UnsignedMeet(u: nat, v: nat)
    ensures Meet(UnsignedRaw(u), UnsignedRaw(v)) <==> u == v
  {
    DigitsRoundTrip(u);
    DigitsRoundTrip(v);
  }

  /** Nil is a key that only nil meets. */
  lemma NilMeets(raw: Raw)
    ensures Meet(NilRaw, raw) <==> raw == NilRaw
  {
  }

  /** A float has a key exactly if it is a 64-bit integer; any other meets nothing, not even itself. */
  lemma FloatsMeet(r: real, raw: Raw)
    ensures NormalizeKey(FloatRaw(r)).Some? <==> exists i: int :: IsInt64(i) && i as real == r
    ensures Meet(FloatRaw(r), raw) ==> exists i: int :: IsInt64(i) && i as real == r
  {
    if NormalizeKey(FloatRaw(r)).Some? { assert IsInt64(r.Floor) && r.Floor as real == r; }
    if i: int :| IsInt64(i) && i as real == r { assert r.Floor == i; }
  }

  /** Every value but such a float has a key. */
  lemma OnlyFloatsFail(raw: Raw)
    ensures NormalizeKey(raw) == None ==> raw.FloatRaw? && forall i: int :: IsInt64(i) ==> i as real != raw.r
  {
    if raw.FloatRaw? { FloatsMeet(raw.r, raw); }
  }

  /** Values of other types meet each other, and unsigned integers, exactly if they print the same. */
  lemma PrintedMeet(a: string, b: string, u: nat)
    ensures Meet(OtherRaw(a), OtherRaw(b)) <==> a == b
    ensures Meet(OtherRaw(a), UnsignedRaw(u)) <==> a == DigitsOf(u)
  {
  }

  /** Beyond the range of signed integers the digits of a number are no key of a number. */
  lemma TooLargeToParse(u: nat)
    requires u > MAX_INT64
    ensures ParseInt(DigitsOf(u)) == None
  {
    var s := DigitsOf(u);
    if ParseInt(s).Some? {
      PlainNumeral(u);
      ParsesNumeral(s);
      NumeralDigits(s, u);
      NumeralDigits(s, ParseInt(s).value);
    }
  }

  /**
   An unsigned integer meets a string only as text: exactly its own digits, and only beyond the range of
   signed integers, where the string is no number either.
   */
  lemma UnsignedMeetsString(u: nat, s: string)
    ensures Meet(UnsignedRaw(u), StringRaw(s)) <==> s == DigitsOf(u) && u > MAX_INT64
  {
    if u > MAX_INT64 {
      TooLargeToParse(u);
    } else {
      PlainNumeral(u);
      NumeralParses(DigitsOf(u), u);
    }
  }

  lemma PlainNumeral(u: nat)
    ensures IsNumeral(DigitsOf(u), u)
  {
    assert FitsSign("", u) && DigitsOf(u) == "" + Zeros(0) + DigitsOf(Magnitude(u));
  }

  /**
   Any other value meets a string exactly if it prints as that string and the string is no 64-bit
   numeral; it meets no number.
   */
  lemma PrintedKeysAreTexts(printed: string, s: string)
    ensures Meet(OtherRaw(printed), StringRaw(s)) <==> printed == s && !exists i :: IsInt64(i) && IsNumeral(s, i)
    ensures forall i :: !Meet(OtherRaw(printed), IntRaw(i))
  {
    if ParseInt(s).Some? { ParsesNumeral(s); }
    forall i | IsInt64(i) && IsNumeral(s, i) ensures ParseInt(s).Some? { NumeralParses(s, i); }
  }
}
