/** The C library functions that httpclient.cpp applies to lines of text: strtok_r,
    strcasecmp and strtoul, on strings without their terminating NUL. */
module CText {
  import opened Bytes

  const NUL: u8 := 0x00
  const TAB: u8 := 0x09
  const LF: u8 := 0x0A
  const CR: u8 := 0x0D
  const SPACE: u8 := 0x20

  /** The codes of a string of characters below 256. */
  function Codes(s: string): (r: seq<u8>)
    ensures |r| == |s|
  {
    seq(|s|, i requires 0 <= i < |s| => (s[i] as int) % 0x100)
  }

  // -------------------------------------------------------------------------
  // strtok_r
  // -------------------------------------------------------------------------

  function Skip(s: seq<u8>, delims: set<u8>): (n: nat)
    ensures n <= |s|
  {
    if s == [] || s[0] !in delims then 0 else 1 + Skip(s[1..], delims)
  }

  function Scan(s: seq<u8>, delims: set<u8>): (n: nat)
    ensures n <= |s|
  {
    if s == [] || s[0] in delims then 0 else 1 + Scan(s[1..], delims)
  }

  /** A token; `left` is the string in front of the NUL that ends it, `rest` what
      the next call goes on with. */
  datatype Token = NoToken | Token(token: seq<u8>, left: seq<u8>, rest: seq<u8>)

  function NextToken(s: seq<u8>, delims: set<u8>): Token {
    var a := Skip(s, delims);
    if a == |s| then NoToken
    else
      var b := a + Scan(s[a..], delims);
      Token(s[a..b], s[..b], if b < |s| then s[b + 1..] else [])
  }

  lemma TokenParts(s: seq<u8>, delims: set<u8>)
    requires NextToken(s, delims).Token?
    ensures var t := NextToken(s, delims);
            && |t.left| <= |s| && t.left == s[..|t.left|]
            && t.rest == if |t.left| < |s| then s[|t.left| + 1..] else []
  {
  }

  /** A string that has none of the delimiters. */
  predicate Free(s: seq<u8>, delims: set<u8>) {
    forall c <- s :: c !in delims
  }

  lemma {:induction false} ScanTo(s: seq<u8>, more: seq<u8>, delims: set<u8>)
    requires Free(s, delims) && (more != [] ==> more[0] in delims)
    ensures Scan(s + more, delims) == |s|
  {
    if s == [] {
      assert s + more == more;
    } else {
      assert s[0] in s && (s + more)[1..] == s[1..] + more;
      ScanTo(s[1..], more, delims);
    }
  }

  lemma {:induction false} SkipOver(s: seq<u8>, more: seq<u8>, delims: set<u8>)
    requires (forall c <- s :: c in delims) && (more != [] ==> more[0] !in delims)
    ensures Skip(s + more, delims) == |s|
  {
    if s == [] {
      assert s + more == more;
    } else {
      assert s[0] in s && (s + more)[1..] == s[1..] + more;
      SkipOver(s[1..], more, delims);
    }
  }

  /** Delimiters, a token, and either the end or another delimiter. */
  lemma TokenAt(front: seq<u8>, token: seq<u8>, back: seq<u8>, delims: set<u8>)
    requires (forall c <- front :: c in delims) && token != [] && Free(token, delims)
    requires back != [] ==> back[0] in delims
    ensures NextToken(front + token + back, delims)
            == Token(token, front + token, if back == [] then [] else back[1..])
  {
    var s := front + token + back;
    assert s == front + (token + back);
    assert token[0] in token && (token + back)[0] == token[0];
    SkipOver(front, token + back, delims);
    assert s[|front|..] == token + back;
    ScanTo(token, back, delims);
    var b := |front| + |token|;
    assert s[|front|..b] == token && s[..b] == front + token;
    assert back != [] ==> s[b + 1..] == back[1..];
  }

  // -------------------------------------------------------------------------
  // strcasecmp
  // -------------------------------------------------------------------------

  function ToLower(c: u8): u8 {
    if 'A' as int <= c <= 'Z' as int then c + 0x20 else c
  }

  predicate EqualIgnoringCase(s: seq<u8>, t: seq<u8>) {
    |s| == |t| && forall i :: 0 <= i < |s| ==> ToLower(s[i]) == ToLower(t[i])
  }

  /** Characters are taken for equal exactly if they are, or if they are the small and the
      capital form of a letter. */
  lemma CaseIsIgnored(s: seq<u8>, t: seq<u8>)
    requires |s| == |t|
    ensures EqualIgnoringCase(s, t)
            <==> forall i :: 0 <= i < |s| ==>
                   s[i] == t[i] || (0x41 <= s[i] <= 0x5A && t[i] == s[i] + 0x20)
                   || (0x41 <= t[i] <= 0x5A && s[i] == t[i] + 0x20)
  {
  }

  // -------------------------------------------------------------------------
  // strtoul
  // -------------------------------------------------------------------------

  function DigitOf(c: u8): (d: nat)
    ensures d <= 36
  {
    if '0' as int <= c <= '9' as int then c - '0' as int
    else if 'a' as int <= ToLower(c) <= 'z' as int then ToLower(c) - 'a' as int + 10
    else 36
  }

  predicate AllDigits(s: seq<u8>, radix: nat) {
    forall c <- s :: DigitOf(c) < radix
  }

  /** The number of leading digits. */
  function DigitCount(s: seq<u8>, radix: nat): (n: nat)
    ensures n <= |s| && AllDigits(s[..n], radix)
    ensures n < |s| ==> DigitOf(s[n]) >= radix
  {
    if s == [] || DigitOf(s[0]) >= radix then 0
    else
      var n := 1 + DigitCount(s[1..], radix);
      assert s[..n] == [s[0]] + s[1..][..n - 1];
      n
  }

  function ValueOf(s: seq<u8>, radix: nat): nat {
    if s == [] then 0 else ValueOf(s[..|s| - 1], radix) * radix + DigitOf(s[|s| - 1])
  }

  predicate IsSpace(c: u8) {
    c == SPACE || TAB <= c <= CR
  }

  function Spaces(s: seq<u8>): (n: nat)
    ensures n <= |s|
  {
    if s == [] || !IsSpace(s[0]) then 0 else 1 + Spaces(s[1..])
  }

  /** Where the digits begin: behind white space, a sign, and 0x at radix 16. */
  function DigitsFrom(s: seq<u8>, radix: nat): (n: nat)
    ensures n <= |s|
  {
    var a := Spaces(s);
    var b := if a < |s| && (s[a] == '+' as int || s[a] == '-' as int) then a + 1 else a;
    if radix == 16 && b + 2 < |s| && s[b] == '0' as int && ToLower(s[b + 1]) == 'x' as int && DigitOf(s[b + 2]) < 16
    then b + 2 else b
  }

  predicate Negated(s: seq<u8>) {
    Spaces(s) < |s| && s[Spaces(s)] == '-' as int
  }

  /** The value and the end of the number; the end is 0 if there are no digits. */
  datatype Number = Number(value: nat, end: nat)

  function Strtoul(s: seq<u8>, radix: nat, ulongMax: nat): (r: Number)
    ensures r.value <= ulongMax && r.end <= |s|
  {
    var a := DigitsFrom(s, radix);
    var n := DigitCount(s[a..], radix);
    var v := ValueOf(s[a..][..n], radix);
    if n == 0 then Number(0, 0)
    else if v > ulongMax then Number(ulongMax, a + n)
    else if Negated(s) then Number((ulongMax + 1 - v) % (ulongMax + 1), a + n)
    else Number(v, a + n)
  }

  lemma {:induction false} AllCounted(s: seq<u8>, radix: nat)
    requires AllDigits(s, radix)
    ensures DigitCount(s, radix) == |s|
  {
    if s != [] {
      assert s[0] in s;
      AllCounted(s[1..], radix);
    }
  }

  /** A string of digits is taken as a whole, with its value if that fits. */
  lemma DigitsRead(s: seq<u8>, radix: nat, ulongMax: nat)
    requires s != [] && AllDigits(s, radix) && radix <= 16
    ensures Strtoul(s, radix, ulongMax)
            == Number(if ValueOf(s, radix) <= ulongMax then ValueOf(s, radix) else ulongMax, |s|)
  {
    assert s[0] in s && DigitOf(s[0]) < radix;
    assert Spaces(s) == 0;
    assert DigitsFrom(s, radix) == 0 by {
      if 2 < |s| { assert s[1] in s; }
    }
    AllCounted(s, radix);
    assert s[0..] == s && s[..|s|] == s;
  }

  /** The digits, at radix 10 and 16. */
  lemma DigitsAre(c: u8)
    ensures DigitOf(c) < 10 <==> 0x30 <= c <= 0x39
    ensures DigitOf(c) < 16 <==> 0x30 <= c <= 0x39 || 0x41 <= c <= 0x46 || 0x61 <= c <= 0x66
    ensures DigitOf(c) < 16 ==> c == DigitOf(c) + (if DigitOf(c) < 10 then 0x30 else if c < 0x60 then 0x37 else 0x57)
  {
  }

  /** A number as strtoul takes it: white space, a sign, 0x at radix 16, and digits. */
  datatype Numeral = Numeral(spaces: seq<u8>, sign: seq<u8>, prefix: seq<u8>, digits: seq<u8>)

  function TextOf(x: Numeral): seq<u8> {
    x.spaces + (x.sign + (x.prefix + x.digits))
  }

  predicate IsNumeral(x: Numeral, radix: nat) {
    && (forall c <- x.spaces :: c == 0x20 || 0x09 <= c <= 0x0D)
    && IsSign(x.sign)
    && (x.prefix == [] || (radix == 16 && x.prefix in {[0x30, 0x78], [0x30, 0x58]}))
    && x.digits != [] && AllDigits(x.digits, radix)
  }

  /** What follows a number: it does not go on, and 0 is not the front of 0x and a digit. */
  predicate Behind(x: Numeral, rest: seq<u8>, radix: nat) {
    && (rest != [] ==> DigitOf(rest[0]) >= radix)
    && !(radix == 16 && x.prefix == [] && x.digits == [0x30] && |rest| >= 2 && rest[0] in {0x78, 0x58}
         && DigitOf(rest[1]) < 16)
  }

  lemma {:induction false} SpacesCounted(spaces: seq<u8>, more: seq<u8>)
    requires (forall c <- spaces :: c == 0x20 || 0x09 <= c <= 0x0D) && (more != [] ==> !IsSpace(more[0]))
    ensures Spaces(spaces + more) == |spaces|
  {
    if spaces == [] {
      assert spaces + more == more;
    } else {
      assert (spaces + more)[1..] == spaces[1..] + more;
      assert spaces[0] in spaces && forall c <- spaces[1..] :: c in spaces;
      SpacesCounted(spaces[1..], more);
    }
  }

  lemma {:induction false} DigitsCounted(digits: seq<u8>, rest: seq<u8>, radix: nat)
    requires AllDigits(digits, radix) && (rest != [] ==> DigitOf(rest[0]) >= radix)
    ensures DigitCount(digits + rest, radix) == |digits|
  {
    if digits == [] {
      assert digits + rest == rest;
    } else {
      assert (digits + rest)[1..] == digits[1..] + rest;
      assert digits[0] in digits && forall c <- digits[1..] :: c in digits;
      DigitsCounted(digits[1..], rest, radix);
    }
  }

  /** Behind the white space and the sign: the prefix is skipped, and nothing else. */
  lemma PrefixFound(x: Numeral, rest: seq<u8>, radix: nat)
    requires (radix == 10 || radix == 16) && IsNumeral(x, radix) && Behind(x, rest, radix)
    ensures var t := x.prefix + x.digits + rest;
            && t != [] && DigitOf(t[0]) < radix
            && (x.prefix != [] <==> HexPrefix(t, radix))
  {
    var t := x.prefix + x.digits + rest;
    assert x.digits[0] in x.digits;
    if x.prefix == [] {
      assert t == x.digits + rest;
      if |x.digits| > 1 {
        assert t[1] == x.digits[1] && x.digits[1] in x.digits;
      }
    } else {
      assert t[0] == x.prefix[0] && t[1] == x.prefix[1] && t[2] == x.digits[0];
    }
  }

  predicate IsSign(s: seq<u8>) {
    s == [] || s == ['+' as int] || s == ['-' as int]
  }

  predicate HexPrefix(t: seq<u8>, radix: nat) {
    radix == 16 && 2 < |t| && t[0] == '0' as int && ToLower(t[1]) == 'x' as int && DigitOf(t[2]) < 16
  }

  lemma BehindSign(s: seq<u8>, sign: seq<u8>, t: seq<u8>, radix: nat)
    requires IsSign(sign) && t != [] && DigitOf(t[0]) < radix <= 16
    requires s[Spaces(s)..] == sign + t
    ensures var b := Spaces(s) + |sign|;
            && DigitsFrom(s, radix) == b + (if HexPrefix(t, radix) then 2 else 0)
            && (Negated(s) <==> sign == ['-' as int])
  {
    var a, b := Spaces(s), Spaces(s) + |sign|;
    hide Spaces;
    assert |s| == b + |t| && s[a] == s[a..][0];
    forall i | 0 <= i < |t|
      ensures s[b + i] == t[i]
    {
      assert s[b + i] == s[a..][|sign| + i];
    }
    assert sign != [] ==> s[a] == sign[0];
    assert sign == [] ==> s[a] == t[0];
  }

  /** Where its digits begin. */
  lemma NumeralFrom(x: Numeral, rest: seq<u8>, radix: nat)
    requires (radix == 10 || radix == 16) && IsNumeral(x, radix) && Behind(x, rest, radix)
    ensures var s := TextOf(x) + rest;
            && DigitsFrom(s, radix) == |x.spaces| + |x.sign| + |x.prefix|
            && s[DigitsFrom(s, radix)..] == x.digits + rest
            && (Negated(s) <==> x.sign == ['-' as int])
  {
    var t := x.prefix + x.digits + rest;
    PrefixFound(x, rest, radix);
    assert |x.prefix| == if HexPrefix(t, radix) then 2 else 0;
    assert IsSign(x.sign) && DigitOf((x.sign + t)[0]) <= 36 && !IsSpace((x.sign + t)[0]);
    SpacesCounted(x.spaces, x.sign + t);
    hide IsNumeral, Behind, Spaces, DigitsFrom, Negated, HexPrefix, IsSign;
    TextParts(x, rest);
    BehindSign(TextOf(x) + rest, x.sign, t, radix);
  }

  lemma TextParts(x: Numeral, rest: seq<u8>)
    ensures var s, t := TextOf(x) + rest, x.prefix + x.digits + rest;
            && s == x.spaces + (x.sign + t) && s[|x.spaces|..] == x.sign + t
            && s[|x.spaces| + |x.sign| + |x.prefix|..] == x.digits + rest
  {
    var s := TextOf(x) + rest;
    assert s == x.spaces + x.sign + x.prefix + (x.digits + rest);
  }

  /** It is taken as a whole.  A value that does not fit is ULONG_MAX; with a minus it is
      negated modulo ULONG_MAX + 1. */
  lemma NumeralRead(x: Numeral, rest: seq<u8>, radix: nat, ulongMax: nat)
    requires (radix == 10 || radix == 16) && IsNumeral(x, radix) && Behind(x, rest, radix)
    ensures var v := ValueOf(x.digits, radix);
            Strtoul(TextOf(x) + rest, radix, ulongMax)
            == Number(if v > ulongMax then ulongMax
                      else if x.sign == ['-' as int] && v > 0 then ulongMax + 1 - v else v, |TextOf(x)|)
  {
    var s, n := TextOf(x) + rest, |x.digits|;
    NumeralFrom(x, rest, radix);
    DigitsCounted(x.digits, rest, radix);
    hide DigitsFrom, DigitCount, Negated, ValueOf, IsNumeral, Behind, Strtoul;
    assert n > 0 && (x.digits + rest)[..n] == x.digits;
    assert |TextOf(x)| == DigitsFrom(s, radix) + n;
    StrtoulFrom(s, n, x.digits, radix, ulongMax);
  }

  lemma StrtoulFrom(s: seq<u8>, n: nat, digits: seq<u8>, radix: nat, ulongMax: nat)
    requires var t := s[DigitsFrom(s, radix)..];
             DigitCount(t, radix) == n && 0 < n <= |t| && t[..n] == digits
    ensures var v := ValueOf(digits, radix);
            Strtoul(s, radix, ulongMax)
            == Number(if v > ulongMax then ulongMax else if Negated(s) && v > 0 then ulongMax + 1 - v else v,
                      DigitsFrom(s, radix) + n)
  {
    hide DigitsFrom, DigitCount, Negated, ValueOf;
    Negative(ValueOf(digits, radix), ulongMax);
  }

  lemma Negative(v: nat, ulongMax: nat)
    ensures v <= ulongMax ==> (ulongMax + 1 - v) % (ulongMax + 1) == if v > 0 then ulongMax + 1 - v else 0
  {
  }

  /** Without a digit behind white space and sign, nothing is taken. */
  lemma NoNumeralRead(spaces: seq<u8>, sign: seq<u8>, rest: seq<u8>, radix: nat, ulongMax: nat)
    requires (forall c <- spaces :: c == 0x20 || 0x09 <= c <= 0x0D) && IsSign(sign) && 0 < radix <= 16
    requires rest != [] ==> DigitOf(rest[0]) >= radix
    requires rest != [] && sign == [] ==> !IsSpace(rest[0]) && rest[0] != '+' as int && rest[0] != '-' as int
    ensures Strtoul(spaces + (sign + rest), radix, ulongMax) == Number(0, 0)
  {
    var s := spaces + (sign + rest);
    SpacesCounted(spaces, sign + rest);
    assert s[|spaces|..] == sign + rest;
    NothingBehindSign(s, sign, rest, radix);
    assert DigitCount(s[DigitsFrom(s, radix)..], radix) == 0;
    hide DigitsFrom, DigitCount, Negated, ValueOf, Spaces;
  }

  lemma NothingBehindSign(s: seq<u8>, sign: seq<u8>, t: seq<u8>, radix: nat)
    requires IsSign(sign) && (t != [] ==> DigitOf(t[0]) >= radix) && 0 < radix <= 16
    requires t != [] && sign == [] ==> t[0] != '+' as int && t[0] != '-' as int
    requires s[Spaces(s)..] == sign + t
    ensures s[DigitsFrom(s, radix)..] == t
  {
    var a, b := Spaces(s), Spaces(s) + |sign|;
    hide Spaces;
    assert |s| == b + |t| && (a < |s| ==> s[a] == s[a..][0]);
    assert sign != [] ==> s[a] == sign[0];
    assert sign == [] && t != [] ==> s[a] == t[0];
    assert t != [] ==> s[b] == s[a..][|sign|];
    assert s[b..] == s[a..][|sign|..];
  }
}
