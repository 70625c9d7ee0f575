/** Which first lines of a response end the request with success, and which make it
    pass a null token to strtoul: for every line. */
module HttpFirstLines {
  import opened Bytes
  import opened CText
  import opened HttpDecoder
  import opened HttpResponses

  // -------------------------------------------------------------------------
  // Tokens as parts of a string
  // -------------------------------------------------------------------------

  /** Delimiters, a token without any, and the end or another delimiter. */
  predicate TokenIn(s: seq<u8>, delims: set<u8>, front: seq<u8>, token: seq<u8>, back: seq<u8>) {
    && s == front + token + back
    && (forall c <- front :: c in delims) && token != [] && Free(token, delims)
    && (back != [] ==> back[0] in delims)
  }

  /** What the next call of strtok_r goes on with. */
  function Behind(back: seq<u8>): seq<u8> {
    if back == [] then [] else back[1..]
  }

  lemma {:induction false} SkipShape(s: seq<u8>, delims: set<u8>)
    ensures forall c <- s[..Skip(s, delims)] :: c in delims
    ensures Skip(s, delims) < |s| ==> s[Skip(s, delims)] !in delims
  {
    if s != [] && s[0] in delims {
      SkipShape(s[1..], delims);
      assert s[..Skip(s, delims)] == [s[0]] + s[1..][..Skip(s[1..], delims)];
    }
  }

  lemma {:induction false} ScanShape(s: seq<u8>, delims: set<u8>)
    ensures Free(s[..Scan(s, delims)], delims)
    ensures Scan(s, delims) < |s| ==> s[Scan(s, delims)] in delims
  {
    if s != [] && s[0] !in delims {
      ScanShape(s[1..], delims);
      assert s[..Scan(s, delims)] == [s[0]] + s[1..][..Scan(s[1..], delims)];
    }
  }

  /** The token found is a token of the string. */
  lemma TokenFound(s: seq<u8>, delims: set<u8>) returns (front: seq<u8>, back: seq<u8>)
    requires NextToken(s, delims).Token?
    ensures TokenIn(s, delims, front, NextToken(s, delims).token, back)
    ensures NextToken(s, delims).rest == Behind(back)
  {
    var a := Skip(s, delims);
    var n := Scan(s[a..], delims);
    SkipShape(s, delims);
    ScanShape(s[a..], delims);
    front, back := s[..a], s[a + n..];
    assert s[a..][..n] == s[a..a + n] && s[a..][0] == s[a];
    assert s == front + s[a..a + n] + back;
  }

  lemma TokenIsFound(s: seq<u8>, delims: set<u8>, front: seq<u8>, token: seq<u8>, back: seq<u8>)
    requires TokenIn(s, delims, front, token, back)
    ensures NextToken(s, delims) == Token(token, front + token, Behind(back))
  {
    TokenAt(front, token, back, delims);
  }

  /** There is none exactly in a string of delimiters. */
  lemma NoTokenIff(s: seq<u8>, delims: set<u8>)
    ensures NextToken(s, delims).NoToken? <==> forall c <- s :: c in delims
  {
    SkipShape(s, delims);
    var a := Skip(s, delims);
    if a == |s| {
      assert s[..a] == s;
    } else {
      assert s[a] in s;
    }
  }

  // -------------------------------------------------------------------------
  // Success without content
  // -------------------------------------------------------------------------

  /** White space, an optional sign, and digits. */
  predicate NumberText(t: seq<u8>, space: seq<u8>, sign: seq<u8>, digits: seq<u8>) {
    && t == space + sign + digits
    && (forall c <- space :: IsSpace(c)) && sign in {[], ['+' as int], ['-' as int]}
    && digits != [] && AllDigits(digits, 10)
  }

  /** The value with its sign, on an unsigned long; too large a value is clamped. */
  function Signed(negative: bool, value: nat, ulongMax: nat): nat {
    if value > ulongMax then ulongMax
    else if negative then (ulongMax + 1 - value) % (ulongMax + 1)
    else value
  }

  /** A number that is 200 on 32 bits. */
  ghost predicate Denotes200(t: seq<u8>, ulongMax: nat) {
    exists space, sign, digits :: NumberText(t, space, sign, digits) &&
      Signed(sign == ['-' as int], ValueOf(digits, 10), ulongMax) % 0x1_0000_0000 == OK
  }

  lemma {:induction false} SpacesBefore(space: seq<u8>, more: seq<u8>)
    requires (forall c <- space :: IsSpace(c)) && (more != [] ==> !IsSpace(more[0]))
    ensures Spaces(space + more) == |space|
  {
    if space == [] {
      assert space + more == more;
    } else {
      assert (space + more)[1..] == space[1..] + more;
      SpacesBefore(space[1..], more);
    }
  }

  lemma {:induction false} SpacesShape(s: seq<u8>)
    ensures forall c <- s[..Spaces(s)] :: IsSpace(c)
  {
    if s != [] && IsSpace(s[0]) {
      SpacesShape(s[1..]);
      assert s[..Spaces(s)] == [s[0]] + s[1..][..Spaces(s[1..])];
    }
  }

  lemma NumberStarts(t: seq<u8>, space: seq<u8>, sign: seq<u8>, digits: seq<u8>)
    requires NumberText(t, space, sign, digits)
    ensures DigitsFrom(t, 10) == |space| + |sign| && (Negated(t) <==> sign == ['-' as int])
  {
    assert digits[0] in digits && DigitOf(digits[0]) < 10;
    var more := sign + digits;
    assert t == space + more && more[0] == if sign == [] then digits[0] else sign[0];
    SpacesBefore(space, more);
    assert t[|space|] == more[0];
  }

  /** The value of a number with space and sign in front. */
  lemma NumberRead(t: seq<u8>, space: seq<u8>, sign: seq<u8>, digits: seq<u8>, ulongMax: nat)
    requires NumberText(t, space, sign, digits)
    ensures Strtoul(t, 10, ulongMax) == Number(Signed(sign == ['-' as int], ValueOf(digits, 10), ulongMax), |t|)
  {
    NumberStarts(t, space, sign, digits);
    assert t[|space| + |sign|..] == digits;
    AllCounted(digits, 10);
    assert digits[..|digits|] == digits;
  }

  /** A token of which strtoul takes everything is such a number. */
  lemma NumberParts(t: seq<u8>, ulongMax: nat) returns (space: seq<u8>, sign: seq<u8>, digits: seq<u8>)
    requires t != [] && Strtoul(t, 10, ulongMax).end == |t|
    ensures NumberText(t, space, sign, digits)
  {
    var a, b := Spaces(t), DigitsFrom(t, 10);
    SpacesShape(t);
    space, sign, digits := t[..a], t[a..b], t[b..];
    assert digits[..|digits|] == digits;
    assert t == space + sign + digits;
    assert b == a + 1 ==> sign == [t[a]];
  }

  lemma StatusIs200Iff(t: seq<u8>, ulongMax: nat)
    requires t != []
    ensures StatusOf(t, ulongMax) == OK <==> Denotes200(t, ulongMax)
  {
    if Strtoul(t, 10, ulongMax).end == |t| {
      var space, sign, digits := NumberParts(t, ulongMax);
      NumberRead(t, space, sign, digits, ulongMax);
    }
    if space, sign, digits :| NumberText(t, space, sign, digits) &&
                              Signed(sign == ['-' as int], ValueOf(digits, 10), ulongMax) % 0x1_0000_0000 == OK {
      NumberRead(t, space, sign, digits, ulongMax);
    }
  }

  // -------------------------------------------------------------------------
  // The shape of a first line
  // -------------------------------------------------------------------------

  predicate BySlash(s: seq<u8>, front: seq<u8>, token: seq<u8>, back: seq<u8>) {
    TokenIn(s, {'/' as int}, front, token, back)
  }

  predicate BySpace(s: seq<u8>, front: seq<u8>, token: seq<u8>, back: seq<u8>) {
    TokenIn(s, {SPACE}, front, token, back)
  }

  /** What is in front of the first slash, leading ones aside. */
  ghost predicate Protocol(s: seq<u8>, t: seq<u8>, rest: seq<u8>) {
    exists front, back :: BySlash(s, front, t, back) && rest == Behind(back)
  }

  ghost predicate FirstWord(s: seq<u8>, t: seq<u8>, rest: seq<u8>) {
    exists front, back :: BySpace(s, front, t, back) && rest == Behind(back)
  }

  ghost predicate SecondWord(s: seq<u8>, t: seq<u8>) {
    exists first, rest, rest2 :: FirstWord(s, first, rest) && FirstWord(rest, t, rest2)
  }

  /** `t` decides about a refused line: the protocol if it is not HTTP, else the
      second word behind it if it is not 200. */
  ghost predicate Deciding(s: seq<u8>, t: seq<u8>) {
    || (t != HTTP && exists rest :: Protocol(s, t, rest))
    || (t != Codes("200") && exists rest :: Protocol(s, HTTP, rest) && SecondWord(rest, t))
  }

  lemma ProtocolIff(s: seq<u8>, t: seq<u8>, rest: seq<u8>)
    ensures Protocol(s, t, rest) <==>
              var x := NextToken(s, {'/' as int}); x.Token? && x.token == t && x.rest == rest
  {
    if NextToken(s, {'/' as int}).Token? {
      var front, back := TokenFound(s, {'/' as int});
      assert BySlash(s, front, NextToken(s, {'/' as int}).token, back);
    }
    if front, back :| BySlash(s, front, t, back) && rest == Behind(back) {
      TokenIsFound(s, {'/' as int}, front, t, back);
    }
  }

  lemma FirstWordIff(s: seq<u8>, t: seq<u8>, rest: seq<u8>)
    ensures FirstWord(s, t, rest) <==> var x := NextToken(s, {SPACE}); x.Token? && x.token == t && x.rest == rest
  {
    if NextToken(s, {SPACE}).Token? {
      var front, back := TokenFound(s, {SPACE});
      assert BySpace(s, front, NextToken(s, {SPACE}).token, back);
    }
    if front, back :| BySpace(s, front, t, back) && rest == Behind(back) {
      TokenIsFound(s, {SPACE}, front, t, back);
    }
  }

  lemma SecondWordIff(s: seq<u8>, t: seq<u8>)
    ensures SecondWord(s, t) <==> var x := NextToken(s, {SPACE});
                                  x.Token? && var y := NextToken(x.rest, {SPACE}); y.Token? && y.token == t
  {
    var x := NextToken(s, {SPACE});
    if x.Token? {
      FirstWordIff(s, x.token, x.rest);
      var y := NextToken(x.rest, {SPACE});
      if y.Token? {
        FirstWordIff(x.rest, y.token, y.rest);
      }
    }
    if first, rest, rest2 :| FirstWord(s, first, rest) && FirstWord(rest, t, rest2) {
      FirstWordIff(s, first, rest);
      FirstWordIff(rest, t, rest2);
    }
  }

  lemma DecidedByProtocol(s: seq<u8>, t: seq<u8>, rest: seq<u8>, ulongMax: nat)
    requires Protocol(s, t, rest) && t != HTTP
    ensures t != [] && CheckStatus(s, ulongMax) == Refused(Returned(StatusOf(t, ulongMax)))
  {
    ProtocolIff(s, t, rest);
    var front, back := TokenFound(s, {'/' as int});
  }

  lemma DecidedByCode(s: seq<u8>, t: seq<u8>, rest: seq<u8>, ulongMax: nat)
    requires Protocol(s, HTTP, rest) && SecondWord(rest, t) && t != Codes("200")
    ensures t != [] && CheckStatus(s, ulongMax) == Refused(Returned(StatusOf(t, ulongMax)))
  {
    ProtocolIff(s, HTTP, rest);
    SecondWordIff(rest, t);
    var front, back := TokenFound(NextToken(rest, {SPACE}).rest, {SPACE});
  }

  /** A line with a deciding token is refused with the status of it. */
  lemma Decided(s: seq<u8>, t: seq<u8>, ulongMax: nat)
    requires Deciding(s, t)
    ensures t != [] && CheckStatus(s, ulongMax) == Refused(Returned(StatusOf(t, ulongMax)))
  {
    if t != HTTP && exists rest :: Protocol(s, t, rest) {
      var rest :| Protocol(s, t, rest);
      DecidedByProtocol(s, t, rest, ulongMax);
    } else {
      var rest :| Protocol(s, HTTP, rest) && SecondWord(rest, t);
      DecidedByCode(s, t, rest, ulongMax);
    }
  }

  /** And others are not refused with a status. */
  lemma Decides(s: seq<u8>, ulongMax: nat) returns (t: seq<u8>)
    requires var check := CheckStatus(s, ulongMax); check.Refused? && check.ending.Returned?
    ensures Deciding(s, t)
  {
    var x := NextToken(s, {'/' as int});
    ProtocolIff(s, x.token, x.rest);
    t := x.token;
    if t == HTTP {
      var y := NextToken(x.rest, {SPACE});
      t := NextToken(y.rest, {SPACE}).token;
      SecondWordIff(x.rest, t);
    }
  }

  /** A refused response is reported as success exactly if the deciding token of its
      first line is a number with the value 200 on 32 bits. */
  lemma RefusedWith200Iff(s: seq<u8>, ulongMax: nat)
    ensures CheckStatus(s, ulongMax) == Refused(Returned(OK)) <==> exists t :: Deciding(s, t) && Denotes200(t, ulongMax)
  {
    if CheckStatus(s, ulongMax) == Refused(Returned(OK)) {
      var t := Decides(s, ulongMax);
      Decided(s, t, ulongMax);
      StatusIs200Iff(t, ulongMax);
    }
    if t :| Deciding(s, t) && Denotes200(t, ulongMax) {
      Decided(s, t, ulongMax);
      StatusIs200Iff(t, ulongMax);
    }
  }

  lemma Is200(t: seq<u8>, sign: seq<u8>, ulongMax: nat)
    requires t == sign + Codes("200") && sign in {[], ['+' as int]} && ulongMax >= 200
    ensures t != [] && StatusOf(t, ulongMax) == OK
  {
    ValueOf200();
    assert t == [] + sign + Codes("200");
    NumberRead(t, [], sign, Codes("200"), ulongMax);
    assert sign != ['-' as int] by { assert sign != [] ==> sign[0] == '+' as int; }
    SmallModulo(200);
  }

  /** With a sign: "HTTP/1.1 +200 OK". */
  lemma SignedCodeRefused(version: seq<u8>, tail: seq<u8>, ulongMax: nat)
    requires Word(version) && Apart(tail) && ulongMax >= 200
    ensures CheckStatus(StatusText(version, Codes("+200"), tail), ulongMax) == Refused(Returned(OK))
  {
    var code := Codes("+200");
    SignedCode(code);
    StatusLines(version, code, tail, ulongMax);
    Is200(code, ['+' as int], ulongMax);
  }

  lemma SignedCode(code: seq<u8>)
    requires code == Codes("+200")
    ensures code == ['+' as int] + Codes("200") && Word(code) && code != Codes("200")
  {
    assert code == [0x2B, 0x32, 0x30, 0x30] && Codes("200") == [0x32, 0x30, 0x30];
  }

  lemma ValueOf200()
    ensures ValueOf(Codes("200"), 10) == 200 && AllDigits(Codes("200"), 10)
  {
    var s := Codes("200");
    assert s == [] + [0x32] + [0x30] + [0x30];
    ValueSnoc([], 0x32, 10);
    ValueSnoc([] + [0x32], 0x30, 10);
    ValueSnoc([] + [0x32] + [0x30], 0x30, 10);
  }

  lemma ValueSnoc(s: seq<u8>, c: u8, radix: nat)
    ensures ValueOf(s + [c], radix) == ValueOf(s, radix) * radix + DigitOf(c)
  {
    assert (s + [c])[..|s|] == s;
  }

  /** A decimal code is returned as it is, if it fits. */
  lemma CodeReturned(code: seq<u8>, ulongMax: nat)
    requires code != [] && AllDigits(code, 10) && ValueOf(code, 10) <= ulongMax && ValueOf(code, 10) < 0x1_0000_0000
    ensures StatusOf(code, ulongMax) == ValueOf(code, 10)
  {
    DigitsRead(code, 10, ulongMax);
    SmallModulo(ValueOf(code, 10));
  }

  lemma SmallModulo(n: nat)
    requires n < 0x1_0000_0000
    ensures n % 0x1_0000_0000 == n
  {
  }

  /** So of the status lines with a decimal code that fits, those with another form of
      200 are reported as success without content. */
  lemma DecimalCodeIff(version: seq<u8>, code: seq<u8>, tail: seq<u8>, ulongMax: nat)
    requires Word(version) && Word(code) && Apart(tail)
    requires AllDigits(code, 10) && ValueOf(code, 10) <= ulongMax && ValueOf(code, 10) < 0x1_0000_0000
    ensures CheckStatus(StatusText(version, code, tail), ulongMax) == Refused(Returned(OK))
            <==> ValueOf(code, 10) == 200 && code != Codes("200")
  {
    StatusLines(version, code, tail, ulongMax);
    CodeReturned(code, ulongMax);
  }

  /** With a zero in front: "HTTP/1.1 0200 OK". */
  lemma PaddedCodeRefused(version: seq<u8>, tail: seq<u8>, ulongMax: nat)
    requires Word(version) && Apart(tail) && ulongMax >= 200
    ensures CheckStatus(StatusText(version, Codes("0200"), tail), ulongMax) == Refused(Returned(OK))
  {
    PaddedCode();
    DecimalCodeIff(version, Codes("0200"), tail, ulongMax);
  }

  lemma PaddedCode()
    ensures var code := Codes("0200");
            Word(code) && AllDigits(code, 10) && ValueOf(code, 10) == 200 && code != Codes("200")
  {
    var s := Codes("0200");
    assert s == [] + [0x30] + [0x32] + [0x30] + [0x30];
    ValueSnoc([], 0x30, 10);
    ValueSnoc([] + [0x30], 0x32, 10);
    ValueSnoc([] + [0x30] + [0x32], 0x30, 10);
    ValueSnoc([] + [0x30] + [0x32] + [0x30], 0x30, 10);
  }

  /** Without HTTP: a first line that is just "200". */
  lemma BareCodeRefused(ulongMax: nat)
    requires ulongMax >= 200
    ensures CheckStatus(Codes("200"), ulongMax) == Refused(Returned(OK))
  {
    var s := Codes("200");
    assert s == [0x32, 0x30, 0x30] && HTTP[0] == 0x48 && [] + s == s;
    OneToken(s, ulongMax);
    Is200(s, [], ulongMax);
  }

  /** A line without a slash is one token, and decided by it. */
  lemma OneToken(s: seq<u8>, ulongMax: nat)
    requires s != [] && Free(s, {'/' as int}) && s != HTTP
    ensures CheckStatus(s, ulongMax) == Refused(Returned(StatusOf(s, ulongMax)))
  {
    assert [] + s + [] == s;
    TokenAt([], s, [], {'/' as int});
  }

  lemma FooRefused(ulongMax: nat)
    ensures CheckStatus(Codes("FOO"), ulongMax) == Refused(Returned(INVALID_RESPONSE_CODE))
  {
    var s := Codes("FOO");
    assert s == [0x46, 0x4F, 0x4F];
    OneToken(s, ulongMax);
  }

  // -------------------------------------------------------------------------
  // A null token
  // -------------------------------------------------------------------------

  /** The number of words, which are separated by spaces. */
  function WordCount(s: seq<u8>): nat {
    WordStarts(s, false)
  }

  function WordStarts(s: seq<u8>, inWord: bool): nat {
    if s == [] then 0
    else if s[0] == SPACE then WordStarts(s[1..], false)
    else (if inWord then 0 else 1) + WordStarts(s[1..], true)
  }

  lemma {:induction false} SpacesHoldNoWord(front: seq<u8>, more: seq<u8>)
    requires forall c <- front :: c == SPACE
    ensures WordCount(front + more) == WordCount(more)
  {
    if front == [] {
      assert front + more == more;
    } else {
      assert front[0] in front && forall c <- front[1..] :: c in front;
      assert (front + more)[1..] == front[1..] + more;
      SpacesHoldNoWord(front[1..], more);
    }
  }

  lemma {:induction false} WordHoldsNoStart(token: seq<u8>, back: seq<u8>)
    requires Free(token, {SPACE}) && (back != [] ==> back[0] == SPACE)
    ensures WordStarts(token + back, true) == WordCount(Behind(back))
  {
    if token == [] {
      assert token + back == back;
    } else {
      assert token[0] in token && (token + back)[1..] == token[1..] + back;
      WordHoldsNoStart(token[1..], back);
    }
  }

  lemma OneWord(token: seq<u8>, back: seq<u8>)
    requires token != [] && Free(token, {SPACE}) && (back != [] ==> back[0] == SPACE)
    ensures WordCount(token + back) == 1 + WordCount(Behind(back))
  {
    assert token[0] in token && (token + back)[1..] == token[1..] + back;
    WordHoldsNoStart(token[1..], back);
  }

  lemma WordsByToken(s: seq<u8>)
    ensures var x := NextToken(s, {SPACE}); WordCount(s) == if x.Token? then 1 + WordCount(x.rest) else 0
  {
    var x := NextToken(s, {SPACE});
    if x.Token? {
      var front, back := TokenFound(s, {SPACE});
      assert s == front + (x.token + back);
      SpacesHoldNoWord(front, x.token + back);
      OneWord(x.token, back);
    } else {
      NoTokenIff(s, {SPACE});
      SpacesHoldNoWord(s, []);
      assert s + [] == s;
    }
  }

  /** A null token is passed to strtoul exactly if the line is slashes only, or its
      protocol is HTTP and fewer than two words follow. */
  lemma RefusedForNullIff(s: seq<u8>, ulongMax: nat)
    ensures CheckStatus(s, ulongMax) == Refused(NullToken)
            <==> (forall c <- s :: c == '/' as int) || exists rest :: Protocol(s, HTTP, rest) && WordCount(rest) < 2
  {
    var x := NextToken(s, {'/' as int});
    NoTokenIff(s, {'/' as int});
    if x.Token? {
      ProtocolIff(s, x.token, x.rest);
      WordsByToken(x.rest);
      var y := NextToken(x.rest, {SPACE});
      if y.Token? {
        WordsByToken(y.rest);
      }
    }
    forall rest | Protocol(s, HTTP, rest)
      ensures x.Token? && x.token == HTTP && x.rest == rest
    {
      ProtocolIff(s, HTTP, rest);
    }
  }

  /** "HTTP/1.1" is such a line. */
  lemma VersionAloneRefused(ulongMax: nat)
    ensures CheckStatus(Codes("HTTP/1.1"), ulongMax) == Refused(NullToken)
  {
    var s, rest := Codes("HTTP/1.1"), Codes("1.1");
    VersionAlone(s, rest);
    assert BySlash(s, [], HTTP, ['/' as int] + rest) && Behind(['/' as int] + rest) == rest;
    assert Protocol(s, HTTP, rest);
    OneWord(rest, []);
    assert rest + [] == rest;
    RefusedForNullIff(s, ulongMax);
  }

  lemma VersionAlone(s: seq<u8>, rest: seq<u8>)
    requires s == Codes("HTTP/1.1") && rest == Codes("1.1")
    ensures s == [] + HTTP + (['/' as int] + rest) && Free(HTTP, {'/' as int}) && rest != [] && Free(rest, {SPACE})
  {
    assert HTTP == [0x48, 0x54, 0x54, 0x50] && rest == [0x31, 0x2E, 0x31];
  }
}
