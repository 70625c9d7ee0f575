/** The first line of a response as it is received, whatever bytes it is made of: when it
    is not checked at all, and what refusing it does to the whole response. */
module HttpReceivedLines {
  import opened Bytes
  import opened CText
  import opened HttpDecoder
  import opened HttpResponses
  import opened HttpFirstLines

  // -------------------------------------------------------------------------
  // The string in Line
  // -------------------------------------------------------------------------

  function WithoutCR(s: seq<u8>): seq<u8> {
    if s == [] then []
    else WithoutCR(s[..|s| - 1]) + if s[|s| - 1] == CR then [] else [s[|s| - 1]]
  }

  /** The string in front of the first NUL. */
  function UpToNul(s: seq<u8>): (r: seq<u8>)
    ensures |r| == |s| <==> NUL !in s
  {
    if s == [] || s[0] == NUL then [] else [s[0]] + UpToNul(s[1..])
  }

  /** The string that `Line` holds behind the characters `s` of the first line. */
  function LineString(s: seq<u8>): seq<u8> {
    UpToNul(Kept(WithoutCR(s)))
  }

  lemma {:induction false} UpToNulSnoc(s: seq<u8>, c: u8)
    ensures UpToNul(s + [c]) == if NUL in s || c == NUL then UpToNul(s) else UpToNul(s) + [c]
  {
    if s == [] {
      assert [] + [c] == [c] && UpToNul([c][1..]) == [];
    } else if s[0] != NUL {
      assert (s + [c])[1..] == s[1..] + [c];
      UpToNulSnoc(s[1..], c);
    }
  }

  lemma KeptSnoc(s: seq<u8>, c: u8)
    ensures Kept(s + [c]) == if |s| >= LINE_MAX then Kept(s) else Kept(s) + [c]
  {
  }

  /** In the first line, when the characters `u` of it were put into `Line`. */
  function Holding(u: seq<u8>): Progress {
    Going(Decoder(0, 0, |Kept(u)|, false, 0, UpToNul(Kept(u))), [])
  }

  /** In the first line, behind the characters `s` of it. */
  function InFirstLine(s: seq<u8>): Progress {
    Holding(WithoutCR(s))
  }

  lemma OneMorePut(u: seq<u8>, c: u8)
    ensures Going(PutChar(Holding(u).d, c), []) == Holding(u + [c])
  {
    KeptSnoc(u, c);
    UpToNulSnoc(Kept(u), c);
  }

  lemma WithoutCRSnoc(s: seq<u8>, c: u8)
    ensures WithoutCR(s + [c]) == if c == CR then WithoutCR(s) else WithoutCR(s) + [c]
  {
    assert (s + [c])[..|s|] == s;
    assert WithoutCR(s) + [] == WithoutCR(s);
  }

  lemma FirstLineStep(u: seq<u8>, c: u8, lim: Limits)
    requires c != LF
    ensures Step(Holding(u), c, lim) == if c == CR then Holding(u) else Going(PutChar(Holding(u).d, c), [])
  {
  }

  lemma {:induction false} FirstLineFed(s: seq<u8>, lim: Limits)
    requires LF !in s
    ensures Feed(START, s, lim) == InFirstLine(s)
  {
    if s != [] {
      var front, c := s[..|s| - 1], s[|s| - 1];
      assert c in s && forall x <- front :: x in s;
      FirstLineFed(front, lim);
      FirstLineStep(WithoutCR(front), c, lim);
      OneMorePut(WithoutCR(front), c);
      assert s == front + [c];
      WithoutCRSnoc(front, c);
    }
  }

  /** The end of a first line with characters. */
  lemma FirstLineEnds(s: seq<u8>, lim: Limits)
    requires LF !in s && WithoutCR(s) != []
    ensures Feed(START, s + [LF], lim)
            == StatusLineDone(InFirstLine(s).d, [], CheckStatus(LineString(s), lim.ulongMax))
  {
    FirstLineFed(s, lim);
    FeedConcat(START, s, [LF], lim);
    FeedOne(InFirstLine(s), LF, lim);
  }

  // -------------------------------------------------------------------------
  // No first line
  // -------------------------------------------------------------------------

  predicate OnlyCRs(s: seq<u8>) {
    forall c <- s :: c == CR
  }

  lemma {:induction false} OnlyCRsIff(s: seq<u8>)
    ensures OnlyCRs(s) <==> WithoutCR(s) == []
  {
    if s != [] {
      var n := |s| - 1;
      OnlyCRsIff(s[..n]);
      assert s == s[..n] + [s[n]];
      assert s[n] in s && forall c <- s[..n] :: c in s;
    }
  }

  /** Nothing but carriage returns stands in front of the first line feed. */
  ghost predicate EmptyFirstLine(s: seq<u8>) {
    exists n :: 0 <= n < |s| && s[n] == LF && OnlyCRs(s[..n])
  }

  /** At some line feed the status line was checked and accepted. */
  ghost predicate Checked(s: seq<u8>, lim: Limits) {
    exists n :: 0 <= n < |s| && s[n] == LF && Accepts(Feed(START, s[..n], lim), lim)
  }

  predicate Accepts(p: Progress, lim: Limits) {
    && p.Going? && p.d.state == 0 && p.d.nLine == 0 && p.d.nChar > 0
    && CheckStatus(p.d.text, lim.ulongMax).Accepted?
  }

  /** Then what follows is the content. */
  lemma UncheckedIsContent(front: seq<u8>, content: seq<u8>, lim: Limits)
    requires OnlyCRs(front)
    ensures Decode(front + [LF] + content, lim) == Fitting(content, lim)
  {
    OnlyCRsIff(front);
    EmptyLineFed(front, lim);
    FeedConcat(START, front + [LF], content, lim);
    ContentFed(Feed(START, front + [LF], lim), content, lim);
    assert [] + content == content;
  }

  lemma EmptyLineFed(front: seq<u8>, lim: Limits)
    requires OnlyCRs(front)
    ensures Feed(START, front + [LF], lim) == Going(Decoder(1, 0, 0, false, 0, []), [])
  {
    OnlyCRsIff(front);
    FirstLineFed(front, lim);
    FeedConcat(START, front, [LF], lim);
    FeedOne(InFirstLine(front), LF, lim);
  }

  /** A response that begins with an empty line, say. */
  lemma NoFirstLine(content: seq<u8>, lim: Limits)
    ensures Decode(CRLF + content, lim) == Fitting(content, lim)
  {
    assert CRLF == [CR] + [LF];
    UncheckedIsContent([CR], content, lim);
  }

  lemma {:induction false} CopyingStays(p: Progress, s: seq<u8>, lim: Limits)
    requires p.Going? && p.d.state == 1 && p.d.nLine == 0
    ensures var q := Feed(p, s, lim); q.Ended? || (q.d.state == 1 && q.d.nLine == 0)
  {
    if s != [] {
      CopyingStays(p, s[..|s| - 1], lim);
    }
  }

  lemma CopyingSince(s: seq<u8>, n: nat, lim: Limits)
    requires n < |s| && s[n] == LF && OnlyCRs(s[..n])
    ensures var q := Feed(START, s, lim); q.Ended? || (q.d.state == 1 && q.d.nLine == 0)
  {
    EmptyLineFed(s[..n], lim);
    assert s == s[..n] + [LF] + s[n + 1..];
    FeedConcat(START, s[..n] + [LF], s[n + 1..], lim);
    CopyingStays(Feed(START, s[..n] + [LF], lim), s[n + 1..], lim);
  }

  lemma NoLfAmongCRs(s: seq<u8>, n: nat)
    requires n <= |s| && OnlyCRs(s[..n])
    ensures forall k :: 0 <= k < n ==> s[k] != LF
  {
    forall k | 0 <= k < n
      ensures s[k] == CR
    {
      assert s[..n][k] in s[..n];
    }
  }

  /** Nothing is accepted behind an empty first line. */
  lemma EmptyIsUnchecked(s: seq<u8>, lim: Limits)
    requires EmptyFirstLine(s)
    ensures !Checked(s, lim)
  {
    var n :| 0 <= n < |s| && s[n] == LF && OnlyCRs(s[..n]);
    NoLfAmongCRs(s, n);
    forall k | 0 <= k < |s| && s[k] == LF
      ensures !Accepts(Feed(START, s[..k], lim), lim)
    {
      if k > n {
        assert s[..k][..n] == s[..n] && s[..k][n] == LF;
        CopyingSince(s[..k], n, lim);
      } else {
        assert k == n && LF !in s[..n];
        FirstLineFed(s[..n], lim);
        OnlyCRsIff(s[..n]);
      }
    }
  }

  /** The number of the next header line, while no more lines than 2^32 fit into it. */
  lemma {:induction false} LinesCounted(p: Progress, s: seq<u8>, lim: Limits)
    requires p.Going? && p.d.nLine > 0 && p.d.nLine + |s| < 0x1_0000_0000
    ensures var q := Feed(p, s, lim); q.Ended? || 0 < q.d.nLine <= p.d.nLine + |s|
  {
    if s != [] {
      LinesCounted(p, s[..|s| - 1], lim);
    }
  }

  lemma FirstLf(s: seq<u8>) returns (n: nat)
    requires LF in s
    ensures n < |s| && s[n] == LF && LF !in s[..n]
  {
    if LF in s[..|s| - 1] {
      n := FirstLf(s[..|s| - 1]);
      assert s[..|s| - 1][..n] == s[..n];
    } else {
      n := |s| - 1;
      assert s == s[..n] + [s[n]];
    }
  }

  /** A header that is over was not checked exactly if the first line was empty; and
      then no line was counted, unless so many came that their count is 0 again. */
  lemma UncheckedIff(s: seq<u8>, lim: Limits)
    requires var p := Feed(START, s, lim); p.Going? && p.d.state != 0
    ensures !Checked(s, lim) <==> EmptyFirstLine(s)
    ensures |s| < 0x1_0000_0000 ==> (Feed(START, s, lim).d.nLine == 0 <==> EmptyFirstLine(s))
  {
    if LF !in s {
      FirstLineFed(s, lim);
    }
    var n := FirstLf(s);
    OnlyCRsIff(s[..n]);
    if EmptyFirstLine(s) {
      EmptyIsUnchecked(s, lim);
      var m :| 0 <= m < |s| && s[m] == LF && OnlyCRs(s[..m]);
      CopyingSince(s, m, lim);
    } else {
      CheckedAt(s, n, lim);
    }
  }

  lemma CheckedAt(s: seq<u8>, n: nat, lim: Limits)
    requires n < |s| && s[n] == LF && LF !in s[..n] && WithoutCR(s[..n]) != [] && Feed(START, s, lim).Going?
    ensures Checked(s, lim) && (|s| < 0x1_0000_0000 ==> Feed(START, s, lim).d.nLine > 0)
  {
    hide Feed, Accepts;
    assert s == s[..n] + [LF] + s[n + 1..];
    CheckedBehind(s[..n], s[n + 1..], lim);
    assert Accepts(Feed(START, s[..n], lim), lim);
  }

  lemma CheckedBehind(line: seq<u8>, rest: seq<u8>, lim: Limits)
    requires LF !in line && WithoutCR(line) != [] && Feed(START, line + [LF] + rest, lim).Going?
    ensures Accepts(Feed(START, line, lim), lim)
    ensures |rest| < 0xFFFF_FFFF ==> Feed(START, line + [LF] + rest, lim).d.nLine > 0
  {
    FirstLineFed(line, lim);
    FirstLineEnds(line, lim);
    FeedConcat(START, line + [LF], rest, lim);
    GoneOn(InFirstLine(line).d, CheckStatus(LineString(line), lim.ulongMax), rest, lim);
  }

  /** If the decoder goes on behind the first line, then the line was accepted. */
  lemma GoneOn(d: Decoder, check: StatusLine, rest: seq<u8>, lim: Limits)
    requires Feed(StatusLineDone(d, [], check), rest, lim).Going?
    ensures check.Accepted?
    ensures |rest| < 0xFFFF_FFFF ==> Feed(StatusLineDone(d, [], check), rest, lim).d.nLine > 0
  {
    var p := StatusLineDone(d, [], check);
    if check.Refused? {
      EndedStays(p, rest, lim);
    } else if |rest| < 0xFFFF_FFFF {
      LinesCounted(p, rest, lim);
    }
  }

  // -------------------------------------------------------------------------
  // What a refusal does to the response
  // -------------------------------------------------------------------------

  lemma RefusedEnds(line: seq<u8>, more: seq<u8>, ending: Ending, lim: Limits)
    requires LF !in line && !OnlyCRs(line) && CheckStatus(LineString(line), lim.ulongMax) == Refused(ending)
    ensures Decode(line + [LF] + more, lim) == (ending, [])
  {
    OnlyCRsIff(line);
    FirstLineEnds(line, lim);
    FeedConcat(START, line + [LF], more, lim);
    EndedStays(Feed(START, line + [LF], lim), more, lim);
  }

  /** If it is accepted, then there is a response without content, and one with. */
  lemma AcceptedGoesOn(line: seq<u8>, lim: Limits)
    requires LF !in line && !OnlyCRs(line) && CheckStatus(LineString(line), lim.ulongMax).Accepted?
    ensures Decode(line + [LF] + [], lim).0 == Returned(CONNECTION_RESET)
  {
    OnlyCRsIff(line);
    FirstLineEnds(line, lim);
    assert line + [LF] + [] == line + [LF];
  }

  /** These results come whatever follows exactly if the first line is refused with them. */
  lemma RefusedIff(line: seq<u8>, ending: Ending, lim: Limits)
    requires LF !in line && ending in {Returned(OK), NullToken}
    ensures (forall more :: Decode(line + [LF] + more, lim) == (ending, []))
            <==> !OnlyCRs(line) && CheckStatus(LineString(line), lim.ulongMax) == Refused(ending)
  {
    if OnlyCRs(line) {
      UncheckedIsContent(line, [0], lim);
      assert Decode(line + [LF] + [0], lim) != (ending, []);
    } else {
      match CheckStatus(LineString(line), lim.ulongMax)
      case Accepted(_) =>
        AcceptedGoesOn(line, lim);
      case Refused(result) =>
        RefusedEnds(line, [], result, lim);
        forall more
          ensures Decode(line + [LF] + more, lim) == (result, [])
        {
          RefusedEnds(line, more, result, lim);
        }
    }
  }

  /** Whatever follows, the response is a success without content: exactly if the
      deciding token of its first line is a number with the value 200 on 32 bits. */
  lemma SuccessWithoutContentIff(line: seq<u8>, lim: Limits)
    requires LF !in line
    ensures (forall more :: Decode(line + [LF] + more, lim) == (Returned(OK), []))
            <==> exists t :: Deciding(LineString(line), t) && Denotes200(t, lim.ulongMax)
  {
    RefusedIff(line, Returned(OK), lim);
    RefusedWith200Iff(LineString(line), lim.ulongMax);
    if OnlyCRs(line) {
      OnlyCRsIff(line);
      NothingToCheck(lim.ulongMax);
    }
  }

  lemma NothingToCheck(ulongMax: nat)
    ensures CheckStatus([], ulongMax) == Refused(NullToken)
  {
  }

  /** Whatever follows, a null token is passed to strtoul: exactly if the first line is
      slashes only, or its protocol is HTTP and fewer than two words follow. */
  lemma NullTokenIff(line: seq<u8>, lim: Limits)
    requires LF !in line
    ensures (forall more :: Decode(line + [LF] + more, lim) == (NullToken, []))
            <==> var s := LineString(line);
                 && !OnlyCRs(line)
                 && (|| (forall c <- s :: c == '/' as int)
                     || exists rest :: Protocol(s, HTTP, rest) && WordCount(rest) < 2)
  {
    RefusedIff(line, NullToken, lim);
    RefusedForNullIff(LineString(line), lim.ulongMax);
  }

  // -------------------------------------------------------------------------
  // Received lines that show it
  // -------------------------------------------------------------------------

  lemma {:induction false} NoNul(s: seq<u8>)
    requires NUL !in s
    ensures UpToNul(s) == s
  {
    if s != [] {
      NoNul(s[1..]);
    }
  }

  lemma {:induction false} NoCR(s: seq<u8>)
    requires CR !in s
    ensures WithoutCR(s) == s
  {
    if s != [] {
      NoCR(s[..|s| - 1]);
    }
  }

  /** A line that is text and short enough, with its CR, is in `Line` as it is. */
  lemma TextLine(s: seq<u8>)
    requires LineText(s) && |s| <= LINE_MAX
    ensures LF !in s + [CR] && !OnlyCRs(s + [CR]) && LineString(s + [CR]) == s
  {
    NoCR(s);
    NoNul(s);
    WithoutCRSnoc(s, CR);
    assert s[0] in s && s[0] in s + [CR];
  }

  /** Refused lines with their CR and LF. */
  lemma RefusedLine(s: seq<u8>, more: seq<u8>, ending: Ending, lim: Limits)
    requires LineText(s) && |s| <= LINE_MAX && CheckStatus(s, lim.ulongMax) == Refused(ending)
    ensures Decode(s + CRLF + more, lim) == (ending, [])
  {
    TextLine(s);
    RefusedEnds(s + [CR], more, ending, lim);
    assert s + CRLF == s + [CR] + [LF];
  }

  lemma StatusTextIsLine(version: seq<u8>, code: seq<u8>, tail: seq<u8>)
    requires Printable(version) && Printable(code) && Printable(tail)
    ensures LineText(StatusText(version, code, tail))
  {
    var rest := code + tail;
    PrintablePlus(code, tail);
    PrintablePlus([SPACE], rest);
    PrintablePlus(version, [SPACE] + rest);
    PrintablePlus(['/' as int], version + ([SPACE] + rest));
    PrintablePlus(HTTP, ['/' as int] + (version + ([SPACE] + rest)));
    PrintableText(StatusText(version, code, tail));
  }

  /** A status line of printable characters that is not too long. */
  predicate OrdinaryLine(version: seq<u8>, code: seq<u8>, tail: seq<u8>) {
    && Word(version) && Word(code) && Apart(tail) && Printable(version) && Printable(code) && Printable(tail)
    && |StatusText(version, code, tail)| <= LINE_MAX
  }

  /** With a sign: "HTTP/1.1 +200 OK". */
  lemma SignedCodeIsSuccess(version: seq<u8>, tail: seq<u8>, more: seq<u8>, lim: Limits)
    requires OrdinaryLine(version, Codes("+200"), tail) && lim.ulongMax >= 200
    ensures Decode(StatusText(version, Codes("+200"), tail) + CRLF + more, lim) == (Returned(OK), [])
  {
    StatusTextIsLine(version, Codes("+200"), tail);
    SignedCodeRefused(version, tail, lim.ulongMax);
    RefusedLine(StatusText(version, Codes("+200"), tail), more, Returned(OK), lim);
  }

  /** With a zero in front: "HTTP/1.1 0200 OK". */
  lemma PaddedCodeIsSuccess(version: seq<u8>, tail: seq<u8>, more: seq<u8>, lim: Limits)
    requires OrdinaryLine(version, Codes("0200"), tail) && lim.ulongMax >= 200
    ensures Decode(StatusText(version, Codes("0200"), tail) + CRLF + more, lim) == (Returned(OK), [])
  {
    StatusTextIsLine(version, Codes("0200"), tail);
    PaddedCodeRefused(version, tail, lim.ulongMax);
    RefusedLine(StatusText(version, Codes("0200"), tail), more, Returned(OK), lim);
  }

  /** Without HTTP: a first line that is just "200". */
  lemma BareCodeIsSuccess(more: seq<u8>, lim: Limits)
    requires lim.ulongMax >= 200
    ensures Decode(Codes("200") + CRLF + more, lim) == (Returned(OK), [])
  {
    var s := Codes("200");
    assert s == [0x32, 0x30, 0x30];
    PrintableText(s);
    BareCodeRefused(lim.ulongMax);
    RefusedLine(s, more, Returned(OK), lim);
  }

  /** Of the status lines with a decimal code that fits, exactly those with another form
      of 200 are successes without content, whatever follows. */
  lemma DecimalCodeSuccessIff(version: seq<u8>, code: seq<u8>, tail: seq<u8>, lim: Limits)
    requires OrdinaryLine(version, code, tail)
    requires AllDigits(code, 10) && ValueOf(code, 10) <= lim.ulongMax && ValueOf(code, 10) < 0x1_0000_0000
    ensures (forall more :: Decode(StatusText(version, code, tail) + CRLF + more, lim) == (Returned(OK), []))
            <==> ValueOf(code, 10) == 200 && code != Codes("200")
  {
    hide Decode, CheckStatus, StatusText, ValueOf, LineText;
    StatusTextIsLine(version, code, tail);
    DecimalCodeIff(version, code, tail, lim.ulongMax);
    LineSuccessIff(StatusText(version, code, tail), lim);
  }

  lemma LineSuccessIff(s: seq<u8>, lim: Limits)
    requires LineText(s) && |s| <= LINE_MAX
    ensures (forall more :: Decode(s + CRLF + more, lim) == (Returned(OK), []))
            <==> CheckStatus(s, lim.ulongMax) == Refused(Returned(OK))
  {
    TextLine(s);
    hide Decode, CheckStatus, LineString, OnlyCRs;
    RefusedIff(s + [CR], Returned(OK), lim);
    assert s + CRLF == s + [CR] + [LF];
  }

  /** "HTTP/1.1" alone passes a null token to strtoul. */
  lemma VersionAloneIsNull(more: seq<u8>, lim: Limits)
    ensures Decode(Codes("HTTP/1.1") + CRLF + more, lim) == (NullToken, [])
  {
    var s := Codes("HTTP/1.1");
    assert s == [0x48, 0x54, 0x54, 0x50, 0x2F, 0x31, 0x2E, 0x31];
    PrintableText(s);
    VersionAloneRefused(lim.ulongMax);
    RefusedLine(s, more, NullToken, lim);
  }

  lemma FooIsInvalid(more: seq<u8>, lim: Limits)
    ensures Decode(Codes("FOO") + CRLF + more, lim) == (Returned(551), [])
  {
    var s := Codes("FOO");
    assert s == [0x46, 0x4F, 0x4F];
    PrintableText(s);
    FooRefused(lim.ulongMax);
    RefusedLine(s, more, Returned(INVALID_RESPONSE_CODE), lim);
  }
}
