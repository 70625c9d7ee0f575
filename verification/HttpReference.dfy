/** What the client makes of a response, line by line and chunk by chunk: the loop over
    the bytes gives the same for every response. */
module HttpReference {
  import opened Bytes
  import opened CText
  import opened HttpDecoder
  import opened HttpReceivedLines
  import HttpBlankHeaders

  // -------------------------------------------------------------------------
  // Lines
  // -------------------------------------------------------------------------

  /** The length of the first line, or of the whole string if it has no line feed. */
  function LineLength(s: seq<u8>): (n: nat)
    ensures n <= |s| && LF !in s[..n] && (n < |s| ==> s[n] == LF)
  {
    if s == [] || s[0] == LF then 0
    else
      var n := 1 + LineLength(s[1..]);
      assert s[..n] == [s[0]] + s[1..][..n - 1];
      n
  }

  lemma {:induction false} FirstLineIs(line: seq<u8>, more: seq<u8>)
    requires LF !in line
    ensures LineLength(line + [LF] + more) == |line|
  {
    if line != [] {
      assert (line + [LF] + more)[1..] == line[1..] + [LF] + more;
      FirstLineIs(line[1..], more);
    }
  }

  /** The string in `Line` behind a line, where it held `held` before. */
  function StringOf(line: seq<u8>, held: seq<u8>): seq<u8> {
    if OnlyCRs(line) then held else LineString(line)
  }

  function LeadingCRs(s: seq<u8>): (n: nat)
    ensures n <= |s| && OnlyCRs(s[..n]) && (n < |s| ==> s[n] != CR)
  {
    if s == [] || s[0] != CR then 0
    else
      var n := 1 + LeadingCRs(s[1..]);
      assert s[..n] == [s[0]] + s[1..][..n - 1];
      n
  }

  lemma {:induction false} LeadingCRsAre(crs: seq<u8>, more: seq<u8>)
    requires OnlyCRs(crs) && (more != [] ==> more[0] != CR)
    ensures LeadingCRs(crs + more) == |crs|
  {
    if crs == [] {
      assert crs + more == more;
    } else {
      assert crs[0] in crs && (crs + more)[1..] == crs[1..] + more && forall c <- crs[1..] :: c in crs;
      LeadingCRsAre(crs[1..], more);
    }
  }

  // -------------------------------------------------------------------------
  // The reference
  // -------------------------------------------------------------------------

  /** A status and what was put into the buffer. */
  type Outcome = (u32, seq<u8>)

  /** From the start of a chunk header line, with `room` bytes left in the buffer. */
  function Chunked(s: seq<u8>, held: seq<u8>, room: nat, lim: Limits): (r: Outcome)
    ensures |r.1| <= room
    decreases |s|
  {
    var n := LineLength(s);
    if n == |s| then (550, [])
    else
      var text := StringOf(s[..n], held);
      var number := Strtoul(text, 16, lim.ulongMax);
      if number.end != |text| then (552, [])
      else if number.value == 0 then (200, [])
      else Data(s[n + 1..], number.value, text, room, lim)
  }

  /** From the start of the data of a chunk. */
  function Data(s: seq<u8>, size: nat, held: seq<u8>, room: nat, lim: Limits): (r: Outcome)
    requires size > 0
    ensures |r.1| <= room
    decreases |s|
  {
    if room < size && room < |s| then (553, s[..room])
    else if |s| < size then (550, s)
    else
      var next := Trailer(s[size..], held, room - size, lim);
      (next.0, s[..size] + next.1)
  }

  /** From the end of the data. */
  function Trailer(s: seq<u8>, held: seq<u8>, room: nat, lim: Limits): (r: Outcome)
    ensures |r.1| <= room
    decreases |s|
  {
    var n := LeadingCRs(s);
    if n == |s| then (550, [])
    else if s[n] != LF then (552, [])
    else Chunked(s[n + 1..], held, room, lim)
  }

  function Plain(s: seq<u8>, room: nat): Outcome {
    if |s| <= room then (200, s) else (553, s[..room])
  }

  /** From the start of a header line, behind `n` others with characters. */
  function Response(s: seq<u8>, n: u32, chunked: bool, held: seq<u8>, lim: Limits): (Ending, seq<u8>)
    decreases |s|
  {
    var length := LineLength(s);
    if length == |s| then (Returned(550), [])
    else
      var line, rest := s[..length], s[length + 1..];
      var text := LineString(line);
      if OnlyCRs(line) then
        var r := if chunked then Chunked(rest, held, lim.capacity, lim) else Plain(rest, lim.capacity);
        (Returned(r.0), r.1)
      else if n == 0 then
        match CheckStatus(text, lim.ulongMax)
        case Refused(ending) => (ending, [])
        case Accepted(left) => Response(rest, 1, chunked, left, lim)
      else
        Response(rest, (n + 1) % 0x1_0000_0000, chunked || SelectsChunked(text), LeftOf(text), lim)
  }

  // -------------------------------------------------------------------------
  // The loop, one line after the other
  // -------------------------------------------------------------------------

  /** Within a line, behind the characters `s` of it. */
  function Within(p: Progress, s: seq<u8>): Progress
    requires p.Going?
  {
    if WithoutCR(s) == [] then p
    else Going(p.d.(nChar := |Kept(WithoutCR(s))|, text := LineString(s)), p.out)
  }

  lemma OneMoreWithin(p: Progress, s: seq<u8>, c: u8, lim: Limits)
    requires p.Going? && (p.d.state == 0 || p.d.state == 2) && p.d.nChar == 0 && c != LF
    ensures Step(Within(p, s), c, lim) == Within(p, s + [c])
  {
    WithoutCRSnoc(s, c);
    if c == CR {
      hide WithoutCR;
    } else {
      OneMoreFits(p.d, WithoutCR(s), c);
      hide WithoutCR, PutChar, Kept, UpToNul;
    }
  }

  lemma OneMoreFits(d: Decoder, u: seq<u8>, c: u8)
    requires d.nChar == 0
    ensures var e := if u == [] then d else d.(nChar := |Kept(u)|, text := UpToNul(Kept(u)));
            PutChar(e, c) == d.(nChar := |Kept(u + [c])|, text := UpToNul(Kept(u + [c])))
  {
    KeptSnoc(u, c);
    UpToNulSnoc(Kept(u), c);
    assert Kept([]) == [] && UpToNul([]) == [];
  }

  lemma {:induction false} LineRead(p: Progress, s: seq<u8>, lim: Limits)
    requires p.Going? && (p.d.state == 0 || p.d.state == 2) && p.d.nChar == 0 && LF !in s
    ensures Feed(p, s, lim) == Within(p, s)
  {
    if s != [] {
      var n := |s| - 1;
      assert s == s[..n] + [s[n]] && s[n] in s && forall x <- s[..n] :: x in s;
      LineRead(p, s[..n], lim);
      OneMoreWithin(p, s[..n], s[n], lim);
    }
  }

  /** A line and its line feed. */
  lemma LineEnds(p: Progress, s: seq<u8>, lim: Limits)
    requires p.Going? && (p.d.state == 0 || p.d.state == 2) && p.d.nChar == 0 && LineLength(s) < |s|
    ensures var n := LineLength(s);
            Feed(p, s, lim) == Feed(Step(Within(p, s[..n]), LF, lim), s[n + 1..], lim)
  {
    var n := LineLength(s);
    assert s == s[..n] + ([LF] + s[n + 1..]);
    FeedConcat(p, s[..n], [LF] + s[n + 1..], lim);
    LineRead(p, s[..n], lim);
    FeedConcat(Within(p, s[..n]), [LF], s[n + 1..], lim);
    FeedOne(Within(p, s[..n]), LF, lim);
  }

  // -------------------------------------------------------------------------
  // The loop within chunks
  // -------------------------------------------------------------------------

  /** `r` is what is made of the rest of the response. */
  predicate EndsAs(p: Progress, content: seq<u8>, r: Outcome) {
    Finish(p) == (Returned(r.0), content + r.1)
  }

  /** Nothing more is put into the buffer. */
  lemma EndsHere(p: Progress, content: seq<u8>, status: u32)
    requires Finish(p) == (Returned(status), content)
    ensures EndsAs(p, content, (status, []))
  {
    assert content + [] == content;
  }

  predicate AtChunk(p: Progress, lim: Limits) {
    p.Going? && p.d.state == 2 && p.d.nChar == 0 && |p.out| <= lim.capacity
  }

  predicate AtData(p: Progress, lim: Limits) {
    p.Going? && p.d.state == 3 && p.d.ulBytes > 0 && |p.out| <= lim.capacity
  }

  /** At the end of the data of a chunk. */
  predicate BehindData(p: Progress, lim: Limits) {
    p.Going? && p.d.state == 4 && |p.out| <= lim.capacity
  }

  lemma NoLine(p: Progress, s: seq<u8>, lim: Limits)
    requires AtChunk(p, lim) && LineLength(s) == |s|
    ensures ChunkAgrees(p, s, lim)
  {
    assert s[..|s|] == s;
    LineRead(p, s, lim);
    assert Within(p, s).Going? && Within(p, s).d.state == 2 && Within(p, s).out == p.out;
    hide Feed, Within, EndsAs;
    EndsHere(Within(p, s), p.out, 550);
  }

  /** At the end of the chunk header line. */
  function BehindSize(p: Progress, s: seq<u8>, lim: Limits): Progress
    requires p.Going? && LineLength(s) < |s|
  {
    Step(Within(p, s[..LineLength(s)]), LF, lim)
  }

  /** What the end of a chunk header line with this text leads to. */
  predicate SizeTaken(q: Progress, out: seq<u8>, text: seq<u8>, lim: Limits) {
    var number := Strtoul(text, 16, lim.ulongMax);
    if number.end != |text| then q == Ended(Returned(552), out)
    else
      && q.Going? && q.out == out && q.d.text == text
      && if number.value == 0 then q.d.state == 5 else q.d.state == 3 && q.d.ulBytes == number.value
  }

  lemma SizeRead(p: Progress, line: seq<u8>, lim: Limits)
    requires AtChunk(p, lim)
    ensures SizeTaken(Step(Within(p, line), LF, lim), p.out, StringOf(line, p.d.text), lim)
  {
    hide Strtoul;
    OnlyCRsIff(line);
  }

  lemma LineTaken(p: Progress, s: seq<u8>, lim: Limits)
    requires AtChunk(p, lim) && LineLength(s) < |s|
    ensures var n, q := LineLength(s), BehindSize(p, s, lim);
            SizeTaken(q, p.out, StringOf(s[..n], p.d.text), lim) && Feed(p, s, lim) == Feed(q, s[n + 1..], lim)
  {
    LineEnds(p, s, lim);
    SizeRead(p, s[..LineLength(s)], lim);
    hide Feed, Step, Within, StringOf, SizeTaken, LineLength;
  }

  lemma LastLine(p: Progress, s: seq<u8>, lim: Limits)
    requires AtChunk(p, lim) && LineLength(s) < |s|
    requires var q := BehindSize(p, s, lim); q.Ended? || q.d.state == 5
    ensures ChunkAgrees(p, s, lim)
  {
    hide Feed, BehindSize, StringOf, LineLength, EndsAs;
    LineTaken(p, s, lim);
    var n, q := LineLength(s), BehindSize(p, s, lim);
    EndedStays(q, s[n + 1..], lim);
    SizeEnds(q, p.out, StringOf(s[..n], p.d.text), s, p.d.text, lim.capacity - |p.out|, lim);
  }

  lemma SizeEnds(q: Progress, out: seq<u8>, text: seq<u8>, s: seq<u8>, held: seq<u8>, room: nat, lim: Limits)
    requires SizeTaken(q, out, text, lim) && (q.Ended? || q.d.state == 5)
    requires LineLength(s) < |s| && text == StringOf(s[..LineLength(s)], held)
    ensures EndsAs(q, out, Chunked(s, held, room, lim))
  {
    hide StringOf, Strtoul, LineLength, Data;
    if q.Ended? {
      assert Chunked(s, held, room, lim) == (552, []);
    } else {
      assert Chunked(s, held, room, lim) == (200, []);
    }
    hide Chunked;
    EndsHere(q, out, if q.Ended? then 552 else 200);
  }

  lemma SizeFirst(p: Progress, s: seq<u8>, lim: Limits)
    requires AtChunk(p, lim) && LineLength(s) < |s|
    requires var q := BehindSize(p, s, lim); q.Going? && q.d.state != 5
    ensures AtData(BehindSize(p, s, lim), lim)
    ensures DataAgrees(BehindSize(p, s, lim), s[LineLength(s) + 1..], lim) ==> ChunkAgrees(p, s, lim)
  {
    hide Feed, BehindSize, StringOf, Strtoul, Data, EndsAs, LineLength;
    LineTaken(p, s, lim);
  }

  lemma {:induction false} ChunkedRead(p: Progress, s: seq<u8>, lim: Limits)
    requires AtChunk(p, lim)
    ensures ChunkAgrees(p, s, lim)
    decreases |s|
  {
    hide DataAgrees, ChunkAgrees, BehindSize;
    if LineLength(s) == |s| {
      NoLine(p, s, lim);
    } else {
      var q := BehindSize(p, s, lim);
      if q.Ended? || q.d.state == 5 {
        LastLine(p, s, lim);
      } else {
        SizeFirst(p, s, lim);
        DataRead(q, s[LineLength(s) + 1..], lim);
      }
    }
  }

  /** The data that is there, if the chunk is not complete or does not fit. */
  lemma DataEnds(p: Progress, s: seq<u8>, lim: Limits)
    requires AtData(p, lim) && (|s| < p.d.ulBytes || lim.capacity - |p.out| < p.d.ulBytes)
    ensures EndsAs(Feed(p, s, lim), p.out, Data(s, p.d.ulBytes, p.d.text, lim.capacity - |p.out|, lim))
  {
    var size, room := p.d.ulBytes, lim.capacity - |p.out|;
    hide Trailer;
    if room < size && room < |s| {
      DataFills(p, s, lim);
    } else {
      ContentFed(p, s, lim);
      hide Feed;
      if s == [] {
        EndsHere(p, p.out, 550);
      }
    }
  }

  lemma DataFills(p: Progress, s: seq<u8>, lim: Limits)
    requires AtData(p, lim) && lim.capacity - |p.out| < p.d.ulBytes && lim.capacity - |p.out| < |s|
    ensures Feed(p, s, lim) == Ended(Returned(553), p.out + s[..lim.capacity - |p.out|])
  {
    var front, back := s[..lim.capacity - |p.out| + 1], s[lim.capacity - |p.out| + 1..];
    ContentFed(p, front, lim);
    CutAt(p.out, front, lim.capacity);
    assert s == front + back && front[..lim.capacity - |p.out|] == s[..lim.capacity - |p.out|];
    FeedConcat(p, front, back, lim);
    EndedStays(Feed(p, front, lim), back, lim);
  }

  /** All the data of a chunk that fits. */
  lemma DataCopied(p: Progress, s: seq<u8>, lim: Limits)
    requires AtData(p, lim) && |s| == p.d.ulBytes <= lim.capacity - |p.out|
    ensures var q := Feed(p, s, lim); BehindData(q, lim) && q.out == p.out + s && q.d.text == p.d.text
  {
    ContentFed(p, s, lim);
  }

  /** With more put into the buffer before. */
  lemma EndsBehind(p: Progress, content: seq<u8>, front: seq<u8>, r: Outcome)
    requires EndsAs(p, content + front, r)
    ensures EndsAs(p, content, (r.0, front + r.1))
  {
    assert content + front + r.1 == content + (front + r.1);
  }

  lemma Split(p: Progress, s: seq<u8>, n: nat, lim: Limits)
    requires n <= |s|
    ensures Feed(p, s, lim) == Feed(Feed(p, s[..n], lim), s[n..], lim)
  {
    FeedConcat(p, s[..n], s[n..], lim);
    assert s == s[..n] + s[n..];
  }

  /** What is behind `p` is read as the reference reads it. */
  predicate TrailerAgrees(p: Progress, s: seq<u8>, lim: Limits) {
    BehindData(p, lim) && EndsAs(Feed(p, s, lim), p.out, Trailer(s, p.d.text, lim.capacity - |p.out|, lim))
  }

  predicate DataAgrees(p: Progress, s: seq<u8>, lim: Limits) {
    AtData(p, lim)
    && EndsAs(Feed(p, s, lim), p.out, Data(s, p.d.ulBytes, p.d.text, lim.capacity - |p.out|, lim))
  }

  predicate ChunkAgrees(p: Progress, s: seq<u8>, lim: Limits) {
    AtChunk(p, lim) && EndsAs(Feed(p, s, lim), p.out, Chunked(s, p.d.text, lim.capacity - |p.out|, lim))
  }

  /** The data is there and fits. */
  predicate Complete(p: Progress, s: seq<u8>, lim: Limits) {
    AtData(p, lim) && p.d.ulBytes <= |s| && p.d.ulBytes <= lim.capacity - |p.out|
  }

  lemma DataFirst(p: Progress, s: seq<u8>, lim: Limits)
    requires Complete(p, s, lim)
    requires TrailerAgrees(Feed(p, s[..p.d.ulBytes], lim), s[p.d.ulBytes..], lim)
    ensures DataAgrees(p, s, lim)
  {
    var size, room := p.d.ulBytes, lim.capacity - |p.out|;
    Split(p, s, size, lim);
    DataCopied(p, s[..size], lim);
    var q := Feed(p, s[..size], lim);
    hide Feed, EndsAs, Trailer;
    EndsBehind(Feed(q, s[size..], lim), p.out, s[..size], Trailer(s[size..], p.d.text, room - size, lim));
  }

  lemma {:induction false} DataRead(p: Progress, s: seq<u8>, lim: Limits)
    requires AtData(p, lim)
    ensures DataAgrees(p, s, lim)
    decreases |s|
  {
    if Complete(p, s, lim) {
      DataCopied(p, s[..p.d.ulBytes], lim);
      hide Feed, DataAgrees, TrailerAgrees;
      TrailerRead(Feed(p, s[..p.d.ulBytes], lim), s[p.d.ulBytes..], lim);
      DataFirst(p, s, lim);
    } else {
      DataEnds(p, s, lim);
    }
  }

  lemma CutAt(out: seq<u8>, s: seq<u8>, capacity: nat)
    requires |out| <= capacity < |out| + |s|
    ensures (out + s)[..capacity] == out + s[..capacity - |out|]
  {
  }

  lemma BehindDataStep(p: Progress, c: u8, lim: Limits)
    requires BehindData(p, lim) && c != CR
    ensures Step(p, c, lim)
            == if c == LF then Going(p.d.(nChar := 0, state := 2), p.out) else Ended(Returned(552), p.out)
  {
  }

  lemma HeadFed(p: Progress, s: seq<u8>, lim: Limits)
    requires s != []
    ensures Feed(p, s, lim) == Feed(Step(p, s[0], lim), s[1..], lim)
  {
    hide Feed, Step;
    assert s == [s[0]] + s[1..];
    FeedConcat(p, [s[0]], s[1..], lim);
    FeedOne(p, s[0], lim);
  }

  lemma TrailerFed(p: Progress, s: seq<u8>, lim: Limits)
    requires BehindData(p, lim) && LeadingCRs(s) < |s|
    ensures var n := LeadingCRs(s);
            Feed(p, s, lim)
            == Feed(if s[n] == LF then Going(p.d.(nChar := 0, state := 2), p.out) else Ended(Returned(552), p.out),
                    s[n + 1..], lim)
  {
    var n := LeadingCRs(s);
    hide Step, Feed, LeadingCRs;
    CRsRead(p, s[..n], lim);
    Split(p, s, n, lim);
    HeadFed(p, s[n..], lim);
    assert s[n..][1..] == s[n + 1..];
    BehindDataStep(p, s[n], lim);
  }

  lemma OnlyCRsFed(p: Progress, s: seq<u8>, lim: Limits)
    requires BehindData(p, lim) && LeadingCRs(s) == |s|
    ensures EndsAs(Feed(p, s, lim), p.out, (550, []))
  {
    assert s[..|s|] == s;
    CRsRead(p, s, lim);
    hide Feed, LeadingCRs;
    EndsHere(p, p.out, 550);
  }

  lemma TrailerEnds(p: Progress, s: seq<u8>, lim: Limits)
    requires BehindData(p, lim) && LeadingCRs(s) < |s| && s[LeadingCRs(s)] != LF
    ensures TrailerAgrees(p, s, lim)
  {
    TrailerFed(p, s, lim);
    hide Feed, EndsAs;
    EndedStays(Ended(Returned(552), p.out), s[LeadingCRs(s) + 1..], lim);
    EndsHere(Ended(Returned(552), p.out), p.out, 552);
  }

  lemma {:induction false} TrailerRead(p: Progress, s: seq<u8>, lim: Limits)
    requires BehindData(p, lim)
    ensures TrailerAgrees(p, s, lim)
    decreases |s|
  {
    var n := LeadingCRs(s);
    hide EndsAs, Feed, LeadingCRs;
    if n == |s| {
      OnlyCRsFed(p, s, lim);
    } else if s[n] == LF {
      TrailerFed(p, s, lim);
      hide Chunked;
      ChunkedRead(Going(p.d.(nChar := 0, state := 2), p.out), s[n + 1..], lim);
    } else {
      TrailerEnds(p, s, lim);
    }
  }

  lemma {:induction false} CRsRead(p: Progress, s: seq<u8>, lim: Limits)
    requires BehindData(p, lim) && OnlyCRs(s)
    ensures Feed(p, s, lim) == p
  {
    if s != [] {
      var n := |s| - 1;
      assert s[n] in s && forall c <- s[..n] :: c in s;
      CRsRead(p, s[..n], lim);
    }
  }

  // -------------------------------------------------------------------------
  // The whole response
  // -------------------------------------------------------------------------

  predicate AtHeader(p: Progress) {
    p.Going? && p.d.state == 0 && p.d.nChar == 0 && p.out == []
  }

  /** The end of a header line with characters. */
  lemma FieldRead(p: Progress, line: seq<u8>, lim: Limits)
    requires AtHeader(p) && !OnlyCRs(line)
    ensures var text, q := LineString(line), Step(Within(p, line), LF, lim);
            if p.d.nLine > 0 then
              AtHeader(q) && q.d.nLine == (p.d.nLine + 1) % 0x1_0000_0000
              && q.d.chunked == (p.d.chunked || SelectsChunked(text)) && q.d.text == LeftOf(text)
            else
              match CheckStatus(text, lim.ulongMax)
              case Refused(ending) => q == Ended(ending, [])
              case Accepted(left) => AtHeader(q) && q.d.nLine == 1 && q.d.chunked == p.d.chunked && q.d.text == left
  {
    hide CheckStatus, SelectsChunked, LeftOf, LineString;
    OnlyCRsIff(line);
  }

  lemma {:induction false} HeaderRead(p: Progress, s: seq<u8>, lim: Limits)
    requires AtHeader(p)
    ensures Finish(Feed(p, s, lim)) == Response(s, p.d.nLine, p.d.chunked, p.d.text, lim)
    decreases |s|
  {
    var n := LineLength(s);
    hide CheckStatus, SelectsChunked, LeftOf, LineString, Feed, Chunked, Plain;
    if n == |s| {
      assert s[..n] == s;
      LineRead(p, s, lim);
    } else {
      LineEnds(p, s, lim);
      var q, rest := Step(Within(p, s[..n]), LF, lim), s[n + 1..];
      if OnlyCRs(s[..n]) {
        OnlyCRsIff(s[..n]);
        assert Within(p, s[..n]) == p;
        BlankLine(p, lim);
        hide Within, Step;
        HeaderIsOver(p, q, rest, lim);
      } else {
        FieldRead(p, s[..n], lim);
        hide Within, Step;
        if q.Ended? {
          EndedStays(q, rest, lim);
        } else {
          HeaderRead(q, rest, lim);
        }
      }
    }
  }

  lemma BlankLine(p: Progress, lim: Limits)
    requires AtHeader(p)
    ensures Step(p, LF, lim) == Going(p.d.(state := if p.d.chunked then 2 else 1), [])
  {
    hide CheckStatus, StatusLineDone, FieldDone, SelectsChunked, LeftOf;
  }

  lemma HeaderIsOver(p: Progress, q: Progress, rest: seq<u8>, lim: Limits)
    requires AtHeader(p) && q == Going(p.d.(state := if p.d.chunked then 2 else 1), [])
    ensures var r := if p.d.chunked then Chunked(rest, p.d.text, lim.capacity, lim) else Plain(rest, lim.capacity);
            Finish(Feed(q, rest, lim)) == (Returned(r.0), r.1)
  {
    hide Feed, Chunked;
    assert [] + rest == rest;
    if p.d.chunked {
      ChunkedRead(q, rest, lim);
      FromEmpty(Feed(q, rest, lim), Chunked(rest, p.d.text, lim.capacity, lim));
    } else {
      ContentFed(q, rest, lim);
    }
  }

  lemma FromEmpty(p: Progress, r: Outcome)
    requires EndsAs(p, [], r)
    ensures Finish(p) == (Returned(r.0), r.1)
  {
    assert [] + r.1 == r.1;
  }

  /** The loop over the bytes reads every response as the reference does. */
  lemma DecodeIsResponse(s: seq<u8>, lim: Limits)
    ensures Decode(s, lim) == Response(s, 0, false, [], lim)
  {
    HeaderRead(START, s, lim);
  }

  // -------------------------------------------------------------------------
  // Behind an accepted header
  // -------------------------------------------------------------------------

  /** The string in `Line` behind a header with several lines. */
  function HeldBehind(lines: seq<seq<u8>>): seq<u8> {
    if lines == [] then [] else LeftOf(Kept(lines[|lines| - 1]))
  }

  /** The string in front of the first delimiter behind the name. */
  lemma LeftOfField(front: seq<u8>, name: seq<u8>, back: seq<u8>)
    requires front == [] || front == [SPACE]
    requires name != [] && Free(name, {':' as int, SPACE}) && (back != [] ==> back[0] in {':' as int, SPACE})
    ensures LeftOf(front + name + back) == front + name
  {
    TokenAt(front, name, back, {':' as int, SPACE});
  }

  /** Behind chunks: the header of the last one; without chunks, what the response header left. */
  function HeldBehindChunks(lines: seq<seq<u8>>, chunks: seq<Chunk>): seq<u8> {
    if chunks == [] then HeldBehind(lines) else Kept(chunks[|chunks| - 1].header)
  }

  lemma HeaderHolds(lines: seq<seq<u8>>, lim: Limits)
    requires AcceptedHeader(lines, lim) && |lines| > 1
    ensures var p := Feed(START, Header(lines), lim); p.Going? && p.d.text == HeldBehind(lines)
  {
    var n := |lines| - 1;
    var s, front := lines[n], Lines(lines[..n]);
    var p := Feed(START, front, lim);
    assert s in lines && lines[..n][0] == lines[0] && forall x <- lines[..n] :: x in lines;
    LinesFed(lines[..n], lim);
    FeedConcat(START, front, s + CRLF, lim);
    LastFieldHeld(p, s, lim);
    FeedConcat(START, Lines(lines), CRLF, lim);
    var q := Feed(START, Lines(lines), lim);
    hide Feed, Lines;
    CrLfFed(q, lim);
    BlankLine(q, lim);
  }

  lemma LastFieldHeld(p: Progress, s: seq<u8>, lim: Limits)
    requires AtHeader(p) && p.d.nLine > 0 && LineText(s)
    ensures var q := Feed(p, s + CRLF, lim); AtHeader(q) && q.d.text == LeftOf(Kept(s))
  {
    WholeLineFed(p, s, lim);
    assert Kept(s) != [];
    hide LeftOf, SelectsChunked, Kept, Feed;
  }

  /** A chunked response up to the end of some chunks that fit. */
  predicate Begun(lines: seq<seq<u8>>, chunks: seq<Chunk>, lim: Limits) {
    && AcceptedHeader(lines, lim) && ChunkedHeader(lines)
    && (forall c <- chunks :: WellFormed(c, lim)) && |Content(chunks)| <= lim.capacity
  }

  /** Where it stands there. */
  lemma ChunksHold(lines: seq<seq<u8>>, chunks: seq<Chunk>, lim: Limits)
    requires Begun(lines, chunks, lim)
    ensures var p := Feed(START, Header(lines) + Encoded(chunks), lim);
            AtChunk(p, lim) && p.out == Content(chunks) && p.d.text == HeldBehindChunks(lines, chunks)
  {
    hide Feed, Header, HeldBehind, Encoded, Content, WellFormed, AcceptedHeader;
    var p := ChunksInResponse(lines, chunks, lim);
    if chunks == [] {
      HeaderHolds(lines, lim);
      NoChunks(lines);
    } else {
      var n := |chunks| - 1;
      ButLastAndLast(chunks);
      HttpBlankHeaders.ChunksAndOne(lines, chunks[..n], chunks[n], lim);
    }
  }

  lemma NoChunks(lines: seq<seq<u8>>)
    ensures Header(lines) + Encoded([]) == Header(lines)
  {
    hide Header;
  }

  lemma ButLastAndLast<T>(s: seq<T>)
    requires s != []
    ensures s == s[..|s| - 1] + [s[|s| - 1]] && s[|s| - 1] in s && forall x <- s[..|s| - 1] :: x in s
  {
  }

  lemma FromChunk(front: seq<u8>, s: seq<u8>, lim: Limits)
    requires AtChunk(Feed(START, front, lim), lim)
    ensures var p := Feed(START, front, lim);
            EndsAs(Feed(START, front + s, lim), p.out, Chunked(s, p.d.text, lim.capacity - |p.out|, lim))
  {
    hide Feed, Chunked;
    FeedConcat(START, front, s, lim);
    ChunkedRead(Feed(START, front, lim), s, lim);
  }

  /** Whatever follows them is read as the reference reads it. */
  lemma BehindChunks(lines: seq<seq<u8>>, chunks: seq<Chunk>, s: seq<u8>, lim: Limits)
    requires Begun(lines, chunks, lim)
    ensures var r := Chunked(s, HeldBehindChunks(lines, chunks), lim.capacity - |Content(chunks)|, lim);
            Decode(Header(lines) + Encoded(chunks) + s, lim) == (Returned(r.0), Content(chunks) + r.1)
  {
    hide Chunked, Feed, Header, Encoded, Content, Begun;
    ChunksHold(lines, chunks, lim);
    FromChunk(Header(lines) + Encoded(chunks), s, lim);
  }

  /** A line that is not taken as a number from its first character to its last. */
  predicate NotSize(line: seq<u8>, held: seq<u8>, lim: Limits) {
    LF !in line && Strtoul(StringOf(line, held), 16, lim.ulongMax).end != |StringOf(line, held)|
  }

  /** As a chunk header it ends the response with 552 and the content so far, whatever follows. */
  lemma BrokenHeaderLine(lines: seq<seq<u8>>, chunks: seq<Chunk>, line: seq<u8>, more: seq<u8>, lim: Limits)
    requires Begun(lines, chunks, lim) && NotSize(line, HeldBehindChunks(lines, chunks), lim)
    ensures Decode(Header(lines) + Encoded(chunks) + (line + [LF] + more), lim) == (Returned(552), Content(chunks))
  {
    hide Decode, Chunked, Header, Encoded, Content, Begun, NotSize, HeldBehindChunks;
    BehindChunks(lines, chunks, line + [LF] + more, lim);
    NotANumber(line, more, HeldBehindChunks(lines, chunks), lim.capacity - |Content(chunks)|, lim);
    assert Content(chunks) + [] == Content(chunks);
  }

  lemma NumberBefore(digits: seq<u8>, more: seq<u8>, ulongMax: nat)
    requires digits != [] && AllDigits(digits, 16) && more != [] && more[0] == ';' as int
    ensures Strtoul(digits + more, 16, ulongMax).end == |digits|
  {
    var x := Numeral([], [], [], digits);
    assert TextOf(x) == digits;
    NumeralRead(x, more, 16, ulongMax);
    hide Strtoul, ValueOf;
  }

  /** A size with a chunk extension (section 4.1.1 of RFC 7230) is not taken as a number. */
  lemma ExtensionIsNoSize(digits: seq<u8>, extension: seq<u8>, held: seq<u8>, lim: Limits)
    requires digits != [] && AllDigits(digits, 16)
    requires var s := digits + ([';' as int] + extension); LineText(s) && |s| <= LINE_MAX
    ensures NotSize(digits + ([';' as int] + extension) + [CR], held, lim)
  {
    hide Strtoul, AllDigits, OnlyCRs, LineString;
    var s := digits + ([';' as int] + extension);
    NumberBefore(digits, [';' as int] + extension, lim.ulongMax);
    HeaderIsString(s);
    assert LF !in s + [CR];
  }

  lemma NotANumber(line: seq<u8>, more: seq<u8>, held: seq<u8>, room: nat, lim: Limits)
    requires NotSize(line, held, lim)
    ensures Chunked(line + [LF] + more, held, room, lim) == (552, [])
  {
    FirstLineIs(line, more);
    hide StringOf, Strtoul, LineLength, Data;
    assert (line + [LF] + more)[..|line|] == line;
  }

  /** So does a byte other than CR and LF behind the data of a chunk. */
  lemma BrokenTrailer(lines: seq<seq<u8>>, chunks: seq<Chunk>, c: Chunk, crs: seq<u8>, b: u8, more: seq<u8>,
                      lim: Limits)
    requires Begun(lines, chunks, lim) && WellFormed(c, lim) && |Content(chunks)| + |c.data| <= lim.capacity
    requires OnlyCRs(crs) && b != CR && b != LF
    ensures Decode(Header(lines) + Encoded(chunks) + (c.header + CRLF + c.data + (crs + ([b] + more))), lim)
            == (Returned(552), Content(chunks) + c.data)
  {
    hide Decode, Chunked, Header, Encoded, Content, Trailer, Begun, WellFormed, HeldBehindChunks;
    var behind, room := crs + ([b] + more), lim.capacity - |Content(chunks)|;
    BehindChunks(lines, chunks, c.header + CRLF + c.data + behind, lim);
    ChunkIs(c, HeldBehindChunks(lines, chunks), behind, room, lim);
    NoLineFeed(crs, b, more, Kept(c.header), room - |c.data|, lim);
    assert c.data + [] == c.data;
  }

  lemma NoLineFeed(crs: seq<u8>, b: u8, more: seq<u8>, held: seq<u8>, room: nat, lim: Limits)
    requires OnlyCRs(crs) && b != CR && b != LF
    ensures Trailer(crs + ([b] + more), held, room, lim) == (552, [])
  {
    LeadingCRsAre(crs, [b] + more);
    assert (crs + ([b] + more))[|crs|] == b;
  }

  /** A well-formed chunk in front. */
  lemma ChunkIs(c: Chunk, held: seq<u8>, behind: seq<u8>, room: nat, lim: Limits)
    requires WellFormed(c, lim) && |c.data| <= room
    ensures var r := Trailer(behind, Kept(c.header), room - |c.data|, lim);
            Chunked(c.header + CRLF + c.data + behind, held, room, lim) == (r.0, c.data + r.1)
  {
    var line, s := c.header + [CR], c.header + CRLF + c.data + behind;
    assert s == line + [LF] + (c.data + behind);
    assert LF !in line;
    FirstLineIs(line, c.data + behind);
    HeaderIsString(c.header);
    hide Strtoul, Trailer, LineLength, LineString, OnlyCRs, Kept;
    assert s[..|line|] == line && s[|line| + 1..] == c.data + behind;
    assert (c.data + behind)[..|c.data|] == c.data && (c.data + behind)[|c.data|..] == behind;
  }

  lemma HeaderIsString(s: seq<u8>)
    requires LineText(s)
    ensures !OnlyCRs(s + [CR]) && LineString(s + [CR]) == Kept(s)
  {
    NoCR(s);
    WithoutCRSnoc(s, CR);
    assert forall c <- Kept(s) :: c in s;
    NoNul(Kept(s));
    assert s[0] in s && s[0] in s + [CR];
  }

  // -------------------------------------------------------------------------
  // When a chunked response is a success
  // -------------------------------------------------------------------------

  /** A chunk as it is received: its header line, its data, and the carriage returns in
      front of the line feed behind them. */
  datatype Piece = Piece(line: seq<u8>, data: seq<u8>, crs: seq<u8>)

  /** The string in `Line` behind the line is a number from its first character to its
      last, and it is `size`. */
  predicate HasSize(line: seq<u8>, held: seq<u8>, size: nat, lim: Limits) {
    && LF !in line
    && Strtoul(StringOf(line, held), 16, lim.ulongMax) == Number(size, |StringOf(line, held)|)
  }

  predicate PieceOk(c: Piece, held: seq<u8>, lim: Limits) {
    c.data != [] && HasSize(c.line, held, |c.data|, lim) && OnlyCRs(c.crs)
  }

  function Received(c: Piece): seq<u8> {
    c.line + [LF] + (c.data + (c.crs + [LF]))
  }

  /** Chunks and a line with size 0, with anything behind it. */
  predicate IsChunks(s: seq<u8>, pieces: seq<Piece>, last: seq<u8>, more: seq<u8>, held: seq<u8>, lim: Limits) {
    if pieces == [] then HasSize(last, held, 0, lim) && s == last + [LF] + more
    else
      var c := pieces[0];
      && PieceOk(c, held, lim)
      && |Received(c)| <= |s| && s[..|Received(c)|] == Received(c)
      && IsChunks(s[|Received(c)|..], pieces[1..], last, more, StringOf(c.line, held), lim)
  }

  function DataOf(pieces: seq<Piece>): seq<u8> {
    if pieces == [] then [] else pieces[0].data + DataOf(pieces[1..])
  }

  /** The header line of a chunk that fits, and its data. */
  lemma PieceRead(c: Piece, rest: seq<u8>, held: seq<u8>, room: nat, lim: Limits)
    requires PieceOk(c, held, lim) && |c.data| <= room
    ensures var r := Chunked(rest, StringOf(c.line, held), room - |c.data|, lim);
            Chunked(Received(c) + rest, held, room, lim) == (r.0, c.data + r.1)
  {
    var behind := c.crs + [LF] + rest;
    var text := StringOf(c.line, held);
    hide Chunked, Data, Trailer, HasSize, StringOf, OnlyCRs;
    ReceivedParts(c, rest);
    LineOfPiece(c.line, c.data + behind, held, |c.data|, room, lim);
    DataOfPiece(c.data, behind, text, room, lim);
    TrailerOfPiece(c.crs, rest, text, room - |c.data|, lim);
  }

  lemma ReceivedParts(c: Piece, rest: seq<u8>)
    ensures Received(c) + rest == c.line + [LF] + (c.data + (c.crs + [LF] + rest))
  {
  }

  lemma LineOfPiece(line: seq<u8>, rest: seq<u8>, held: seq<u8>, size: nat, room: nat, lim: Limits)
    requires HasSize(line, held, size, lim) && size > 0
    ensures Chunked(line + [LF] + rest, held, room, lim) == Data(rest, size, StringOf(line, held), room, lim)
  {
    FirstLineIs(line, rest);
    hide StringOf, Strtoul, LineLength, Data;
    assert (line + [LF] + rest)[..|line|] == line && (line + [LF] + rest)[|line| + 1..] == rest;
  }

  lemma DataOfPiece(data: seq<u8>, behind: seq<u8>, held: seq<u8>, room: nat, lim: Limits)
    requires 0 < |data| <= room
    ensures var t := Trailer(behind, held, room - |data|, lim);
            Data(data + behind, |data|, held, room, lim) == (t.0, data + t.1)
  {
    hide Trailer;
    assert (data + behind)[..|data|] == data && (data + behind)[|data|..] == behind;
  }

  lemma TrailerOfPiece(crs: seq<u8>, rest: seq<u8>, held: seq<u8>, room: nat, lim: Limits)
    requires OnlyCRs(crs)
    ensures Trailer(crs + [LF] + rest, held, room, lim) == Chunked(rest, held, room, lim)
  {
    assert crs + [LF] + rest == crs + ([LF] + rest);
    LeadingCRsAre(crs, [LF] + rest);
    hide Chunked, LeadingCRs;
    assert (crs + [LF] + rest)[|crs| + 1..] == rest;
  }

  lemma LastRead(last: seq<u8>, more: seq<u8>, held: seq<u8>, room: nat, lim: Limits)
    requires HasSize(last, held, 0, lim)
    ensures Chunked(last + [LF] + more, held, room, lim) == (200, [])
  {
    FirstLineIs(last, more);
    hide StringOf, Strtoul, LineLength, Data;
    assert (last + [LF] + more)[..|last|] == last;
  }

  /** Well-formed chunks that fit are a success with their data. */
  lemma {:induction false} ChunksSucceed(s: seq<u8>, pieces: seq<Piece>, last: seq<u8>, more: seq<u8>, held: seq<u8>,
                                         room: nat, lim: Limits)
    requires IsChunks(s, pieces, last, more, held, lim) && |DataOf(pieces)| <= room
    ensures Chunked(s, held, room, lim) == (200, DataOf(pieces))
    decreases |pieces|
  {
    hide Chunked, HasSize, Received, StringOf;
    if pieces == [] {
      LastRead(last, more, held, room, lim);
    } else {
      var c := pieces[0];
      var rest := s[|Received(c)|..];
      ChunksSucceed(rest, pieces[1..], last, more, StringOf(c.line, held), room - |c.data|, lim);
      PieceRead(c, rest, held, room, lim);
      assert s == Received(c) + rest;
    }
  }

  /** A chunk of the received string whose line and data are these. */
  lemma PieceFound(s: seq<u8>, held: seq<u8>, room: nat, lim: Limits) returns (c: Piece)
    requires Chunked(s, held, room, lim).0 == 200 && LineLength(s) < |s|
    requires Strtoul(StringOf(s[..LineLength(s)], held), 16, lim.ulongMax).value > 0
    ensures PieceOk(c, held, lim) && |c.data| <= room
    ensures |Received(c)| <= |s| && s[..|Received(c)|] == Received(c)
  {
    var n := LineLength(s);
    var text := StringOf(s[..n], held);
    var rest, size := s[n + 1..], Strtoul(text, 16, lim.ulongMax).value;
    SizeAndData(s, held, room, lim);
    hide Chunked, LineLength, StringOf, Strtoul, LeadingCRs;
    DataThere(rest, size, text, room, lim);
    hide Data, Trailer, OnlyCRs;
    var behind := rest[size..];
    c := Piece(s[..n], rest[..size], behind[..LeadingCRs(behind)]);
    PieceInFront(s, n, size, LeadingCRs(behind));
  }

  lemma SizeAndData(s: seq<u8>, held: seq<u8>, room: nat, lim: Limits)
    requires Chunked(s, held, room, lim).0 == 200 && LineLength(s) < |s|
    requires Strtoul(StringOf(s[..LineLength(s)], held), 16, lim.ulongMax).value > 0
    ensures var text := StringOf(s[..LineLength(s)], held);
            var number := Strtoul(text, 16, lim.ulongMax);
            && HasSize(s[..LineLength(s)], held, number.value, lim)
            && Data(s[LineLength(s) + 1..], number.value, text, room, lim).0 == 200
  {
    hide LineLength, StringOf, Strtoul, Data;
  }

  lemma PieceInFront(s: seq<u8>, n: nat, size: nat, k: nat)
    requires n + 1 + size + k < |s| && s[n] == LF && s[n + 1 + size + k] == LF
    ensures var c := Piece(s[..n], s[n + 1..][..size], s[n + 1..][size..][..k]);
            |Received(c)| == n + 1 + size + k + 1 && s[..|Received(c)|] == Received(c)
  {
    var rest := s[n + 1..];
    var behind := rest[size..];
    assert behind[k] == s[n + 1 + size + k];
    OneLonger(behind, k);
    Joined(rest, size, k + 1);
    OneLonger(s, n);
    Joined(s, n + 1, size + (k + 1));
  }

  lemma OneLonger(s: seq<u8>, n: nat)
    requires n < |s|
    ensures s[..n + 1] == s[..n] + [s[n]]
  {
  }

  lemma Joined(s: seq<u8>, m: nat, n: nat)
    requires m + n <= |s|
    ensures s[..m + n] == s[..m] + s[m..][..n]
  {
  }

  lemma DataThere(s: seq<u8>, size: nat, held: seq<u8>, room: nat, lim: Limits)
    requires size > 0 && Data(s, size, held, room, lim).0 == 200
    ensures size <= |s| && size <= room
    ensures var behind := s[size..]; LeadingCRs(behind) < |behind| && behind[LeadingCRs(behind)] == LF
  {
    hide Chunked, LeadingCRs;
  }

  lemma LastFound(s: seq<u8>, held: seq<u8>, room: nat, lim: Limits)
    requires Chunked(s, held, room, lim).0 == 200
    ensures var n := LineLength(s);
            && n < |s|
            && (Strtoul(StringOf(s[..n], held), 16, lim.ulongMax).value == 0 ==>
                  && IsChunks(s, [], s[..n], s[n + 1..], held, lim)
                  && Chunked(s, held, room, lim).1 == [])
  {
    var n := LineLength(s);
    hide LineLength, StringOf, Strtoul, Data;
    if n < |s| {
      assert s == s[..n] + [LF] + s[n + 1..];
    }
  }

  /** And nothing else is. */
  lemma {:induction false} SuccessIsChunks(s: seq<u8>, held: seq<u8>, room: nat, lim: Limits)
      returns (pieces: seq<Piece>, last: seq<u8>, more: seq<u8>)
    requires Chunked(s, held, room, lim).0 == 200
    ensures IsChunks(s, pieces, last, more, held, lim) && DataOf(pieces) == Chunked(s, held, room, lim).1
    decreases |s|
  {
    hide Chunked, LineLength, StringOf, Strtoul, HasSize;
    LastFound(s, held, room, lim);
    var n := LineLength(s);
    if Strtoul(StringOf(s[..n], held), 16, lim.ulongMax).value == 0 {
      return [], s[..n], s[n + 1..];
    }
    var c := PieceFound(s, held, room, lim);
    assert |Received(c)| > 0;
    var rest := s[|Received(c)|..];
    hide Received;
    PieceRead(c, rest, held, room, lim);
    assert s == Received(c) + rest;
    pieces, last, more := SuccessIsChunks(rest, StringOf(c.line, held), room - |c.data|, lim);
    OneMorePiece(c, pieces);
    pieces := [c] + pieces;
  }

  lemma OneMorePiece(c: Piece, pieces: seq<Piece>)
    ensures DataOf([c] + pieces) == c.data + DataOf(pieces) && ([c] + pieces)[1..] == pieces
  {
  }

  /** The content is not longer than the buffer. */
  lemma ChunkedIff(s: seq<u8>, held: seq<u8>, room: nat, content: seq<u8>, lim: Limits)
    ensures Chunked(s, held, room, lim) == (200, content)
            <==> |content| <= room && exists pieces, last, more ::
                      IsChunks(s, pieces, last, more, held, lim) && content == DataOf(pieces)
  {
    hide Chunked, IsChunks;
    if Chunked(s, held, room, lim) == (200, content) {
      var pieces, last, more := SuccessIsChunks(s, held, room, lim);
    }
    if |content| <= room {
      forall pieces, last, more | IsChunks(s, pieces, last, more, held, lim) && content == DataOf(pieces)
        ensures Chunked(s, held, room, lim) == (200, content)
      {
        ChunksSucceed(s, pieces, last, more, held, room, lim);
      }
    }
  }

  /** A chunked response is a success exactly if well-formed chunks that fit and a line
      with size 0 follow its header; their data is the content. */
  lemma ChunkedSuccessIff(lines: seq<seq<u8>>, s: seq<u8>, content: seq<u8>, lim: Limits)
    requires AcceptedHeader(lines, lim) && ChunkedHeader(lines)
    ensures Decode(Header(lines) + s, lim) == (Returned(200), content)
            <==> |content| <= lim.capacity
                 && exists pieces, last, more ::
                      IsChunks(s, pieces, last, more, HeldBehind(lines), lim) && content == DataOf(pieces)
  {
    hide Chunked, Header, HeldBehind, IsChunks, DataOf, Feed, Decode;
    BehindHeader(lines, s, lim);
    ChunkedIff(s, HeldBehind(lines), lim.capacity, content, lim);
  }

  /** Behind the header alone. */
  lemma BehindHeader(lines: seq<seq<u8>>, s: seq<u8>, lim: Limits)
    requires AcceptedHeader(lines, lim) && ChunkedHeader(lines)
    ensures var r := Chunked(s, HeldBehind(lines), lim.capacity, lim);
            Decode(Header(lines) + s, lim) == (Returned(r.0), r.1)
  {
    HeaderAtChunk(lines, lim);
    hide Chunked, Header, HeldBehind, AcceptedHeader, ChunkedHeader, Feed;
    FromFirstChunk(Header(lines), s, lim);
  }

  lemma HeaderAtChunk(lines: seq<seq<u8>>, lim: Limits)
    requires AcceptedHeader(lines, lim) && ChunkedHeader(lines)
    ensures var p := Feed(START, Header(lines), lim);
            AtChunk(p, lim) && p.out == [] && p.d.text == HeldBehind(lines)
  {
    hide Header, HeldBehind, AcceptedHeader, Feed;
    HeaderFed(lines, lim);
    HeaderHolds(lines, lim);
  }

  lemma FromFirstChunk(front: seq<u8>, s: seq<u8>, lim: Limits)
    requires AtChunk(Feed(START, front, lim), lim) && Feed(START, front, lim).out == []
    ensures var r := Chunked(s, Feed(START, front, lim).d.text, lim.capacity, lim);
            Decode(front + s, lim) == (Returned(r.0), r.1)
  {
    hide Feed, Chunked, EndsAs;
    FromChunk(front, s, lim);
    FromEmpty(Feed(START, front + s, lim), Chunked(s, Feed(START, front, lim).d.text, lim.capacity, lim));
  }
}
