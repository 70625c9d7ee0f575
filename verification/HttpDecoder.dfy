/** What the receive loop of httpclient.cpp makes of a response, byte by byte. */
module HttpDecoder {
  import opened Bytes
  import opened CText

  /** The longest string `Line` holds. */
  const LINE_MAX := 2047

  const OK := 200
  const CONNECTION_RESET := 550
  const INVALID_RESPONSE_CODE := 551
  const INVALID_CHUNK_HEADER := 552
  const CONTENT_BUFFER_TOO_SMALL := 553

  /** The size of the caller's buffer, and ULONG_MAX. */
  datatype Limits = Limits(capacity: u32, ulongMax: nat)

  /** A status that `Request` returns, or a null token passed to strtoul. */
  datatype Ending = Returned(status: u32) | NullToken

  /** The variables of the loop; `text` is the string in `Line`. */
  datatype Decoder = Decoder(state: nat, nLine: u32, nChar: nat, chunked: bool, ulBytes: nat, text: seq<u8>)

  datatype Progress = Going(d: Decoder, out: seq<u8>) | Ended(ending: Ending, out: seq<u8>)

  // -------------------------------------------------------------------------
  // Lines
  // -------------------------------------------------------------------------

  function StatusOf(token: seq<u8>, ulongMax: nat): u32 {
    var number := Strtoul(token, 10, ulongMax);
    if number.end != |token| then INVALID_RESPONSE_CODE else number.value % 0x1_0000_0000
  }

  datatype StatusLine = Accepted(left: seq<u8>) | Refused(ending: Ending)

  /** The first line. */
  function CheckStatus(s: seq<u8>, ulongMax: nat): StatusLine {
    match NextToken(s, {'/' as int})
    case NoToken => Refused(NullToken)
    case Token(protocol, left, rest) =>
      if protocol != Codes("HTTP") then Refused(Returned(StatusOf(protocol, ulongMax)))
      else
        match NextToken(rest, {SPACE})
        case NoToken => Refused(NullToken)
        case Token(_, _, rest2) =>
          match NextToken(rest2, {SPACE})
          case NoToken => Refused(NullToken)
          case Token(code, _, _) =>
            if code != Codes("200") then Refused(Returned(StatusOf(code, ulongMax))) else Accepted(left)
  }

  /** Whether a header line selects the chunked transfer coding. */
  predicate SelectsChunked(s: seq<u8>) {
    match NextToken(s, {':' as int, SPACE})
    case NoToken => false
    case Token(name, _, rest) =>
      && EqualIgnoringCase(name, Codes("Transfer-Encoding"))
      && match NextToken(rest, {SPACE})
         case NoToken => false
         case Token(value, _, _) => EqualIgnoringCase(value, Codes("chunked"))
  }

  /** The string that the first strtok_r on a header line leaves. */
  function LeftOf(s: seq<u8>): seq<u8> {
    match NextToken(s, {':' as int, SPACE})
    case NoToken => s
    case Token(_, left, _) => left
  }

  /** Accumulating a character: `Line` ends at the first NUL put into it. */
  function PutChar(d: Decoder, c: u8): Decoder {
    if d.nChar >= LINE_MAX then d
    else
      var so := if d.nChar == 0 then [] else d.text;
      d.(text := if |so| == d.nChar && c != NUL then so + [c] else so, nChar := d.nChar + 1)
  }

  // -------------------------------------------------------------------------
  // One byte
  // -------------------------------------------------------------------------

  function EndOfHeaderLine(d: Decoder, out: seq<u8>, lim: Limits): Progress {
    if d.nChar == 0 then Going(d.(state := if d.chunked then 2 else 1), out)
    else if d.nLine == 0 then StatusLineDone(d, out, CheckStatus(d.text, lim.ulongMax))
    else Going(FieldDone(d, SelectsChunked(d.text), LeftOf(d.text)), out)
  }

  function StatusLineDone(d: Decoder, out: seq<u8>, check: StatusLine): Progress {
    match check
    case Refused(ending) => Ended(ending, out)
    case Accepted(left) => Going(d.(nLine := 1, nChar := 0, text := left), out)
  }

  /** One more, on 32 bits. */
  function Increment(n: u32): u32 {
    if n == 0xFFFF_FFFF then 0 else n + 1
  }

  function FieldDone(d: Decoder, selects: bool, left: seq<u8>): Decoder {
    d.(nLine := Increment(d.nLine), nChar := 0, chunked := d.chunked || selects, text := left)
  }

  function EndOfChunkHeader(d: Decoder, out: seq<u8>, lim: Limits): Progress {
    var number := Strtoul(d.text, 16, lim.ulongMax);
    if number.end != |d.text| then Ended(Returned(INVALID_CHUNK_HEADER), out)
    else Going(d.(ulBytes := number.value, state := if number.value != 0 then 3 else 5), out)
  }

  function Copy(d: Decoder, out: seq<u8>, c: u8, lim: Limits): Progress {
    if |out| >= lim.capacity then Ended(Returned(CONTENT_BUFFER_TOO_SMALL), out)
    else Going(d, out + [c])
  }

  function Step(p: Progress, c: u8, lim: Limits): Progress {
    if p.Ended? then p
    else
      var d, out := p.d, p.out;
      if d.state == 0 then
        if c == CR then p else if c == LF then EndOfHeaderLine(d, out, lim) else Going(PutChar(d, c), out)
      else if d.state == 1 then Copy(d, out, c, lim)
      else if d.state == 2 then
        if c == CR then p else if c == LF then EndOfChunkHeader(d, out, lim) else Going(PutChar(d, c), out)
      else if d.state == 3 then
        var left := if d.ulBytes > 0 then d.ulBytes - 1 else lim.ulongMax;
        Copy(d.(ulBytes := left, state := if left == 0 then 4 else 3), out, c, lim)
      else if d.state == 4 then
        if c == CR then p
        else if c != LF then Ended(Returned(INVALID_CHUNK_HEADER), out)
        else Going(d.(nChar := 0, state := 2), out)
      else p
  }

  function Feed(p: Progress, s: seq<u8>, lim: Limits): Progress {
    if s == [] then p else Step(Feed(p, s[..|s| - 1], lim), s[|s| - 1], lim)
  }

  const START := Going(Decoder(0, 0, 0, false, 0, []), [])

  /** When the peer has closed, or the end of the chunks was seen. */
  function Finish(p: Progress): (Ending, seq<u8>) {
    match p
    case Ended(ending, out) => (ending, out)
    case Going(d, out) => (Returned(if d.state < 5 && d.state != 1 then CONNECTION_RESET else OK), out)
  }

  /** The result of `Request` for a response, and what it has put into the buffer. */
  function Decode(response: seq<u8>, lim: Limits): (Ending, seq<u8>) {
    Finish(Feed(START, response, lim))
  }

  lemma {:induction false} FeedConcat(p: Progress, s: seq<u8>, t: seq<u8>, lim: Limits)
    ensures Feed(p, s + t, lim) == Feed(Feed(p, s, lim), t, lim)
  {
    if t == [] {
      assert s + t == s;
    } else {
      assert (s + t)[..|s + t| - 1] == s + t[..|t| - 1];
      FeedConcat(p, s, t[..|t| - 1], lim);
    }
  }

  lemma FeedOne(p: Progress, c: u8, lim: Limits)
    ensures Feed(p, [c], lim) == Step(p, c, lim)
  {
    assert [c][..0] == [];
    assert Feed(p, [], lim) == p;
  }

  // -------------------------------------------------------------------------
  // Whole lines
  // -------------------------------------------------------------------------

  /** A line's text, and what of it fits into `Line`. */
  predicate LineText(s: seq<u8>) {
    s != [] && Free(s, {NUL, CR, LF})
  }

  function Kept(s: seq<u8>): (r: seq<u8>)
    ensures |r| <= LINE_MAX
  {
    if |s| <= LINE_MAX then s else s[..LINE_MAX]
  }

  const CRLF: seq<u8> := [CR, LF]

  /** In the middle of a line, after the characters `s` of it. */
  function AtLine(p: Progress, s: seq<u8>): Progress
    requires p.Going?
  {
    if s == [] then p else Going(p.d.(text := Kept(s), nChar := |Kept(s)|), p.out)
  }

  lemma OneMoreChar(p: Progress, s: seq<u8>, c: u8, lim: Limits)
    requires p.Going? && (p.d.state == 0 || p.d.state == 2) && p.d.nChar == 0
    requires c != NUL && c != CR && c != LF
    ensures Step(AtLine(p, s), c, lim) == AtLine(p, s + [c])
  {
    if |s| >= LINE_MAX {
      assert Kept(s + [c]) == Kept(s);
    }
  }

  lemma {:induction false} LineFed(p: Progress, s: seq<u8>, lim: Limits)
    requires p.Going? && (p.d.state == 0 || p.d.state == 2) && p.d.nChar == 0 && Free(s, {NUL, CR, LF})
    ensures Feed(p, s, lim) == AtLine(p, s)
  {
    if s != [] {
      var n := |s| - 1;
      assert s[n] in s && forall x <- s[..n] :: x in s;
      assert s == s[..n] + [s[n]];
      LineFed(p, s[..n], lim);
      OneMoreChar(p, s[..n], s[n], lim);
    }
  }

  lemma CrLfFed(p: Progress, lim: Limits)
    requires p.Going? && p.d.state in {0, 2, 4}
    ensures Feed(p, CRLF, lim) == Step(p, LF, lim)
  {
    assert CRLF == [CR] + [LF];
    FeedConcat(p, [CR], [LF], lim);
    FeedOne(p, CR, lim);
    FeedOne(p, LF, lim);
  }

  lemma WholeLineFed(p: Progress, s: seq<u8>, lim: Limits)
    requires p.Going? && (p.d.state == 0 || p.d.state == 2) && p.d.nChar == 0 && LineText(s)
    ensures Feed(p, s + CRLF, lim) == Step(Going(p.d.(text := Kept(s), nChar := |Kept(s)|), p.out), LF, lim)
  {
    FeedConcat(p, s, CRLF, lim);
    LineFed(p, s, lim);
    CrLfFed(Feed(p, s, lim), lim);
  }

  // -------------------------------------------------------------------------
  // The header
  // -------------------------------------------------------------------------

  function Lines(lines: seq<seq<u8>>): seq<u8> {
    if lines == [] then [] else Lines(lines[..|lines| - 1]) + (lines[|lines| - 1] + CRLF)
  }

  /** A response header that the client accepts: a status line with code 200 and
      any further lines. */
  predicate AcceptedHeader(lines: seq<seq<u8>>, lim: Limits) {
    && 0 < |lines| < 0x1_0000_0000
    && (forall s <- lines :: LineText(s))
    && CheckStatus(Kept(lines[0]), lim.ulongMax).Accepted?
  }

  predicate ChunkedHeader(lines: seq<seq<u8>>) {
    |lines| > 1 && (ChunkedHeader(lines[..|lines| - 1]) || SelectsChunked(Kept(lines[|lines| - 1])))
  }

  /** Ready for the next header line, after `n` of them. */
  predicate AfterLines(p: Progress, n: nat, chunked: bool) {
    && p.Going? && p.out == []
    && p.d.state == 0 && p.d.nLine == n && p.d.nChar == 0 && p.d.chunked == chunked
  }

  lemma HeaderLineFed(p: Progress, s: seq<u8>, n: nat, chunked: bool, lim: Limits)
    requires LineText(s) && AfterLines(p, n, chunked) && n < 0xFFFF_FFFF
    requires n == 0 ==> CheckStatus(Kept(s), lim.ulongMax).Accepted?
    ensures AfterLines(Feed(p, s + CRLF, lim), n + 1, chunked || (n > 0 && SelectsChunked(Kept(s))))
  {
    var line := Kept(s);
    var d := p.d.(text := line, nChar := |line|);
    WholeLineFed(p, s, lim);
    if n == 0 {
      StatusLineFed(d, CheckStatus(line, lim.ulongMax), chunked);
    } else {
      FieldFed(d, SelectsChunked(line), LeftOf(line), n, chunked);
    }
  }

  lemma StatusLineFed(d: Decoder, check: StatusLine, chunked: bool)
    requires d.state == 0 && d.nLine == 0 && d.chunked == chunked && check.Accepted?
    ensures AfterLines(StatusLineDone(d, [], check), 1, chunked)
  {
  }

  lemma FieldFed(d: Decoder, selects: bool, left: seq<u8>, n: nat, chunked: bool)
    requires d.state == 0 && d.nLine == n < 0xFFFF_FFFF && d.chunked == chunked
    ensures AfterLines(Going(FieldDone(d, selects, left), []), n + 1, chunked || selects)
  {
  }

  lemma {:induction false} LinesFed(lines: seq<seq<u8>>, lim: Limits)
    requires AcceptedHeader(lines, lim)
    ensures AfterLines(Feed(START, Lines(lines), lim), |lines|, ChunkedHeader(lines))
  {
    var n := |lines| - 1;
    var s := lines[n];
    assert s in lines;
    if n == 0 {
      assert Lines(lines[..n]) == [];
    } else {
      assert lines[..n][0] == lines[0];
      LinesFed(lines[..n], lim);
    }
    FeedConcat(START, Lines(lines[..n]), s + CRLF, lim);
    HeaderLineFed(Feed(START, Lines(lines[..n]), lim), s, n, ChunkedHeader(lines[..n]), lim);
  }

  function Header(lines: seq<seq<u8>>): seq<u8> {
    Lines(lines) + CRLF
  }

  lemma HeaderFed(lines: seq<seq<u8>>, lim: Limits)
    requires AcceptedHeader(lines, lim)
    ensures var p := Feed(START, Header(lines), lim);
            && p.Going? && p.out == [] && p.d.nChar == 0
            && p.d.state == if ChunkedHeader(lines) then 2 else 1
  {
    LinesFed(lines, lim);
    FeedConcat(START, Lines(lines), CRLF, lim);
    CrLfFed(Feed(START, Lines(lines), lim), lim);
  }

  // -------------------------------------------------------------------------
  // Content
  // -------------------------------------------------------------------------

  /** Copying stops at the end of the caller's buffer. */
  function Fitting(content: seq<u8>, lim: Limits): (Ending, seq<u8>) {
    if |content| <= lim.capacity then (Returned(OK), content)
    else (Returned(CONTENT_BUFFER_TOO_SMALL), content[..lim.capacity])
  }

  /** After copying `s` in state 1, or in state 3 if the chunk has so many bytes. */
  function Copied(p: Progress, s: seq<u8>, lim: Limits): Progress
    requires p.Going?
  {
    if s == [] then p
    else if |p.out| + |s| > lim.capacity then
      Ended(Returned(CONTENT_BUFFER_TOO_SMALL), (p.out + s)[..lim.capacity])
    else if p.d.state == 3 && |s| <= p.d.ulBytes then
      Going(p.d.(ulBytes := p.d.ulBytes - |s|, state := if |s| == p.d.ulBytes then 4 else 3), p.out + s)
    else Going(p.d, p.out + s)
  }

  lemma OneMoreByte(p: Progress, s: seq<u8>, c: u8, lim: Limits)
    requires p.Going? && |p.out| <= lim.capacity
    requires p.d.state == 1 || (p.d.state == 3 && |s| < p.d.ulBytes)
    ensures Step(Copied(p, s, lim), c, lim) == Copied(p, s + [c], lim)
  {
    assert p.out + (s + [c]) == (p.out + s) + [c];
    if s == [] {
      assert p.out + s == p.out;
    }
    if |p.out| + |s| >= lim.capacity {
      assert ((p.out + s) + [c])[..lim.capacity] == (p.out + s)[..lim.capacity];
    }
  }

  lemma {:induction false} ContentFed(p: Progress, s: seq<u8>, lim: Limits)
    requires p.Going? && |p.out| <= lim.capacity
    requires p.d.state == 1 || (p.d.state == 3 && |s| <= p.d.ulBytes)
    ensures Feed(p, s, lim) == Copied(p, s, lim)
  {
    if s != [] {
      var n := |s| - 1;
      assert s == s[..n] + [s[n]];
      ContentFed(p, s[..n], lim);
      OneMoreByte(p, s[..n], s[n], lim);
    }
  }

  /** A response that is not chunked: its content is what follows the header. */
  lemma PlainResponse(lines: seq<seq<u8>>, content: seq<u8>, lim: Limits)
    requires AcceptedHeader(lines, lim) && !ChunkedHeader(lines)
    ensures Decode(Header(lines) + content, lim) == Fitting(content, lim)
  {
    HeaderFed(lines, lim);
    FeedConcat(START, Header(lines), content, lim);
    var p := Feed(START, Header(lines), lim);
    ContentFed(p, content, lim);
    assert [] + content == content;
  }

  // -------------------------------------------------------------------------
  // Chunks (section 4.1 of RFC 7230)
  // -------------------------------------------------------------------------

  /** A chunk with the number in its header line. */
  datatype Chunk = Chunk(header: seq<u8>, data: seq<u8>)

  /** The header line is a number, and it is `size`. */
  predicate SizeLine(s: seq<u8>, size: nat, lim: Limits) {
    LineText(s) && Strtoul(Kept(s), 16, lim.ulongMax) == Number(size, |Kept(s)|)
  }

  predicate WellFormed(c: Chunk, lim: Limits) {
    c.data != [] && SizeLine(c.header, |c.data|, lim)
  }

  function Encoded(chunks: seq<Chunk>): seq<u8> {
    if chunks == [] then []
    else
      var c := chunks[|chunks| - 1];
      Encoded(chunks[..|chunks| - 1]) + (c.header + CRLF + c.data + CRLF)
  }

  function Content(chunks: seq<Chunk>): seq<u8> {
    if chunks == [] then [] else Content(chunks[..|chunks| - 1]) + chunks[|chunks| - 1].data
  }

  lemma {:induction false} EndedStays(p: Progress, s: seq<u8>, lim: Limits)
    requires p.Ended? || p.d.state > 4
    ensures Feed(p, s, lim) == p
  {
    if s != [] {
      EndedStays(p, s[..|s| - 1], lim);
    }
  }

  /** A progress ready for a chunk header, with content `out`, or already over. */
  predicate AfterChunks(p: Progress, content: seq<u8>, lim: Limits) {
    if |content| <= lim.capacity then p.Going? && p.d.state == 2 && p.d.nChar == 0 && p.out == content
    else p == Ended(Returned(CONTENT_BUFFER_TOO_SMALL), content[..lim.capacity])
  }

  lemma ChunkFed(p: Progress, content: seq<u8>, c: Chunk, lim: Limits)
    requires AfterChunks(p, content, lim) && WellFormed(c, lim)
    ensures AfterChunks(Feed(p, c.header + CRLF + c.data + CRLF, lim), content + c.data, lim)
  {
    var head := c.header + CRLF;
    if p.Ended? {
      EndedStays(p, head + c.data + CRLF, lim);
      assert (content + c.data)[..lim.capacity] == content[..lim.capacity];
    } else {
      WholeLineFed(p, c.header, lim);
      FeedConcat(p, head + c.data, CRLF, lim);
      FeedConcat(p, head, c.data, lim);
      var q := Feed(p, head, lim);
      assert q.d.state == 3 && q.d.ulBytes == |c.data|;
      ContentFed(q, c.data, lim);
      var r := Feed(q, c.data, lim);
      if r.Going? {
        CrLfFed(r, lim);
      } else {
        EndedStays(r, CRLF, lim);
      }
    }
  }

  lemma {:induction false} ChunksFed(p: Progress, chunks: seq<Chunk>, lim: Limits)
    requires AfterChunks(p, [], lim) && forall c <- chunks :: WellFormed(c, lim)
    ensures AfterChunks(Feed(p, Encoded(chunks), lim), Content(chunks), lim)
  {
    if chunks != [] {
      var n := |chunks| - 1;
      var c := chunks[n];
      ChunksFed(p, chunks[..n], lim);
      FeedConcat(p, Encoded(chunks[..n]), c.header + CRLF + c.data + CRLF, lim);
      assert c in chunks;
      ChunkFed(Feed(p, Encoded(chunks[..n]), lim), Content(chunks[..n]), c, lim);
    }
  }

  /** Decoding undoes the chunked coding, for any chunks that are not empty, if the
      content fits; if not, the buffer is full of its beginning.  What comes behind
      the last chunk does not matter. */
  lemma ChunkedResponse(lines: seq<seq<u8>>, chunks: seq<Chunk>, last: seq<u8>, more: seq<u8>, lim: Limits)
    requires AcceptedHeader(lines, lim) && ChunkedHeader(lines)
    requires (forall c <- chunks :: WellFormed(c, lim)) && SizeLine(last, 0, lim)
    ensures Decode(Header(lines) + Encoded(chunks) + (last + CRLF) + more, lim) == Fitting(Content(chunks), lim)
  {
    var p := ChunksInResponse(lines, chunks, lim);
    var front := Header(lines) + Encoded(chunks);
    FeedConcat(START, front + (last + CRLF), more, lim);
    FeedConcat(START, front, last + CRLF, lim);
    LastFed(p, Content(chunks), last, lim);
    EndedStays(Feed(p, last + CRLF, lim), more, lim);
  }

  /** The line with size 0 ends it. */
  lemma LastFed(p: Progress, content: seq<u8>, last: seq<u8>, lim: Limits)
    requires AfterChunks(p, content, lim) && SizeLine(last, 0, lim)
    ensures var q := Feed(p, last + CRLF, lim);
            (q.Ended? || q.d.state == 5) && Finish(q) == Fitting(content, lim)
  {
    if p.Going? {
      WholeLineFed(p, last, lim);
    } else {
      EndedStays(p, last + CRLF, lim);
    }
  }

  lemma ChunksInResponse(lines: seq<seq<u8>>, chunks: seq<Chunk>, lim: Limits) returns (p: Progress)
    requires AcceptedHeader(lines, lim) && ChunkedHeader(lines) && forall c <- chunks :: WellFormed(c, lim)
    ensures p == Feed(START, Header(lines) + Encoded(chunks), lim) && AfterChunks(p, Content(chunks), lim)
  {
    HeaderFed(lines, lim);
    FeedConcat(START, Header(lines), Encoded(chunks), lim);
    ChunksFed(Feed(START, Header(lines), lim), chunks, lim);
    p := Feed(START, Header(lines) + Encoded(chunks), lim);
  }

  /** A chunked response that is cut off anywhere before the end of its last line is
      never taken for a complete one. */
  lemma CutOffIsNoticed(lines: seq<seq<u8>>, chunks: seq<Chunk>, last: seq<u8>, n: nat, lim: Limits)
    requires AcceptedHeader(lines, lim) && ChunkedHeader(lines) && |Content(chunks)| <= lim.capacity
    requires (forall c <- chunks :: WellFormed(c, lim)) && SizeLine(last, 0, lim)
    requires n < |Header(lines) + Encoded(chunks) + (last + CRLF)|
    ensures Decode((Header(lines) + Encoded(chunks) + (last + CRLF))[..n], lim).0 == Returned(CONNECTION_RESET)
  {
    var p := ChunksInResponse(lines, chunks, lim);
    CutOffBehind(Header(lines) + Encoded(chunks), last, n, lim);
  }

  lemma CutOffBehind(front: seq<u8>, last: seq<u8>, n: nat, lim: Limits)
    requires var p := Feed(START, front, lim); p.Going? && p.d.state == 2 && p.d.nChar == 0
    requires LineText(last) && n < |front + (last + CRLF)|
    ensures Decode((front + (last + CRLF))[..n], lim).0 == Returned(CONNECTION_RESET)
  {
    var s := front + (last + [CR]);
    ButLast(front, last);
    BeforeLastLf(Feed(START, front, lim), last, lim);
    FeedConcat(START, front, last + [CR], lim);
    assert s == s[..n] + s[n..] && (s + [LF])[..n] == s[..n];
    FeedConcat(START, s[..n], s[n..], lim);
    NotOverYet(Feed(START, s[..n], lim), s[n..], lim);
  }

  lemma ButLast(front: seq<u8>, last: seq<u8>)
    ensures front + (last + CRLF) == front + (last + [CR]) + [LF]
  {
    assert CRLF == [CR] + [LF];
  }

  lemma BeforeLastLf(p: Progress, last: seq<u8>, lim: Limits)
    requires p.Going? && p.d.state == 2 && p.d.nChar == 0 && LineText(last)
    ensures var q := Feed(p, last + [CR], lim); q.Going? && q.d.state == 2
  {
    FeedConcat(p, last, [CR], lim);
    LineFed(p, last, lim);
    FeedOne(AtLine(p, last), CR, lim);
  }

  /** What can still come to state 2 is not over, and not a plain content. */
  lemma NotOverYet(q: Progress, s: seq<u8>, lim: Limits)
    requires var end := Feed(q, s, lim); end.Going? && end.d.state == 2
    ensures q.Going? && q.d.state < 5 && q.d.state != 1
  {
    if q.Ended? || q.d.state > 4 {
      EndedStays(q, s, lim);
    } else if q.d.state == 1 {
      PlainStays(q, s, lim);
    }
  }

  lemma {:induction false} PlainStays(p: Progress, s: seq<u8>, lim: Limits)
    requires p.Going? && p.d.state == 1
    ensures Feed(p, s, lim).Ended? || Feed(p, s, lim).d.state == 1
  {
    if s != [] {
      PlainStays(p, s[..|s| - 1], lim);
    }
  }
}
