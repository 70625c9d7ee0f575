/** A chunk header line without characters: the string that `Line` held before is
    taken for it. */
module HttpBlankHeaders {
  import opened Bytes
  import opened CText
  import opened HttpDecoder
  import opened HttpResponses

  // -------------------------------------------------------------------------
  // What Line can hold
  // -------------------------------------------------------------------------

  predicate TextOk(s: seq<u8>) {
    |s| <= LINE_MAX && Free(s, {NUL, CR, LF})
  }

  lemma LeftIsText(s: seq<u8>, delims: set<u8>)
    requires TextOk(s) && NextToken(s, delims).Token?
    ensures TextOk(NextToken(s, delims).left)
  {
    TokenParts(s, delims);
    var left := NextToken(s, delims).left;
    assert forall c <- left :: c in s;
  }

  lemma PutIsText(d: Decoder, c: u8)
    requires TextOk(d.text) && c != CR && c != LF
    ensures TextOk(PutChar(d, c).text)
  {
  }

  lemma LineEndIsText(d: Decoder, out: seq<u8>, lim: Limits)
    requires TextOk(d.text)
    ensures var p := EndOfHeaderLine(d, out, lim); p.Going? ==> TextOk(p.d.text)
  {
    if NextToken(d.text, {'/' as int}).Token? {
      LeftIsText(d.text, {'/' as int});
    }
    if NextToken(d.text, {':' as int, SPACE}).Token? {
      LeftIsText(d.text, {':' as int, SPACE});
    }
  }

  lemma StepIsText(p: Progress, c: u8, lim: Limits)
    requires p.Going? ==> TextOk(p.d.text)
    ensures Step(p, c, lim).Going? ==> TextOk(Step(p, c, lim).d.text)
  {
    if p.Going? && c != CR {
      if p.d.state == 0 && c == LF {
        LineEndIsText(p.d, p.out, lim);
      } else if c != LF {
        PutIsText(p.d, c);
      }
    }
  }

  lemma {:induction false} LineHoldsText(front: seq<u8>, lim: Limits)
    ensures var p := Feed(START, front, lim); p.Going? ==> TextOk(p.d.text)
  {
    if front != [] {
      var n := |front| - 1;
      LineHoldsText(front[..n], lim);
      StepIsText(Feed(START, front[..n], lim), front[n], lim);
    }
  }

  // -------------------------------------------------------------------------
  // Decoders that differ in a count nobody looks at any more
  // -------------------------------------------------------------------------

  predicate Alike(p: Progress, q: Progress) {
    || p == q
    || (p.Going? && q.Going? && p.out == q.out && p.d.state >= 3 && q.d == p.d.(nChar := q.d.nChar))
  }

  lemma AlikeStep(p: Progress, q: Progress, c: u8, lim: Limits)
    requires Alike(p, q)
    ensures Alike(Step(p, c, lim), Step(q, c, lim))
  {
  }

  lemma {:induction false} AlikeFeed(p: Progress, q: Progress, s: seq<u8>, lim: Limits)
    requires Alike(p, q)
    ensures Alike(Feed(p, s, lim), Feed(q, s, lim))
  {
    if s != [] {
      var n := |s| - 1;
      AlikeFeed(p, q, s[..n], lim);
      AlikeStep(Feed(p, s[..n], lim), Feed(q, s[..n], lim), s[n], lim);
    }
  }

  lemma BlankHeader(p: Progress, lim: Limits)
    requires p.Going? && p.d.state == 2 && p.d.nChar == 0 && TextOk(p.d.text)
    ensures Alike(Feed(p, CRLF, lim), Feed(p, p.d.text + CRLF, lim))
  {
    var h := p.d.text;
    CrLfFed(p, lim);
    if h == [] {
      assert h + CRLF == CRLF;
    } else {
      WholeLineFed(p, h, lim);
      assert Kept(h) == h;
    }
  }

  /** Whenever the decoder is at the start of a chunk header line, an empty line acts
      as a line with the string that `Line` holds, whatever follows. */
  lemma BlankHeaderRepeats(front: seq<u8>, s: seq<u8>, lim: Limits)
    requires var p := Feed(START, front, lim); p.Going? && p.d.state == 2 && p.d.nChar == 0
    ensures Decode(front + CRLF + s, lim) == Decode(front + (Feed(START, front, lim).d.text + CRLF) + s, lim)
  {
    var p := Feed(START, front, lim);
    LineHoldsText(front, lim);
    BlankHeader(p, lim);
    FeedConcat(START, front + CRLF, s, lim);
    FeedConcat(START, front, CRLF, lim);
    FeedConcat(START, front + (p.d.text + CRLF), s, lim);
    FeedConcat(START, front, p.d.text + CRLF, lim);
    AlikeFeed(Feed(p, CRLF, lim), Feed(p, p.d.text + CRLF, lim), s, lim);
  }

  // -------------------------------------------------------------------------
  // Behind a chunk
  // -------------------------------------------------------------------------

  /** `Line` holds the header of that chunk. */
  lemma ChunkLeavesHeader(p: Progress, content: seq<u8>, c: Chunk, lim: Limits)
    requires AfterChunks(p, content, lim) && p.Going? && WellFormed(c, lim)
    ensures var q := Feed(p, c.header + CRLF + c.data + CRLF, lim); q.Going? ==> q.d.text == Kept(c.header)
  {
    var head := c.header + CRLF;
    WholeLineFed(p, c.header, lim);
    FeedConcat(p, head + c.data, CRLF, lim);
    FeedConcat(p, head, c.data, lim);
    var q := Feed(p, head, lim);
    ContentFed(q, c.data, lim);
    var r := Feed(q, c.data, lim);
    if r.Going? {
      CrLfFed(r, lim);
    } else {
      EndedStays(r, CRLF, lim);
    }
  }

  /** A chunk with the kept part of a header is as good as one with the header. */
  lemma KeptIsHeader(c: Chunk, data: seq<u8>, lim: Limits)
    requires WellFormed(c, lim) && |data| == |c.data|
    ensures WellFormed(Chunk(Kept(c.header), data), lim)
  {
    assert forall x <- Kept(c.header) :: x in c.header;
    assert Kept(Kept(c.header)) == Kept(c.header);
  }

  lemma OneChunkMore(front: seq<u8>, content: seq<u8>, c: Chunk, lim: Limits)
    requires AfterChunks(Feed(START, front, lim), content, lim) && WellFormed(c, lim)
    ensures var p := Feed(START, front + (c.header + CRLF + c.data + CRLF), lim);
            && AfterChunks(p, content + c.data, lim)
            && (p.Going? ==> p.d.text == Kept(c.header))
  {
    var q, one := Feed(START, front, lim), c.header + CRLF + c.data + CRLF;
    FeedConcat(START, front, one, lim);
    ChunkFed(q, content, c, lim);
    if q.Going? {
      ChunkLeavesHeader(q, content, c, lim);
    } else {
      EndedStays(q, one, lim);
    }
  }

  lemma ChunksAndOne(lines: seq<seq<u8>>, chunks: seq<Chunk>, c: Chunk, lim: Limits)
    requires AcceptedHeader(lines, lim) && ChunkedHeader(lines)
    requires (forall x <- chunks :: WellFormed(x, lim)) && WellFormed(c, lim)
    ensures var p := Feed(START, Header(lines) + Encoded(chunks + [c]), lim);
            && AfterChunks(p, Content(chunks) + c.data, lim)
            && (p.Going? ==> p.d.text == Kept(c.header))
  {
    var q := ChunksInResponse(lines, chunks, lim);
    EncodedPlus(chunks, c);
    Associated(Header(lines), Encoded(chunks), c.header + CRLF + c.data + CRLF);
    OneChunkMore(Header(lines) + Encoded(chunks), Content(chunks), c, lim);
  }

  lemma Associated(s: seq<u8>, t: seq<u8>, u: seq<u8>)
    ensures s + t + u == s + (t + u)
  {
  }

  lemma BlankBehind(front: seq<u8>, h: seq<u8>, s: seq<u8>, lim: Limits)
    requires var p := Feed(START, front, lim);
             p.Ended? || (p.d.state == 2 && p.d.nChar == 0 && p.d.text == h)
    ensures Decode(front + CRLF + s, lim) == Decode(front + (h + CRLF) + s, lim)
  {
    if Feed(START, front, lim).Going? {
      BlankHeaderRepeats(front, s, lim);
    } else {
      Associated(front, CRLF, s);
      Associated(front, h + CRLF, s);
      Dead(front, CRLF + s, lim);
      Dead(front, h + CRLF + s, lim);
    }
  }

  lemma EncodedPlus(chunks: seq<Chunk>, c: Chunk)
    ensures Encoded(chunks + [c]) == Encoded(chunks) + (c.header + CRLF + c.data + CRLF)
  {
    assert (chunks + [c])[..|chunks|] == chunks;
  }

  lemma EncodedTwice(chunks: seq<Chunk>, c: Chunk, d: Chunk)
    ensures Encoded(chunks + [c, d]) == Encoded(chunks + [c]) + (d.header + CRLF + d.data + CRLF)
  {
    assert chunks + [c, d] == (chunks + [c]) + [d];
    EncodedPlus(chunks + [c], d);
  }

  /** So an empty line behind a chunk acts as a header with the size of that chunk. */
  lemma BlankHeaderBehindChunk(lines: seq<seq<u8>>, chunks: seq<Chunk>, c: Chunk, data: seq<u8>, s: seq<u8>,
                               lim: Limits)
    requires AcceptedHeader(lines, lim) && ChunkedHeader(lines)
    requires (forall x <- chunks :: WellFormed(x, lim)) && WellFormed(c, lim) && |data| == |c.data|
    ensures var again := Chunk(Kept(c.header), data);
            Decode(Header(lines) + Encoded(chunks + [c]) + CRLF + (data + CRLF + s), lim)
            == Decode(Header(lines) + Encoded(chunks + [c, again]) + s, lim)
  {
    var again := Chunk(Kept(c.header), data);
    ChunksAndOne(lines, chunks, c, lim);
    BlankBehind(Header(lines) + Encoded(chunks + [c]), again.header, data + CRLF + s, lim);
    EncodedTwice(chunks, c, again);
    BackOfAgain(Header(lines), Encoded(chunks + [c]), again, s);
  }

  lemma BackOfAgain(header: seq<u8>, encoded: seq<u8>, c: Chunk, s: seq<u8>)
    ensures header + (encoded + (c.header + CRLF + c.data + CRLF)) + s
            == header + encoded + (c.header + CRLF) + (c.data + CRLF + s)
  {
  }

  lemma Dead(front: seq<u8>, s: seq<u8>, lim: Limits)
    requires Feed(START, front, lim).Ended?
    ensures Decode(front + s, lim) == Finish(Feed(START, front, lim))
  {
    FeedConcat(START, front, s, lim);
    EndedStays(Feed(START, front, lim), s, lim);
  }

  /** A chunk, an empty line, as much data again, and the end: both are taken. */
  lemma TakenTwice(lines: seq<seq<u8>>, c: Chunk, data: seq<u8>, last: seq<u8>, lim: Limits)
    requires AcceptedHeader(lines, lim) && ChunkedHeader(lines)
    requires WellFormed(c, lim) && |data| == |c.data| && SizeLine(last, 0, lim)
    ensures Decode(Header(lines) + Encoded([c]) + CRLF + (data + CRLF + (last + CRLF)), lim)
            == Fitting(c.data + data, lim)
  {
    var again := Chunk(Kept(c.header), data);
    KeptIsHeader(c, data, lim);
    hide Decode, Header, Encoded, Content, WellFormed, SizeLine, AcceptedHeader, ChunkedHeader, Fitting, Kept;
    assert [] + [c] == [c] && [] + [c, again] == [c, again];
    BlankHeaderBehindChunk(lines, [], c, data, last + CRLF, lim);
    ChunkedResponse(lines, [c, again], last, [], lim);
    NothingMore(Header(lines) + Encoded([c, again]) + (last + CRLF));
    TwoContents(c, again);
  }

  /** "5", "hello", an empty line, "world", "0": the client takes ten bytes of content. */
  lemma HelloWorld(lines: seq<seq<u8>>, lim: Limits)
    requires AcceptedHeader(lines, lim) && ChunkedHeader(lines) && lim.ulongMax >= 5
    ensures var hello := Chunk(Codes("5"), Codes("hello"));
            Decode(Header(lines) + Encoded([hello]) + CRLF + (Codes("world") + CRLF + (Codes("0") + CRLF)), lim)
            == Fitting(Codes("hello") + Codes("world"), lim)
  {
    hide Decode, Header, Encoded, AcceptedHeader, ChunkedHeader, Fitting, SizeLine;
    SizeDigits(lim);
    var hello := Chunk(Codes("5"), Codes("hello"));
    assert |hello.data| == 5 == |Codes("world")|;
    TakenTwice(lines, hello, Codes("world"), Codes("0"), lim);
  }

  lemma NothingMore(s: seq<u8>)
    ensures s + [] == s
  {
  }

  lemma TwoContents(c: Chunk, d: Chunk)
    ensures Content([c, d]) == c.data + d.data
  {
    assert [c, d][..1] == [c] && [c][..0] == [];
    assert Content([c]) == [] + c.data == c.data;
  }

  lemma SizeDigits(lim: Limits)
    requires lim.ulongMax >= 5
    ensures SizeLine(Codes("5"), 5, lim) && SizeLine(Codes("0"), 0, lim)
  {
    var five, zero := Codes("5"), Codes("0");
    assert five == [0x35] && zero == [0x30];
    assert five[..0] == [] && zero[..0] == [] && ValueOf([], 16) == 0;
    assert ValueOf(five, 16) == 5 && ValueOf(zero, 16) == 0;
    HexIsSize(five, lim);
    HexIsSize(zero, lim);
  }
}
