/** Responses as servers write them, and the client's deviations from RFC 7230. */
module HttpResponses {
  import opened Bytes
  import opened CText
  import opened HttpDecoder

  // -------------------------------------------------------------------------
  // Status lines
  // -------------------------------------------------------------------------

  const HTTP := Codes("HTTP")

  /** A string without spaces. */
  predicate Word(s: seq<u8>) {
    s != [] && Free(s, {SPACE})
  }

  /** Nothing, or something set off by a space. */
  predicate Apart(s: seq<u8>) {
    s != [] ==> s[0] == SPACE
  }

  function StatusText(version: seq<u8>, code: seq<u8>, tail: seq<u8>): seq<u8> {
    HTTP + (['/' as int] + (version + ([SPACE] + (code + tail))))
  }

  /** A status line with three tokens is accepted exactly if the code is 200; else
      the result of the request is the code. */
  lemma StatusLines(version: seq<u8>, code: seq<u8>, tail: seq<u8>, ulongMax: nat)
    requires Word(version) && Word(code) && Apart(tail)
    ensures CheckStatus(StatusText(version, code, tail), ulongMax)
            == if code == Codes("200") then Accepted(HTTP) else Refused(Returned(StatusOf(code, ulongMax)))
  {
    var rest2 := code + tail;
    var rest := version + ([SPACE] + rest2);
    FirstToken(HTTP, ['/' as int] + rest, {'/' as int});
    assert (['/' as int] + rest)[1..] == rest;
    FirstToken(version, [SPACE] + rest2, {SPACE});
    assert ([SPACE] + rest2)[1..] == rest2;
    FirstToken(code, tail, {SPACE});
  }

  lemma FirstToken(token: seq<u8>, back: seq<u8>, delims: set<u8>)
    requires token != [] && Free(token, delims) && (back != [] ==> back[0] in delims)
    ensures NextToken(token + back, delims) == Token(token, token, if back == [] then [] else back[1..])
  {
    assert [] + token + back == token + back && [] + token == token;
    TokenAt([], token, back, delims);
  }

  // -------------------------------------------------------------------------
  // Transfer-Encoding
  // -------------------------------------------------------------------------

  /** A header field with a name and a value selects the chunked coding exactly if
      it says so, in upper or lower case. */
  lemma FieldSelectsChunkedIff(name: seq<u8>, value: seq<u8>, tail: seq<u8>)
    requires name != [] && Free(name, {':' as int, SPACE}) && Word(value) && Apart(tail)
    ensures SelectsChunked(name + ([':' as int] + ([SPACE] + value + tail)))
            <==> EqualIgnoringCase(name, Codes("Transfer-Encoding")) && EqualIgnoringCase(value, Codes("chunked"))
  {
    var rest := [SPACE] + value + tail;
    FirstToken(name, [':' as int] + rest, {':' as int, SPACE});
    assert ([':' as int] + rest)[1..] == rest;
    TokenAt([SPACE], value, tail, {SPACE});
  }

  // -------------------------------------------------------------------------
  // A header as servers write it
  // -------------------------------------------------------------------------

  predicate Printable(s: seq<u8>) {
    forall c <- s :: 0x20 <= c < 0x7F
  }

  lemma PrintablePlus(s: seq<u8>, t: seq<u8>)
    requires Printable(s) && Printable(t)
    ensures Printable(s + t)
  {
  }

  function FieldText(name: seq<u8>, value: seq<u8>): seq<u8> {
    name + ([':' as int] + ([SPACE] + value + []))
  }

  /** A header as servers write it, with any printable fields around the one for the
      transfer coding, is accepted and selects the chunked coding. */
  lemma OrdinaryHeader(version: seq<u8>, reason: seq<u8>, fields: seq<seq<u8>>, k: nat, name: seq<u8>, value: seq<u8>,
                       lim: Limits)
    requires Word(version) && Apart(reason) && Printable(version) && Printable(reason)
    requires |StatusText(version, Codes("200"), reason)| <= LINE_MAX
    requires |fields| < 0xFFFF_FFFF && forall f <- fields :: f != [] && Printable(f)
    requires k < |fields| && fields[k] == FieldText(name, value)
    requires name != [] && Free(name, {':' as int, SPACE}) && Word(value)
    requires EqualIgnoringCase(name, Codes("Transfer-Encoding")) && EqualIgnoringCase(value, Codes("chunked"))
    ensures var lines := [StatusText(version, Codes("200"), reason)] + fields;
            AcceptedHeader(lines, lim) && ChunkedHeader(lines)
  {
    var first, field := StatusText(version, Codes("200"), reason), FieldText(name, value);
    FirstLine(version, reason, lim);
    PrintableLine(first);
    TextsAccepted(first, fields, lim);
    FieldSelectsChunkedIff(name, value, []);
    assert field in fields;
    FieldIsShort(name, value);
    PrintableLine(field);
    ChunkedAt([first] + fields, k + 1, field);
  }

  lemma FieldIsShort(name: seq<u8>, value: seq<u8>)
    requires EqualIgnoringCase(name, Codes("Transfer-Encoding")) && EqualIgnoringCase(value, Codes("chunked"))
    ensures 0 < |FieldText(name, value)| <= LINE_MAX
  {
  }

  lemma PrintableText(s: seq<u8>)
    requires Printable(s) && s != []
    ensures LineText(s)
  {
  }

  lemma ChunkedByLast(lines: seq<seq<u8>>)
    requires |lines| > 1 && SelectsChunked(Kept(lines[|lines| - 1]))
    ensures ChunkedHeader(lines)
  {
  }

  lemma ChunkedBefore(lines: seq<seq<u8>>)
    requires |lines| > 1 && ChunkedHeader(lines[..|lines| - 1])
    ensures ChunkedHeader(lines)
  {
  }

  lemma {:induction false} ChunkedAt(lines: seq<seq<u8>>, k: nat, line: seq<u8>)
    requires 0 < k < |lines| && lines[k] == line && SelectsChunked(Kept(line))
    ensures ChunkedHeader(lines)
  {
    if k == |lines| - 1 {
      ChunkedByLast(lines);
    } else {
      ChunkedAt(lines[..|lines| - 1], k, line);
      ChunkedBefore(lines);
    }
  }

  lemma TextsAccepted(first: seq<u8>, fields: seq<seq<u8>>, lim: Limits)
    requires LineText(first) && Kept(first) == first && CheckStatus(first, lim.ulongMax).Accepted?
    requires |fields| < 0xFFFF_FFFF && forall f <- fields :: f != [] && Printable(f)
    ensures AcceptedHeader([first] + fields, lim)
  {
    var lines := [first] + fields;
    forall s <- lines
      ensures LineText(s)
    {
      if s != first {
        assert s in fields;
        PrintableText(s);
      }
    }
  }

  lemma FirstLine(version: seq<u8>, reason: seq<u8>, lim: Limits)
    requires Word(version) && Apart(reason) && Printable(version) && Printable(reason)
    ensures var first := StatusText(version, Codes("200"), reason);
            Printable(first) && first != [] && CheckStatus(first, lim.ulongMax).Accepted?
  {
    var code := Codes("200");
    DigitsOnly();
    StatusLines(version, code, reason, lim.ulongMax);
    PrintablePlus(code, reason);
    PrintablePlus([SPACE], code + reason);
    PrintablePlus(version, [SPACE] + (code + reason));
    PrintablePlus(['/' as int], version + ([SPACE] + (code + reason)));
    PrintablePlus(HTTP, ['/' as int] + (version + ([SPACE] + (code + reason))));
  }

  lemma DigitsOnly()
    ensures Word(Codes("200")) && Printable(Codes("200")) && Printable(HTTP)
  {
    assert Codes("200") == [0x32, 0x30, 0x30];
    assert HTTP == [0x48, 0x54, 0x54, 0x50];
  }

  lemma PrintableLine(s: seq<u8>)
    requires Printable(s) && s != [] && |s| <= LINE_MAX
    ensures LineText(s) && Kept(s) == s
  {
  }

  // -------------------------------------------------------------------------
  // Chunk sizes
  // -------------------------------------------------------------------------

  lemma DigitsAreText(s: seq<u8>, radix: nat)
    requires s != [] && AllDigits(s, radix) && radix <= 36
    ensures LineText(s)
  {
    forall c <- s
      ensures c !in {NUL, CR, LF}
    {
      assert DigitOf(c) < radix;
    }
  }

  /** Any hexadecimal digits that fit into `Line` are a size, if it fits. */
  lemma HexIsSize(s: seq<u8>, lim: Limits)
    requires 0 < |s| <= LINE_MAX && AllDigits(s, 16) && ValueOf(s, 16) <= lim.ulongMax
    ensures SizeLine(s, ValueOf(s, 16), lim)
  {
    DigitsAreText(s, 16);
    DigitsRead(s, 16, lim.ulongMax);
  }

  function HexDigit(d: nat): (c: u8)
    requires d < 16
    ensures DigitOf(c) == d
  {
    if d < 10 then '0' as int + d else 'a' as int + d - 10
  }

  /** A number as servers write it. */
  function Hex(n: nat): (s: seq<u8>)
    ensures s != [] && AllDigits(s, 16)
  {
    if n < 16 then [HexDigit(n)] else Hex(n / 16) + [HexDigit(n % 16)]
  }

  lemma {:induction false} HexRoundTrip(n: nat)
    ensures ValueOf(Hex(n), 16) == n
  {
    var s := Hex(n);
    if n < 16 {
      assert s[..0] == [];
      assert ValueOf(s[..0], 16) == 0;
    } else {
      HexRoundTrip(n / 16);
      assert s[..|s| - 1] == Hex(n / 16);
    }
  }

  /** The chunked coding of a list of chunks that are not empty, as a server does it. */
  function ChunksOf(data: seq<seq<u8>>): seq<Chunk> {
    if data == [] then []
    else
      var last := data[|data| - 1];
      ChunksOf(data[..|data| - 1]) + [Chunk(Hex(|last|), last)]
  }

  function Joined(data: seq<seq<u8>>): seq<u8> {
    if data == [] then [] else Joined(data[..|data| - 1]) + data[|data| - 1]
  }

  predicate Encodable(data: seq<seq<u8>>, lim: Limits) {
    forall d <- data :: d != [] && |d| <= lim.ulongMax && |Hex(|d|)| <= LINE_MAX
  }

  lemma {:induction false} CodingIsWellFormed(data: seq<seq<u8>>, lim: Limits)
    requires Encodable(data, lim)
    ensures (forall c <- ChunksOf(data) :: WellFormed(c, lim)) && Content(ChunksOf(data)) == Joined(data)
  {
    if data != [] {
      var n := |data| - 1;
      var last := data[n];
      assert last in data && forall d <- data[..n] :: d in data;
      CodingIsWellFormed(data[..n], lim);
      CodingOfOne(last, lim);
      OneMoreChunk(ChunksOf(data[..n]), Chunk(Hex(|last|), last));
    }
  }

  lemma CodingOfOne(data: seq<u8>, lim: Limits)
    requires data != [] && |data| <= lim.ulongMax && |Hex(|data|)| <= LINE_MAX
    ensures WellFormed(Chunk(Hex(|data|), data), lim)
  {
    HexRoundTrip(|data|);
    HexIsSize(Hex(|data|), lim);
  }

  lemma OneMoreChunk(chunks: seq<Chunk>, c: Chunk)
    ensures Content(chunks + [c]) == Content(chunks) + c.data
  {
    assert (chunks + [c])[..|chunks|] == chunks;
  }

  /** Chunked decoding undoes chunked coding. */
  lemma ChunkedRoundTrip(lines: seq<seq<u8>>, data: seq<seq<u8>>, more: seq<u8>, lim: Limits)
    requires AcceptedHeader(lines, lim) && ChunkedHeader(lines) && Encodable(data, lim)
    ensures Decode(Header(lines) + Encoded(ChunksOf(data)) + (Hex(0) + CRLF) + more, lim) == Fitting(Joined(data), lim)
  {
    CodingIsWellFormed(data, lim);
    HexRoundTrip(0);
    HexIsSize(Hex(0), lim);
    ChunkedResponse(lines, ChunksOf(data), Hex(0), more, lim);
  }
}
