/** The receive loop of `Request` in httpclient.cpp: the variables of the loop, the
    switch on the state, and the loops over segments and bytes. */
module HttpClients {
  import opened Bytes
  import opened CText
  import opened HttpDecoder
  import Reference = HttpReference

  // -------------------------------------------------------------------------
  // Strings in memory
  // -------------------------------------------------------------------------

  /** The memory holds the string `s` at `from`, with its NUL. */
  predicate Holds(m: seq<u8>, from: nat, s: seq<u8>) {
    from + |s| < |m| && m[from..from + |s|] == s && m[from + |s|] == NUL && NUL !in s
  }

  /** What the next call of strtok_r reads is behind the NUL of the token. */
  lemma HoldsAfterCut(m: seq<u8>, from: nat, s: seq<u8>, b: nat)
    requires Holds(m, from, s) && b < |s|
    ensures Holds(m[from + b := NUL], from, s[..b]) && Holds(m[from + b := NUL], from + b + 1, s[b + 1..])
  {
    var m' := m[from + b := NUL];
    assert m'[from..from + b] == m[from..from + |s|][..b];
    assert m'[from + b + 1..from + |s|] == m[from..from + |s|][b + 1..];
    assert forall c <- s[..b] :: c in s;
    assert forall c <- s[b + 1..] :: c in s;
  }

  /** A character and a NUL put at the end of a line, `so` far. */
  lemma PutHolds(m: seq<u8>, m': seq<u8>, n: nat, c: u8, so: seq<u8>)
    requires n + 1 < |m| == |m'| && m'[n] == c && m'[n + 1] == NUL && forall j :: 0 <= j < n ==> m'[j] == m[j]
    requires if n == 0 then so == [] else Holds(m, 0, so) && |so| <= n
    ensures Holds(m', 0, if |so| == n && c != NUL then so + [c] else so)
  {
    assert m'[0..|so|] == so by {
      if n > 0 { assert m[0..|so|] == so; }
    }
  }

  lemma Undisturbed(m: seq<u8>, m': seq<u8>, save: nat, s: seq<u8>)
    requires Holds(m, 0, s) && |s| < save <= |m| == |m'| && m'[..save] == m[..save]
    ensures Holds(m', 0, s)
  {
    assert m'[0..|s|] == m'[..save][..|s|] == m[..save][..|s|] == m[0..|s|];
    assert m'[|s|] == m'[..save][|s|] == m[..save][|s|];
  }

  /** Put a NUL behind the string `left`, if it does not end there anyway. */
  method Cut(line: array<u8>, from: nat, s: seq<u8>, left: seq<u8>, rest: seq<u8>) returns (save: nat)
    requires Holds(line[..], from, s) && |left| <= |s| && left == s[..|left|]
    requires rest == if |left| < |s| then s[|left| + 1..] else []
    modifies line
    ensures Holds(line[..], from, left) && Holds(line[..], save, rest)
    ensures save >= from && (rest != [] ==> save > from + |left|)
    ensures line[..from] == old(line[..from])
  {
    save := from + |left|;
    if |left| < |s| {
      HoldsAfterCut(line[..], from, s, |left|);
      ghost var m := line[..][save := NUL];
      line[save] := NUL;
      assert line[..] == m;
      save := save + 1;
    } else {
      assert left == s;
    }
  }

  /** strtok_r: the token is cut off in memory; `save` is where the next call starts. */
  method Strtok(line: array<u8>, from: nat, s: seq<u8>, delims: set<u8>) returns (t: Token, save: nat)
    requires Holds(line[..], from, s)
    modifies line
    ensures t == NextToken(s, delims) && line[..from] == old(line[..from])
    ensures t.NoToken? ==> line[..] == old(line[..])
    ensures t.Token? ==> Holds(line[..], from, t.left) && Holds(line[..], save, t.rest)
    ensures t.Token? ==> save >= from && (t.rest != [] ==> save > from + |t.left|)
  {
    t := NextToken(s, delims);
    save := from;
    if t.Token? {
      TokenParts(s, delims);
      save := Cut(line, from, s, t.left, t.rest);
    }
  }

  method StringAt(line: array<u8>, from: nat, ghost s: seq<u8>) returns (r: seq<u8>)
    requires Holds(line[..], from, s)
    ensures r == s
  {
    r := [];
    while line[from + |r|] != NUL
      invariant |r| <= |s| && r == s[..|r|]
      decreases |s| - |r|
    {
      assert |r| < |s| && line[from + |r|] == line[..][from..from + |s|][|r|];
      r := r + [line[from + |r|]];
    }
  }

  // -------------------------------------------------------------------------
  // The loop
  // -------------------------------------------------------------------------

  lemma EndsWithin(p: Progress, s: seq<u8>, n: nat, lim: Limits)
    requires n <= |s| && Feed(p, s[..n], lim).Ended?
    ensures Feed(p, s, lim) == Feed(p, s[..n], lim)
  {
    assert s == s[..n] + s[n..];
    FeedConcat(p, s[..n], s[n..], lim);
    EndedStays(Feed(p, s[..n], lim), s[n..], lim);
  }

  datatype Verdict = Continue | Return(ending: Ending)

  class ResponseReader {
    const ulongMax: nat
    const line: array<u8>
    const buffer: array<u8>
    var state: nat
    var nLine: u32
    var nChar: nat
    var length: nat
    var chunked: bool
    var ulBytes: nat
    ghost var text: seq<u8>       // the string in `line`, once there is one

    ghost predicate Valid()
      reads this, line
    {
      && line.Length == LINE_MAX + 1 && buffer.Length < 0x1_0000_0000 && line != buffer
      && length <= buffer.Length && nChar <= LINE_MAX
      && |text| <= LINE_MAX
      && (nChar > 0 || chunked || state >= 2 ==> Holds(line[..], 0, text))
      && (nChar > 0 && (state == 0 || state == 2) ==> |text| <= nChar && line[nChar] == NUL)
    }

    ghost function Lim(): Limits
      requires buffer.Length < 0x1_0000_0000
    {
      Limits(buffer.Length, ulongMax)
    }

    /** The variables as the decoder has them. */
    ghost function Variables(): Decoder
      reads this
    {
      Decoder(state, nLine, nChar, chunked, ulBytes, text)
    }

    ghost function Progress(): Progress
      reads this, buffer
      requires length <= buffer.Length
    {
      Going(Variables(), buffer[..length])
    }

    /** Where the decoder is after a byte that was handled with this verdict. */
    ghost function After(verdict: Verdict): Progress
      reads this, buffer
      requires length <= buffer.Length
    {
      match verdict
      case Continue => Progress()
      case Return(ending) => Ended(ending, buffer[..length])
    }

    constructor (buffer: array<u8>, ulongMax: nat)
      requires buffer.Length < 0x1_0000_0000
      ensures Valid() && fresh(line) && this.buffer == buffer && this.ulongMax == ulongMax && length == 0
      ensures Progress() == START
    {
      this.buffer, this.ulongMax := buffer, ulongMax;
      line := new u8[LINE_MAX + 1];
      state, nLine, nChar, length, chunked, ulBytes, text := 0, 0, 0, 0, false, 0, [];
    }

    /** Accumulate a line. */
    method Put(c: u8)
      requires Valid() && (state == 0 || state == 2) && c != CR && c != LF
      modifies `nChar, `text, line
      ensures Valid() && Variables() == PutChar(old(Variables()), c)
    {
      hide Holds;
      if nChar < LINE_MAX {
        ghost var so, d, was := if nChar == 0 then [] else text, PutChar(Variables(), c), line[..];
        Write(c);
        PutHolds(was, line[..], nChar, c, so);
        text := d.text;
        nChar := nChar + 1;
        assert Variables() == d;
        assert Holds(line[..], 0, text) && |text| <= nChar && line[nChar] == NUL;
      }
    }

    /** The character and a NUL behind it. */
    method Write(c: u8)
      requires line.Length > nChar + 1
      modifies line
      ensures line[..] == old(line[..])[nChar := c][nChar + 1 := NUL]
    {
      ghost var m := line[..][nChar := c][nChar + 1 := NUL];
      line[nChar] := c;
      line[nChar + 1] := NUL;
      assert line[..] == m;
    }

    /** Copy a byte of content. */
    method CopyByte(c: u8) returns (full: bool)
      requires Valid()
      modifies `length, buffer
      ensures Valid() && full == (old(length) >= buffer.Length) && length == old(length) + if full then 0 else 1
      ensures buffer[..length] == old(buffer[..length]) + if full then [] else [c]
      ensures forall j :: length <= j < buffer.Length ==> buffer[j] == old(buffer[j])
    {
      full := length >= buffer.Length;
      if full {
        return;
      }
      buffer[length] := c;
      length := length + 1;
    }

    /** The end of the first line: "HTTP/1.x 200 OK" is expected. */
    method StatusEnds() returns (verdict: Verdict)
      requires Valid() && Holds(line[..], 0, text)
      modifies `text, line
      ensures verdict == match CheckStatus(old(text), ulongMax)
                         case Refused(ending) => Return(ending)
                         case Accepted(_) => Continue
      ensures Holds(line[..], 0, text)
      ensures verdict == Continue ==> text == CheckStatus(old(text), ulongMax).left
    {
      var s := StringAt(line, 0, text);
      var t, save := Strtok(line, 0, s, {'/' as int});
      if t.NoToken? {
        return Return(NullToken);
      }
      text := t.left;
      if t.token != Codes("HTTP") {
        return Return(Returned(StatusOf(t.token, ulongMax)));
      }
      ghost var m := line[..];
      var t2, save2 := Strtok(line, save, t.rest, {SPACE});
      if t2.NoToken? {
        return Return(NullToken);
      }
      Undisturbed(m, line[..], save, text);
      m := line[..];
      var t3, save3 := Strtok(line, save2, t2.rest, {SPACE});
      if t3.NoToken? {
        return Return(NullToken);
      }
      Undisturbed(m, line[..], save2, text);
      if t3.token != Codes("200") {
        return Return(Returned(StatusOf(t3.token, ulongMax)));
      }
      verdict := Continue;
    }

    /** The end of any other header line: check for the transfer encoding. */
    method FieldEnds()
      requires Valid() && Holds(line[..], 0, text)
      modifies `text, `chunked, line
      ensures Holds(line[..], 0, text) && text == LeftOf(old(text))
      ensures chunked == (old(chunked) || SelectsChunked(old(text)))
    {
      var s := StringAt(line, 0, text);
      var t, save := Strtok(line, 0, s, {':' as int, SPACE});
      if t.Token? {
        text := t.left;
        if EqualIgnoringCase(t.token, Codes("Transfer-Encoding")) {
          ghost var m := line[..];
          var t2, save2 := Strtok(line, save, t.rest, {SPACE});
          if t2.Token? {
            Undisturbed(m, line[..], save, text);
            if EqualIgnoringCase(t2.token, Codes("chunked")) {
              chunked := true;
            }
          }
        }
      }
    }

    /** The first line was read. */
    method FirstLineEnds() returns (verdict: Verdict)
      requires Valid() && state == 0 && nChar > 0 && nLine == 0
      modifies `nLine, `nChar, `text, line
      ensures Valid() && After(verdict) == EndOfHeaderLine(old(Variables()), buffer[..length], Lim())
    {
      verdict := StatusEnds();
      nLine, nChar := 1, 0;
    }

    method OtherLineEnds()
      requires Valid() && state == 0 && nChar > 0 && nLine > 0
      modifies `nLine, `nChar, `chunked, `text, line
      ensures Valid() && Progress() == EndOfHeaderLine(old(Variables()), buffer[..length], Lim())
    {
      FieldEnds();
      nLine, nChar := Increment(nLine), 0;
    }

    method HeaderLineEnds() returns (verdict: Verdict)
      requires Valid() && state == 0
      modifies `state, `nLine, `nChar, `chunked, `text, line
      ensures Valid() && After(verdict) == EndOfHeaderLine(old(Variables()), buffer[..length], Lim())
    {
      verdict := Continue;
      if nChar == 0 {
        state := if chunked then 2 else 1;
      } else if nLine == 0 {
        verdict := FirstLineEnds();
      } else {
        OtherLineEnds();
      }
    }

    method ChunkHeaderEnds() returns (verdict: Verdict)
      requires Valid() && state == 2
      modifies `state, `ulBytes
      ensures Valid() && After(verdict) == EndOfChunkHeader(old(Variables()), buffer[..length], Lim())
    {
      var s := StringAt(line, 0, text);
      var number := Strtoul(s, 16, ulongMax);
      if number.end != |s| {
        return Return(Returned(INVALID_CHUNK_HEADER));
      }
      ulBytes := number.value;
      state := if ulBytes != 0 then 3 else 5;
      verdict := Continue;
    }

    /** A byte of a chunk. */
    method ChunkByte(c: u8) returns (verdict: Verdict)
      requires Valid() && state == 3
      modifies `state, `ulBytes, `length, buffer
      ensures Valid() && old(length) <= length && After(verdict) == Step(old(Progress()), c, Lim())
      ensures forall j :: length <= j < buffer.Length ==> buffer[j] == old(buffer[j])
    {
      var full := CopyByte(c);
      if full {
        return Return(Returned(CONTENT_BUFFER_TOO_SMALL));
      }
      ulBytes := if ulBytes > 0 then ulBytes - 1 else ulongMax;
      if ulBytes == 0 {
        state := 4;
      }
      verdict := Continue;
    }

    /** The switch on the state. */
    method Byte(c: u8) returns (verdict: Verdict)
      requires Valid()
      modifies this, line, buffer
      ensures Valid() && old(length) <= length && After(verdict) == Step(old(Progress()), c, Lim())
      ensures forall j :: length <= j < buffer.Length ==> buffer[j] == old(buffer[j])
    {
      verdict := Continue;
      if (state == 0 || state == 2 || state == 4) && c == CR {
        return;
      }
      if state == 0 && c == LF {
        verdict := HeaderLineEnds();
      } else if state == 2 && c == LF {
        verdict := ChunkHeaderEnds();
      } else if state == 0 || state == 2 {
        Put(c);
      } else if state == 1 {
        var full := CopyByte(c);
        if full {
          verdict := Return(Returned(CONTENT_BUFFER_TOO_SMALL));
        }
      } else if state == 3 {
        verdict := ChunkByte(c);
      } else if state == 4 {
        if c != LF {
          return Return(Returned(INVALID_CHUNK_HEADER));
        }
        nChar, state := 0, 2;
      }
    }

    /** The bytes of one segment. */
    method Segment(segment: seq<u8>) returns (verdict: Verdict)
      requires Valid()
      modifies this, line, buffer
      ensures Valid() && old(length) <= length && After(verdict) == Feed(old(Progress()), segment, Lim())
      ensures forall j :: length <= j < buffer.Length ==> buffer[j] == old(buffer[j])
    {
      verdict := Continue;
      assert segment[..0] == [];
      for i := 0 to |segment|
        invariant Valid() && old(length) <= length && verdict == Continue
        invariant Progress() == Feed(old(Progress()), segment[..i], Lim())
        invariant forall j :: length <= j < buffer.Length ==> buffer[j] == old(buffer[j])
      {
        assert segment[..i + 1][..i] == segment[..i];
        verdict := Byte(segment[i]);
        if verdict.Return? {
          EndsWithin(old(Progress()), segment, i + 1, Lim());
          return;
        }
      }
      assert segment[..|segment|] == segment;
    }
  }

  /** What the loop takes from the socket: an empty segment, like an error, ends it. */
  function Received(segments: seq<seq<u8>>): seq<u8> {
    if segments == [] || segments[0] == [] then [] else segments[0] + Received(segments[1..])
  }

  /** The receive loop of `Request` and its end.  `segments` is what the socket gives
      at each call.  Neither how the stream is cut nor what `Line` held at
      first matters, and nothing is written behind the content. */
  method ReceiveResponse(segments: seq<seq<u8>>, buffer: array<u8>, ulongMax: nat) returns (ending: Ending, length: nat)
    requires buffer.Length < 0x1_0000_0000
    modifies buffer
    ensures length <= buffer.Length
    ensures (ending, buffer[..length]) == Decode(Received(segments), Limits(buffer.Length, ulongMax))
    ensures (ending, buffer[..length])
            == Reference.Response(Received(segments), 0, false, [], Limits(buffer.Length, ulongMax))
    ensures forall j :: length <= j < buffer.Length ==> buffer[j] == old(buffer[j])
  {
    var r := new ResponseReader(buffer, ulongMax);
    ghost var lim := Limits(buffer.Length, ulongMax);
    ghost var stream := Received(segments);
    Reference.DecodeIsResponse(stream, lim);
    ghost var taken := [];
    var k := 0;
    while r.state < 5 && k < |segments| && segments[k] != []
      invariant fresh(r) && fresh(r.line) && r.buffer == buffer && r.ulongMax == ulongMax && r.Valid()
      invariant k <= |segments| && stream == taken + Received(segments[k..])
      invariant r.Progress() == Feed(START, taken, lim)
      invariant forall j :: r.length <= j < buffer.Length ==> buffer[j] == old(buffer[j])
      decreases |segments| - k
    {
      ghost var p, rest := r.Progress(), Received(segments[k + 1..]);
      assert segments[k..][1..] == segments[k + 1..];
      assert taken + (segments[k] + rest) == taken + segments[k] + rest;
      FeedConcat(START, taken, segments[k], lim);
      var verdict := r.Segment(segments[k]);
      taken, k := taken + segments[k], k + 1;
      if verdict.Return? {
        FeedConcat(START, taken, rest, lim);
        EndedStays(Feed(START, taken, lim), rest, lim);
        return verdict.ending, r.length;
      }
    }
    FeedConcat(START, taken, Received(segments[k..]), lim);
    if r.state >= 5 {
      EndedStays(r.Progress(), Received(segments[k..]), lim);
    }
    ending := Returned(if r.state < 5 && r.state != 1 then CONNECTION_RESET else OK);
    length := r.length;
  }
}
