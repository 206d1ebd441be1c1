/**
 HttpChunkDecoder of main.cpp (chunked coding, section 7.1 of RFC 9112). The octets arrive in pieces of
 any size; what comes out must depend only on their concatenation.
 */
module Chunked {
  import opened Wrappers
  import opened Text

  const MIB: nat := 1024 * 1024

  /** The exceptions of Feed; BadNumber is what std::stoull throws. */
  datatype ChunkError =
    | BufferLimit | EmptySize | BadNumber(error: NumberError) | InvalidSize | ChunkLimit | MissingTerminator

  datatype Decoder = Decoder(buffer: string, remaining: Option<nat>, finished: bool)

  type Decoded = Result<(Decoder, seq<string>), ChunkError>

  function Fresh(): Decoder { Decoder("", None, false) }

  /** A chunk's first line without extensions and blanks. */
  function SizeText(line: string): string {
    var text := TrimAscii(line);
    var extension := Find(text, ";");
    TrimAscii(if extension.Some? then text[..extension.value] else text)
  }

  /** The size a chunk's first line announces. */
  function ChunkSize(line: string, maximum: nat): (r: Result<nat, ChunkError>)
    ensures if r.Ok? then r.value <= maximum else r.error != BufferLimit
  {
    NumberOf(SizeText(line), maximum)
  }

  function NumberOf(size: string, maximum: nat): (r: Result<nat, ChunkError>)
    ensures if r.Ok? then r.value <= maximum else r.error != BufferLimit
  {
    if size == "" then Err(EmptySize)
    else
      match Stoull(size, 16)
      case Err(e) => Err(BadNumber(e))
      case Ok((value, used)) =>
        if used != |size| then Err(InvalidSize)
        else if value > maximum then Err(ChunkLimit)
        else Ok(value)
  }

  /** How a size line is read: a parameter of the decoding loop. */
  type SizeReader = string -> Result<nat, ChunkError>

  function Sizes(maximum: nat): SizeReader {
    line => ChunkSize(line, maximum)
  }

  function Prepend(chunks: seq<string>, r: Decoded): Decoded {
    if r.Err? then r else Ok((r.value.0, chunks + r.value.1))
  }

  function Append(d: Decoder, data: string): Decoder {
    d.(buffer := d.buffer + data)
  }

  /** What the head of the buffer allows: nothing yet, an error, or one step forward with what it yields. */
  datatype Progress = Wait | Fail(error: ChunkError) | Go(next: Decoder, chunks: seq<string>)

  function Step(d: Decoder, read: SizeReader): (p: Progress)
    ensures p.Go? ==> |p.next.buffer| < |d.buffer|
  {
    if d.finished then Wait
    else if d.remaining.Some? then DataStep(d.buffer, d.remaining.value)
    else SizeStep(d.buffer, read)
  }

  /** A size line. */
  function SizeStep(buffer: string, read: SizeReader): (p: Progress)
    ensures p.Go? ==> |p.next.buffer| < |buffer|
  {
    var lineEnd := Find(buffer, CRLF);
    if lineEnd.None? then Wait
    else
      var size := read(buffer[..lineEnd.value]);
      if size.Err? then Fail(size.error) else Go(AfterSize(buffer[lineEnd.value + 2..], size.value), [])
  }

  function AfterSize(rest: string, size: nat): Decoder {
    if size == 0 then Decoder(rest, None, true) else Decoder(rest, Some(size), false)
  }

  /** A chunk's n octets and the CRLF behind them. */
  function DataStep(buffer: string, n: nat): (p: Progress)
    ensures p.Go? ==> |p.next.buffer| < |buffer|
  {
    if |buffer| < n + 2 then Wait
    else if buffer[n..n + 2] != CRLF then Fail(MissingTerminator)
    else Go(Decoder(buffer[n + 2..], None, false), [buffer[..n]])
  }

  /** The loop of Feed: every chunk that is complete in the buffer. */
  function Decode(d: Decoder, read: SizeReader): Decoded
    decreases |d.buffer|
  {
    match Step(d, read)
    case Wait => Ok((d, []))
    case Fail(e) => Err(e)
    case Go(next, chunks) => Prepend(chunks, Decode(next, read))
  }

  /** One call of Feed. */
  function Fed(d: Decoder, data: string, maximum: nat): Decoded {
    if |d.buffer + data| > maximum + MIB then Err(BufferLimit) else Decode(Append(d, data), Sizes(maximum))
  }

  /** Successive calls of Feed, and all they returned. */
  function FeedAll(d: Decoder, pieces: seq<string>, maximum: nat): Decoded {
    if pieces == [] then Ok((d, []))
    else
      match FeedAll(d, pieces[..|pieces| - 1], maximum)
      case Err(e) => Err(e)
      case Ok((e, chunks)) => Prepend(chunks, Fed(e, pieces[|pieces| - 1], maximum))
  }

  class HttpChunkDecoder {
    const maximum: nat
    var buffer: string
    var remaining: Option<nat>
    var finished: bool

    constructor (maximum: nat)
      ensures this.maximum == maximum && View() == Fresh()
    {
      this.maximum, buffer, remaining, finished := maximum, "", None, false;
    }

    function View(): Decoder
      reads this
    {
      Decoder(buffer, remaining, finished)
    }

    predicate Complete()
      reads this
    {
      finished
    }

    method Feed(data: string) returns (r: Result<seq<string>, ChunkError>)
      modifies this
      ensures match Fed(old(View()), data, maximum)
              case Err(e) => r == Err(e)
              case Ok((after, chunks)) => r == Ok(chunks) && View() == after
    {
      buffer := buffer + data;
      if |buffer| > maximum + MIB {
        return Err(BufferLimit);
      }
      r := TakeChunks(Sizes(maximum));
    }

    /** The loop of Feed. */
    method TakeChunks(read: SizeReader) returns (r: Result<seq<string>, ChunkError>)
      modifies this
      ensures match Decode(old(View()), read)
              case Err(e) => r == Err(e)
              case Ok((after, chunks)) => r == Ok(chunks) && View() == after
    {
      ghost var start := View();
      var chunks := [];
      PrependNothing(Decode(start, read));
      while !finished
        invariant Reaches(start, chunks, View(), read)
        decreases |buffer|
      {
        if remaining.None? {
          var size := TakeSize(start, chunks, read);
          if size.Err? {
            return Err(size.error);
          }
          if !size.value {
            break;
          }
        }
        if |buffer| < remaining.value + 2 {
          break;
        }
        ReachesData(start, chunks, View(), remaining.value, read);
        if buffer[remaining.value..remaining.value + 2] != CRLF {
          return Err(MissingTerminator);
        }
        chunks := chunks + [buffer[..remaining.value]];
        buffer := buffer[remaining.value + 2..];
        remaining := None;
      }
      ReachesEnd(start, chunks, View(), read);
      return Ok(chunks);
    }

    /** The size line at the head of the buffer; false when the loop ends there. */
    method TakeSize(ghost start: Decoder, ghost chunks: seq<string>, read: SizeReader) returns (r: Result<bool, ChunkError>)
      requires !finished && remaining.None? && Reaches(start, chunks, View(), read)
      modifies this
      ensures r.Err? ==> Decode(start, read) == Err(r.error)
      ensures r.Ok? ==> Reaches(start, chunks, View(), read)
      ensures r == Ok(true) ==> !finished && remaining.Some? && |buffer| < old(|buffer|)
      ensures r == Ok(false) ==> finished || (remaining.None? && Find(buffer, CRLF).None?)
    {
      var lineEnd := Find(buffer, CRLF);
      if lineEnd.None? {
        return Ok(false);
      }
      var size := read(buffer[..lineEnd.value]);
      ReachesSize(start, chunks, View(), read);
      if size.Err? {
        return Err(size.error);
      }
      buffer := buffer[lineEnd.value + 2..];
      if size.value == 0 {
        finished := true;
        return Ok(false);
      }
      remaining := Some(size.value);
      return Ok(true);
    }
  }

  /** Decoding start has given the chunks so far and goes on from d. */
  predicate Reaches(start: Decoder, chunks: seq<string>, d: Decoder, read: SizeReader) {
    Decode(start, read) == Prepend(chunks, Decode(d, read))
  }

  lemma ReachesStep(start: Decoder, chunks: seq<string>, d: Decoder, read: SizeReader)
    requires Reaches(start, chunks, d, read)
    ensures var p := Step(d, read);
            && (p.Wait? ==> Decode(start, read) == Ok((d, chunks)))
            && (p.Fail? ==> Decode(start, read) == Err(p.error))
            && (p.Go? ==> Reaches(start, chunks + p.chunks, p.next, read))
  {
    match Step(d, read)
    case Wait => assert chunks + [] == chunks;
    case Fail(e) =>
    case Go(next, more) => PrependTwice(chunks, more, Decode(next, read));
  }

  lemma ReachesEnd(start: Decoder, chunks: seq<string>, d: Decoder, read: SizeReader)
    requires Reaches(start, chunks, d, read)
    requires d.finished || (if d.remaining.None? then Find(d.buffer, CRLF).None? else |d.buffer| < d.remaining.value + 2)
    ensures Decode(start, read) == Ok((d, chunks))
  {
    ReachesStep(start, chunks, d, read);
  }

  lemma ReachesSize(start: Decoder, chunks: seq<string>, d: Decoder, read: SizeReader)
    requires Reaches(start, chunks, d, read) && d.remaining.None? && !d.finished && Find(d.buffer, CRLF).Some?
    ensures var lineEnd := Find(d.buffer, CRLF).value;
            var size := read(d.buffer[..lineEnd]);
            if size.Err? then Decode(start, read) == Err(size.error)
            else Reaches(start, chunks, AfterSize(d.buffer[lineEnd + 2..], size.value), read)
  {
    ReachesStep(start, chunks, d, read);
    assert chunks + [] == chunks;
  }

  lemma ReachesData(start: Decoder, chunks: seq<string>, d: Decoder, n: nat, read: SizeReader)
    requires Reaches(start, chunks, d, read) && d.remaining == Some(n) && !d.finished && |d.buffer| >= n + 2
    ensures if d.buffer[n..n + 2] != CRLF then Decode(start, read) == Err(MissingTerminator)
            else Reaches(start, chunks + [d.buffer[..n]], Decoder(d.buffer[n + 2..], None, false), read)
  {
    ReachesStep(start, chunks, d, read);
  }

  lemma PrependTwice(a: seq<string>, b: seq<string>, r: Decoded)
    ensures Prepend(a, Prepend(b, r)) == Prepend(a + b, r)
  {
    if r.Ok? {
      assert a + (b + r.value.1) == (a + b) + r.value.1;
    }
  }

  // ---------------------------------------------------------------- fragmentation does not matter

  /** Octets that arrive later do not change a step. */
  lemma StepIsStable(d: Decoder, more: string, read: SizeReader)
    ensures var p := Step(d, read);
            && (p.Fail? ==> Step(Append(d, more), read) == p)
            && (p.Go? ==> Step(Append(d, more), read) == Go(Append(p.next, more), p.chunks))
  {
    if d.finished {
    } else if d.remaining.Some? {
      DataStepIsStable(d.buffer, d.remaining.value, more);
    } else {
      SizeStepIsStable(d.buffer, more, read);
    }
  }

  lemma DataStepIsStable(buffer: string, n: nat, more: string)
    ensures var p := DataStep(buffer, n);
            && (p.Fail? ==> DataStep(buffer + more, n) == p)
            && (p.Go? ==> DataStep(buffer + more, n) == Go(Append(p.next, more), p.chunks))
  {
    if |buffer| >= n + 2 {
      assert (buffer + more)[n..n + 2] == buffer[n..n + 2];
      assert (buffer + more)[..n] == buffer[..n];
      assert (buffer + more)[n + 2..] == buffer[n + 2..] + more;
    }
  }

  lemma SizeStepIsStable(buffer: string, more: string, read: SizeReader)
    ensures var p := SizeStep(buffer, read);
            && (p.Fail? ==> SizeStep(buffer + more, read) == p)
            && (p.Go? ==> SizeStep(buffer + more, read) == Go(Append(p.next, more), p.chunks))
  {
    if Find(buffer, CRLF).Some? {
      FindExtends(buffer, more, CRLF);
      var e := Find(buffer, CRLF).value;
      assert (buffer + more)[..e] == buffer[..e];
      assert (buffer + more)[e + 2..] == buffer[e + 2..] + more;
    }
  }

  /** Decoding what has arrived and then the rest is decoding all of it. */
  lemma {:induction false} DecodeSplits(d: Decoder, more: string, read: SizeReader)
    ensures Decode(Append(d, more), read) == Continue(Decode(d, read), more, read)
    decreases |d.buffer|
  {
    StepIsStable(d, more, read);
    match Step(d, read)
    case Wait =>
      PrependNothing(Decode(Append(d, more), read));
    case Fail(e) =>
    case Go(next, chunks) =>
      DecodeSplits(next, more, read);
      var r := Decode(next, read);
      if r.Ok? {
        PrependTwice(chunks, r.value.1, Decode(Append(r.value.0, more), read));
      }
  }

  /** What one gets by going on with more octets after r. */
  function Continue(r: Decoded, more: string, read: SizeReader): Decoded {
    if r.Err? then r else Prepend(r.value.1, Decode(Append(r.value.0, more), read))
  }

  /** Any way of cutting the octets gives what they give in one piece, unless the buffer limit trips. */
  lemma {:induction false} FragmentationDoesNotMatter(pieces: seq<string>, maximum: nat)
    ensures var r := FeedAll(Fresh(), pieces, maximum);
            r == Err(BufferLimit) || r == Decode(Decoder(Concat(pieces), None, false), Sizes(maximum))
  {
    if pieces != [] {
      var early, last := pieces[..|pieces| - 1], pieces[|pieces| - 1];
      FragmentationDoesNotMatter(early, maximum);
      DecodeSplits(Decoder(Concat(early), None, false), last, Sizes(maximum));
    }
  }

  lemma {:induction false} DecodeShrinks(d: Decoder, read: SizeReader)
    ensures var r := Decode(d, read); r.Ok? ==> |r.value.0.buffer| <= |d.buffer|
    decreases |d.buffer|
  {
    if Step(d, read).Go? {
      DecodeShrinks(Step(d, read).next, read);
    }
  }

  lemma {:induction false} DecodeDoesNotTrip(d: Decoder, read: SizeReader)
    requires forall line: string :: read(line) != Err(BufferLimit)
    ensures Decode(d, read) != Err(BufferLimit)
    decreases |d.buffer|
  {
    if Step(d, read).Go? {
      DecodeDoesNotTrip(Step(d, read).next, read);
    }
  }

  /** In any state: feeding a and then b gives what feeding a + b gives, if that keeps below the limit. */
  lemma FeedTwice(d: Decoder, a: string, b: string, maximum: nat)
    requires |d.buffer| + |a| + |b| <= maximum + MIB
    ensures var r := Fed(d, a, maximum);
            Fed(d, a + b, maximum) == if r.Err? then r else Prepend(r.value.1, Fed(r.value.0, b, maximum))
  {
    DecodeTwice(d, a, b, Sizes(maximum));
  }

  lemma DecodeTwice(d: Decoder, a: string, b: string, read: SizeReader)
    ensures var r := Decode(Append(d, a), read);
            && Decode(Append(d, a + b), read) == Continue(r, b, read)
            && (r.Ok? ==> |r.value.0.buffer| <= |d.buffer| + |a|)
  {
    assert Append(Append(d, a), b) == Append(d, a + b);
    DecodeShrinks(Append(d, a), read);
    DecodeSplits(Append(d, a), b, read);
  }

  // ---------------------------------------------------------------- decoding inverts encoding

  /** A chunk as a sender writes it: any first line that announces its size. */
  datatype Chunk = Chunk(line: string, data: string)

  predicate ValidLine(line: string, size: nat, read: SizeReader) {
    Find(line, CRLF).None? && read(line) == Ok(size)
  }

  predicate ValidChunks(cs: seq<Chunk>, read: SizeReader) {
    forall i :: 0 <= i < |cs| ==> 0 < |cs[i].data| && ValidLine(cs[i].line, |cs[i].data|, read)
  }

  function Encode(cs: seq<Chunk>): string {
    if cs == [] then "" else cs[0].line + CRLF + cs[0].data + CRLF + Encode(cs[1..])
  }

  function Datas(cs: seq<Chunk>): seq<string> {
    if cs == [] then [] else [cs[0].data] + Datas(cs[1..])
  }

  /** The chunked body up to and including the zero-size line. */
  function Body(cs: seq<Chunk>, last: string): string {
    Encode(cs) + (last + CRLF)
  }

  lemma LineStep(line: string, size: nat, rest: string, read: SizeReader)
    requires ValidLine(line, size, read)
    ensures Step(Decoder(line + CRLF + rest, None, false), read) == Go(AfterSize(rest, size), [])
  {
    var buffer := line + CRLF + rest;
    LineEnd(line, rest);
    assert buffer[..|line|] == line && buffer[|line| + 2..] == rest;
  }

  lemma ChunkStep(data: string, rest: string, read: SizeReader)
    ensures Step(Decoder(data + CRLF + rest, Some(|data|), false), read) == Go(Decoder(rest, None, false), [data])
  {
    var buffer := data + CRLF + rest;
    assert buffer[..|data|] == data && buffer[|data|..|data| + 2] == CRLF && buffer[|data| + 2..] == rest;
  }

  lemma DecodeLineAndChunk(c: Chunk, rest: string, read: SizeReader)
    requires 0 < |c.data| && ValidLine(c.line, |c.data|, read)
    ensures Decode(Decoder(c.line + CRLF + (c.data + CRLF + rest), None, false), read) ==
            Prepend([c.data], Decode(Decoder(rest, None, false), read))
  {
    LineStep(c.line, |c.data|, c.data + CRLF + rest, read);
    ChunkStep(c.data, rest, read);
    PrependNothing(Decode(Decoder(c.data + CRLF + rest, Some(|c.data|), false), read));
  }

  /** The decoder takes exactly the encoded chunks off the front of the octets. */
  lemma {:induction false} DecodesEncoding(cs: seq<Chunk>, rest: string, read: SizeReader)
    requires ValidChunks(cs, read)
    ensures Decode(Decoder(Encode(cs) + rest, None, false), read) ==
            Prepend(Datas(cs), Decode(Decoder(rest, None, false), read))
  {
    if cs == [] {
      assert Encode(cs) + rest == rest;
      PrependNothing(Decode(Decoder(rest, None, false), read));
    } else {
      var tail := Encode(cs[1..]) + rest;
      EncodeHead(cs, rest);
      DecodeLineAndChunk(cs[0], tail, read);
      DecodesEncoding(cs[1..], rest, read);
      PrependTwice([cs[0].data], Datas(cs[1..]), Decode(Decoder(rest, None, false), read));
    }
  }

  lemma EncodeHead(cs: seq<Chunk>, rest: string)
    requires cs != []
    ensures Encode(cs) + rest == cs[0].line + CRLF + (cs[0].data + CRLF + (Encode(cs[1..]) + rest))
  {
  }

  lemma PrependNothing(r: Decoded)
    ensures Prepend([], r) == r
  {
    if r.Ok? { assert [] + r.value.1 == r.value.1; }
  }

  lemma DecodesBody(cs: seq<Chunk>, last: string, beyond: string, read: SizeReader)
    requires ValidChunks(cs, read) && ValidLine(last, 0, read)
    ensures Decode(Decoder(Body(cs, last) + beyond, None, false), read) == Ok((Decoder(beyond, None, true), Datas(cs)))
  {
    var end := last + CRLF + beyond;
    assert Body(cs, last) + beyond == Encode(cs) + end;
    DecodesEncoding(cs, end, read);
    LastLine(last, beyond, read);
    assert Datas(cs) + [] == Datas(cs);
  }

  lemma LastLine(last: string, beyond: string, read: SizeReader)
    requires ValidLine(last, 0, read)
    ensures Decode(Decoder(last + CRLF + beyond, None, false), read) == Ok((Decoder(beyond, None, true), []))
  {
    LineStep(last, 0, beyond, read);
    assert Step(Decoder(beyond, None, true), read) == Wait;
    PrependNothing(Decode(Decoder(beyond, None, true), read));
  }

  /** Before the zero-size line has come in whole the decoder is not complete, and what it has given out
      is the beginning of the list of chunks. */
  lemma NotCompleteEarly(cs: seq<Chunk>, last: string, cut: nat, read: SizeReader)
    requires ValidChunks(cs, read) && ValidLine(last, 0, read) && cut < |Body(cs, last)|
    ensures var r := Decode(Decoder(Body(cs, last)[..cut], None, false), read);
            r.Ok? && !r.value.0.finished && r.value.1 <= Datas(cs)
  {
    var whole := Body(cs, last);
    var got, more := whole[..cut], whole[cut..];
    assert got + more == whole == whole + "";
    DecodesBody(cs, last, "", read);
    DecodeSplits(Decoder(got, None, false), more, read);
    assert Append(Decoder(got, None, false), more) == Decoder(whole, None, false);
    BeforeTheEnd(Decode(Decoder(got, None, false), read), more, Datas(cs), read);
  }

  lemma BeforeTheEnd(r: Decoded, more: string, chunks: seq<string>, read: SizeReader)
    requires Continue(r, more, read) == Ok((Decoder("", None, true), chunks)) && more != ""
    ensures r.Ok? && !r.value.0.finished && r.value.1 <= chunks
  {
    var d := Append(r.value.0, more);
    assert d.finished ==> Step(d, read) == Wait;
  }

  /** What has come in of an encoded body and of what is behind it. */
  lemma PrefixDecodes(cs: seq<Chunk>, last: string, got: string, beyond: string, read: SizeReader)
    requires ValidChunks(cs, read) && ValidLine(last, 0, read) && got <= Body(cs, last) + beyond
    ensures var r := Decode(Decoder(got, None, false), read);
            && r.Ok?
            && r.value.1 <= Datas(cs)
            && (r.value.0.finished <==> |got| >= |Body(cs, last)|)
            && (r.value.0.finished ==> r.value.1 == Datas(cs))
  {
    var whole := Body(cs, last);
    if |got| < |whole| {
      assert got == (whole + beyond)[..|got|] == whole[..|got|];
      NotCompleteEarly(cs, last, |got|, read);
    } else {
      var more := got[|whole|..];
      assert got[..|whole|] == (whole + beyond)[..|whole|] == whole;
      assert got == whole + more;
      DecodesBody(cs, last, more, read);
    }
  }

  /** However the octets of an encoded body come in, what Feed returns is the list of chunks, and the
      decoder is complete exactly when the zero-size line has arrived. */
  lemma DecodingInvertsEncoding(cs: seq<Chunk>, last: string, pieces: seq<string>, beyond: string, maximum: nat)
    requires ValidChunks(cs, Sizes(maximum)) && ValidLine(last, 0, Sizes(maximum))
    requires Concat(pieces) <= Body(cs, last) + beyond
    requires FeedAll(Fresh(), pieces, maximum) != Err(BufferLimit)
    ensures var r := FeedAll(Fresh(), pieces, maximum);
            && r.Ok?
            && r.value.1 <= Datas(cs)
            && (r.value.0.finished <==> |Concat(pieces)| >= |Body(cs, last)|)
            && (r.value.0.finished ==> r.value.1 == Datas(cs))
  {
    FragmentationDoesNotMatter(pieces, maximum);
    PrefixDecodes(cs, last, Concat(pieces), beyond, Sizes(maximum));
  }

  // ---------------------------------------------------------------- when the buffer limit trips

  /** While no line end has come the octets are kept, up to exactly 1 MiB more than the limit on the response. */
  lemma {:induction false} BufferLimitExactly(pieces: seq<string>, maximum: nat)
    requires Find(Concat(pieces), "\r\n").None?
    ensures FeedAll(Fresh(), pieces, maximum) ==
            if |Concat(pieces)| > maximum + 1048576 then Err(BufferLimit) else Ok((Decoder(Concat(pieces), None, false), []))
  {
    if pieces != [] {
      var early, last := pieces[..|pieces| - 1], pieces[|pieces| - 1];
      if Find(Concat(early), "\r\n").Some? {
        FindExtends(Concat(early), last, "\r\n");
      }
      BufferLimitExactly(early, maximum);
      var d := Decoder(Concat(pieces), None, false);
      assert Step(d, Sizes(maximum)) == Wait;
      assert Append(Decoder(Concat(early), None, false), last) == d;
      PrependNothing(Ok((d, [])));
    }
  }

  predicate LinesUpTo(cs: seq<Chunk>, last: string, longest: nat) {
    |last| <= longest && forall i :: 0 <= i < |cs| ==> |cs[i].line| <= longest && |cs[i].data| <= longest
  }

  lemma NoLineYet(line: string, got: string)
    requires Find(line, CRLF).None? && got <= line + CRLF && |got| < |line| + 2
    ensures Find(got, CRLF).None?
  {
    LineEnd(line, "");
    assert line + CRLF + "" == line + CRLF == got + (line + CRLF)[|got|..];
    if Find(got, CRLF).Some? {
      FindExtends(got, (line + CRLF)[|got|..], CRLF);
      assert false;
    }
  }

  lemma BodyHead(cs: seq<Chunk>, last: string)
    requires cs != []
    ensures Body(cs, last) == cs[0].line + CRLF + (cs[0].data + CRLF + Body(cs[1..], last))
  {
  }

  predicate HoldsAtMost(d: Decoder, n: nat, read: SizeReader) {
    var r := Decode(d, read);
    r.Ok? ==> |r.value.0.buffer| <= n
  }

  lemma WaitHolds(d: Decoder, n: nat, read: SizeReader)
    requires Step(d, read) == Wait && |d.buffer| <= n
    ensures HoldsAtMost(d, n, read)
  {
  }

  lemma GoHolds(d: Decoder, next: Decoder, chunks: seq<string>, n: nat, read: SizeReader)
    requires Step(d, read) == Go(next, chunks) && HoldsAtMost(next, n, read)
    ensures HoldsAtMost(d, n, read)
  {
  }

  lemma LineHolds(line: string, got: string, longest: nat, read: SizeReader)
    requires Find(line, CRLF).None? && got <= line + CRLF && |got| < |line| + 2 && |line| <= longest
    ensures HoldsAtMost(Decoder(got, None, false), longest + 1, read)
  {
    NoLineYet(line, got);
    WaitHolds(Decoder(got, None, false), longest + 1, read);
  }

  /** What the decoder holds back is less than one line or one chunk with its CRLF. */
  lemma {:induction false} HeldBack(cs: seq<Chunk>, last: string, got: string, longest: nat, read: SizeReader)
    requires ValidChunks(cs, read) && ValidLine(last, 0, read) && LinesUpTo(cs, last, longest)
    requires got <= Body(cs, last) && |got| < |Body(cs, last)|
    ensures HoldsAtMost(Decoder(got, None, false), longest + 1, read)
    decreases |cs|, 1
  {
    if cs == [] {
      assert Body(cs, last) == last + CRLF;
      LineHolds(last, got, longest, read);
    } else {
      BodyHead(cs, last);
      var line, n := cs[0].line, |cs[0].data|;
      if |got| < |line| + 2 {
        assert got <= line + CRLF;
        LineHolds(line, got, longest, read);
      } else {
        var rest := got[|line| + 2..];
        assert got == line + CRLF + rest;
        LineStep(line, n, rest, read);
        HeldBackBehindLine(cs, last, rest, longest, read);
        GoHolds(Decoder(got, None, false), Decoder(rest, Some(n), false), [], longest + 1, read);
      }
    }
  }

  lemma {:induction false} HeldBackBehindLine(cs: seq<Chunk>, last: string, rest: string, longest: nat, read: SizeReader)
    requires cs != [] && ValidChunks(cs, read) && ValidLine(last, 0, read) && LinesUpTo(cs, last, longest)
    requires rest <= cs[0].data + CRLF + Body(cs[1..], last) && |rest| < |cs[0].data + CRLF + Body(cs[1..], last)|
    ensures HoldsAtMost(Decoder(rest, Some(|cs[0].data|), false), longest + 1, read)
    decreases |cs|, 0
  {
    var data := cs[0].data;
    var d := Decoder(rest, Some(|data|), false);
    if |rest| < |data| + 2 {
      WaitHolds(d, longest + 1, read);
    } else {
      var next := rest[|data| + 2..];
      assert rest == data + CRLF + next && next <= Body(cs[1..], last);
      ChunkStep(data, next, read);
      HeldBack(cs[1..], last, next, longest, read);
      GoHolds(d, Decoder(next, None, false), [data], longest + 1, read);
    }
  }

  /** The buffer limit never trips on an encoded body when a whole size line or chunk and one more piece
      fit under it, as long as none is fed after the decoder is complete. */
  lemma {:induction false} LimitDoesNotTrip(cs: seq<Chunk>, last: string, pieces: seq<string>, beyond: string,
                                            maximum: nat, longest: nat, n: nat)
    requires ValidChunks(cs, Sizes(maximum)) && ValidLine(last, 0, Sizes(maximum)) && LinesUpTo(cs, last, longest)
    requires longest + 1 + n <= maximum + MIB
    requires Concat(pieces) <= Body(cs, last) + beyond
    requires pieces != [] ==> |Concat(pieces[..|pieces| - 1])| < |Body(cs, last)|
    requires forall i :: 0 <= i < |pieces| ==> |pieces[i]| <= n
    ensures FeedAll(Fresh(), pieces, maximum) != Err(BufferLimit)
  {
    if pieces != [] {
      var early, piece := pieces[..|pieces| - 1], pieces[|pieces| - 1];
      var got, whole := Concat(early), Body(cs, last);
      assert got <= Concat(pieces);
      if early != [] {
        assert Concat(early) == Concat(early[..|early| - 1]) + early[|early| - 1];
      }
      LimitDoesNotTrip(cs, last, early, beyond, maximum, longest, n);
      FragmentationDoesNotMatter(early, maximum);
      assert got == (whole + beyond)[..|got|] == whole[..|got|];
      HeldBack(cs, last, got, longest, Sizes(maximum));
      PrefixDecodes(cs, last, got, beyond, Sizes(maximum));
      PrefixDecodes(cs, last, Concat(pieces), beyond, Sizes(maximum));
      DecodeSplits(Decoder(got, None, false), piece, Sizes(maximum));
    }
  }

  /** Hexadecimal digits, blanks around them and an extension behind: the size they write is read. */
  lemma PlainSizes(left: string, digits: string, right: string, extension: string, maximum: nat)
    requires AllBlank(left) && AllBlank(right) && digits != "" && AllDigits(digits, 16)
    requires Value(digits, 16) <= maximum < ULLONG_MODULUS
    requires extension == "" || (extension[0] == ';' && Trimmed(extension))
    ensures ChunkSize(left + digits + right + extension, maximum) == Ok(Value(digits, 16))
  {
    DigitsAreNot(digits);
    StoullOfDigits(digits, 16);
    PlainSizeText(left, digits, right, extension);
  }

  lemma PlainSizeText(left: string, digits: string, right: string, extension: string)
    requires AllBlank(left) && AllBlank(right) && digits != "" && Trimmed(digits)
    requires forall i :: 0 <= i < |digits| ==> digits[i] != ';'
    requires extension == "" || (extension[0] == ';' && Trimmed(extension))
    ensures SizeText(left + digits + right + extension) == digits
  {
    if extension == "" {
      assert left + digits + right + extension == left + digits + right;
      TrimUndoesPadding(left, digits, right);
      TrimUndoesPadding("", digits, "");
      assert "" + digits + "" == digits;
      NoSemicolon(digits);
    } else {
      var core := digits + right + extension;
      assert core[|core| - 1] == extension[|extension| - 1] && core[0] == digits[0];
      assert left + core + "" == left + digits + right + extension;
      TrimUndoesPadding(left, core, "");
      FirstSemicolon(digits + right, extension);
      assert core[..|digits + right|] == "" + digits + right;
      TrimUndoesPadding("", digits, right);
    }
  }

  lemma DigitsAreNot(digits: string)
    requires digits != "" && AllDigits(digits, 16)
    ensures Trimmed(digits) && forall i :: 0 <= i < |digits| ==> digits[i] !in {';', 'x', 'X'}
  {
    forall i | 0 <= i < |digits| ensures digits[i] !in {';', 'x', 'X'} && !IsBlank(digits[i]) {
      assert Digit(digits[i]) < 16;
    }
  }

  lemma NoSemicolon(s: string)
    requires forall i :: 0 <= i < |s| ==> s[i] != ';'
    ensures Find(s, ";").None?
  {
    assert forall i: nat :: Occurs(s, ";", i) ==> s[i..i + 1][0] == ';';
  }

  lemma FirstSemicolon(s: string, t: string)
    requires (forall i :: 0 <= i < |s| ==> s[i] != ';') && t != "" && t[0] == ';'
    ensures Find(s + t, ";") == Some(|s|)
  {
    assert (s + t)[|s|..|s| + 1] == ";";
    assert Occurs(s + t, ";", |s|);
    forall j | 0 <= j < |s| ensures !Occurs(s + t, ";", j) {
      assert (s + t)[j..j + 1][0] == s[j];
    }
  }
}
