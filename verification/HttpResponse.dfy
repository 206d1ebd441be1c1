/**
 ParseResponseHeaders and the receive loop of ResolveHttpRequest (main.cpp): which response comes out of
 the octets a server sends (sections 6 and 7.1 of RFC 9112), however the socket cuts them.
 */
module HttpResponse {
  import opened Wrappers
  import opened Text
  import opened Chunked

  const BLANK_LINE := "\r\n\r\n"

  datatype HttpError =
    | HeaderLimit | BadStatusLine | BadLength(error: NumberError) | LengthLimit | BodyLimit
    | BadChunk(chunk: ChunkError) | SocketFailed | NoHeaders | ChunkedIncomplete | LengthMismatch

  // ---------------------------------------------------------------- ParseResponseHeaders

  datatype Head = Head(version: string, status: int, reason: string, headers: seq<(string, string)>)

  function TokenEnd(s: string, i: nat): (e: nat)
    requires i <= |s|
    ensures i <= e <= |s|
    decreases |s| - i
  {
    if i < |s| && !IsSpace(s[i]) then TokenEnd(s, i + 1) else i
  }

  /** `stream >> int`: skips blanks, takes a sign and digits; None stands for the failed stream. */
  function ReadInt(s: string): (r: Option<(int, string)>)
  {
    var i := SpaceEnd(s, 0);
    var signed := i < |s| && s[i] in {'+', '-'};
    var first := if signed then i + 1 else i;
    var end := DigitsEnd(s, 10, first);
    var v: int := Value(s[first..end], 10);
    var n := if signed && s[i] == '-' then -v else v;
    if end == first || !(-0x8000_0000 <= n < 0x8000_0000) then None else Some((n, s[end..]))
  }

  /** Version, status and reason of the first line. */
  function ParseStatusLine(line: string): Result<(string, int, string), HttpError> {
    var i := SpaceEnd(line, 0);
    var end := TokenEnd(line, i);
    var version := line[i..end];
    match ReadInt(line[end..])
    case None => Err(BadStatusLine)
    case Some((status, rest)) =>
      var newline := Find(rest, "\n");
      if !("HTTP/" <= version) || status < 100 || status > 999 then Err(BadStatusLine)
      else Ok((version, status, TrimAscii(if newline.Some? then rest[..newline.value] else rest)))
  }

  /** One header line: name and value, or nothing if there is no colon. */
  function Field(line: string): seq<(string, string)> {
    match Find(line, ":")
    case None => []
    case Some(colon) => [(LowerAscii(TrimAscii(line[..colon])), TrimAscii(line[colon + 1..]))]
  }

  function FirstLine(block: string): string {
    var finish := Find(block, CRLF);
    if finish.Some? then block[..finish.value] else block
  }

  function AfterLine(block: string): (rest: string)
    ensures block != "" ==> |rest| < |block|
  {
    var finish := Find(block, CRLF);
    if finish.Some? then block[finish.value + 2..] else ""
  }

  function Fields(block: string): seq<(string, string)>
    decreases |block|
  {
    if block == "" then [] else Field(FirstLine(block)) + Fields(AfterLine(block))
  }

  function ParseHead(block: string): (r: Result<Head, HttpError>)
    ensures r.Err? ==> r.error == BadStatusLine
  {
    match ParseStatusLine(FirstLine(block))
    case Err(e) => Err(e)
    case Ok((version, status, reason)) => Ok(Head(version, status, reason, Fields(AfterLine(block))))
  }

  method ParseResponseHeaders(block: string) returns (r: Result<Head, HttpError>)
    ensures r == ParseHead(block)
  {
    var firstEnd := Find(block, CRLF);
    var status := ParseStatusLine(if firstEnd.Some? then block[..firstEnd.value] else block);
    if status.Err? {
      return Err(status.error);
    }
    var headers := ReadFields(if firstEnd.None? then "" else block[firstEnd.value + 2..]);
    return Ok(Head(status.value.0, status.value.1, status.value.2, headers));
  }

  /** The loop over the header lines; `rest` is the block from `position` on. */
  method ReadFields(lines: string) returns (headers: seq<(string, string)>)
    ensures headers == Fields(lines)
  {
    headers := [];
    var rest := lines;
    while rest != ""
      invariant Fields(lines) == headers + Fields(rest)
      decreases |rest|
    {
      var finish := Find(rest, CRLF);
      FieldAdded(headers, Field(FirstLine(rest)), Fields(AfterLine(rest)));
      headers := headers + Field(if finish.Some? then rest[..finish.value] else rest);
      rest := if finish.Some? then rest[finish.value + 2..] else "";
    }
  }

  lemma FieldAdded(before: seq<(string, string)>, field: seq<(string, string)>, after: seq<(string, string)>)
    ensures before + (field + after) == before + field + after
  {
  }

  /** ResponseHeader: the first field of that name, or nothing. */
  function Lookup(headers: seq<(string, string)>, name: string): string {
    if headers == [] then "" else if headers[0].0 == name then headers[0].1 else Lookup(headers[1..], name)
  }

  // ---------------------------------------------------------------- how the body is delimited

  datatype Start = Start(head: Head, chunked: bool, length: Option<nat>, bodyless: bool)

  type StartReader = string -> Result<Start, HttpError>

  /** What the loop decides once the header block is there. */
  function ReadStart(block: string, headRequest: bool, maximum: nat): (r: Result<Start, HttpError>)
    ensures r.Ok? && r.value.length.Some? ==> r.value.length.value <= maximum
    ensures r.Err? ==> r.error == BadStatusLine || r.error == LengthLimit || r.error.BadLength?
  {
    match ParseHead(block)
    case Err(e) => Err(e)
    case Ok(head) =>
      var chunked := Find(LowerAscii(Lookup(head.headers, "transfer-encoding")), "chunked").Some?;
      var bodyless := headRequest || head.status == 204 || head.status == 304;
      var text := Lookup(head.headers, "content-length");
      if text == "" then Ok(Start(head, chunked, None, bodyless))
      else
        match Stoull(text, 10)
        case Err(e) => Err(BadLength(e))
        case Ok((length, _)) =>
          if length > maximum then Err(LengthLimit) else Ok(Start(head, chunked, Some(length), bodyless))
  }

  /** The limit, and how header blocks and size lines are read. */
  datatype Config = Config(maximum: nat, start: StartReader, size: SizeReader)

  function Configured(headRequest: bool, maximum: nat): Config {
    Config(maximum, block => ReadStart(block, headRequest, maximum), Sizes(maximum))
  }

  ghost predicate LengthsFit(cfg: Config) {
    forall block: string :: cfg.start(block).Ok? && cfg.start(block).value.length.Some? ==>
      cfg.start(block).value.length.value <= cfg.maximum
  }

  // ---------------------------------------------------------------- one response on all its octets

  datatype Response = Response(head: Head, body: string)

  /** How the connection ends after the last octets. */
  datatype Ending = Closed | Broken

  /** The response that a whole octet stream carries. */
  function Reference(cfg: Config, stream: string, ending: Ending): Result<Response, HttpError> {
    match Find(stream, BLANK_LINE)
    case None => Err(NoHeaders)
    case Some(end) =>
      match cfg.start(stream[..end])
      case Err(e) => Err(e)
      case Ok(start) => ReferenceBody(cfg, start, stream[end + 4..], ending)
  }

  function ReferenceBody(cfg: Config, start: Start, rest: string, ending: Ending): Result<Response, HttpError> {
    if start.bodyless then
      if start.chunked then Err(ChunkedIncomplete) else Ok(Response(start.head, ""))
    else if start.chunked then
      match Decode(Decoder(rest, None, false), cfg.size)
      case Err(e) => Err(BadChunk(e))
      case Ok((d, chunks)) =>
        if !d.finished then Err(ChunkedIncomplete)
        else if |Concat(chunks)| > cfg.maximum then Err(BodyLimit)
        else if start.length.Some? && start.length.value != |Concat(chunks)| then Err(LengthMismatch)
        else Ok(Response(start.head, Concat(chunks)))
    else if start.length.Some? then
      if |rest| < start.length.value then Err(LengthMismatch)
      else Ok(Response(start.head, rest[..start.length.value]))
    else if ending.Broken? then Err(SocketFailed)
    else if |rest| > cfg.maximum then Err(BodyLimit)
    else Ok(Response(start.head, rest))
  }

  // ---------------------------------------------------------------- the loop

  /** The variables of the loop; emitted holds what on_chunk has been given. */
  datatype Loop = Loop(pending: string, start: Option<Start>, decoder: Decoder, body: string, emitted: seq<string>, finished: bool)

  function Begin(): Loop { Loop("", None, Fresh(), "", [], false) }

  function AppendBody(l: Loop, chunk: string, maximum: nat): Result<Loop, HttpError> {
    if |l.body| + |chunk| > maximum then Err(BodyLimit)
    else Ok(l.(body := l.body + chunk, emitted := if chunk == "" then l.emitted else l.emitted + [chunk]))
  }

  function AppendChunks(l: Loop, chunks: seq<string>, maximum: nat): Result<Loop, HttpError> {
    if chunks == [] then Ok(l)
    else
      match AppendChunks(l, chunks[..|chunks| - 1], maximum)
      case Err(e) => Err(e)
      case Ok(m) => AppendBody(m, chunks[|chunks| - 1], maximum)
  }

  function DecoderFed(cfg: Config, d: Decoder, data: string): Decoded {
    if |d.buffer + data| > cfg.maximum + MIB then Err(BufferLimit) else Decode(Append(d, data), cfg.size)
  }

  /** What a turn does with octets of the body. */
  function TakeBody(cfg: Config, l: Loop, data: string): Result<Loop, HttpError>
    requires l.start.Some?
  {
    var start := l.start.value;
    if start.chunked then TakeChunked(cfg, l, data)
    else if start.length.Some? then
      var needed := if start.length.value > |l.body| then start.length.value - |l.body| else 0;
      match AppendBody(l, if needed < |data| then data[..needed] else data, cfg.maximum)
      case Err(e) => Err(e)
      case Ok(m) => Ok(m.(finished := |m.body| >= start.length.value))
    else AppendBody(l, data, cfg.maximum)
  }

  function TakeChunked(cfg: Config, l: Loop, data: string): Result<Loop, HttpError> {
    match DecoderFed(cfg, l.decoder, data)
    case Err(e) => Err(BadChunk(e))
    case Ok((d, chunks)) =>
      match AppendChunks(l, chunks, cfg.maximum)
      case Err(e) => Err(e)
      case Ok(m) => Ok(m.(decoder := d, finished := d.finished))
  }

  /** One turn of the loop with the octets one receive returned. */
  function Turn(cfg: Config, l: Loop, incoming: string): Result<Loop, HttpError> {
    if l.start.Some? then TakeBody(cfg, l, incoming)
    else
      var pending := l.pending + incoming;
      if |pending| > MIB then Err(HeaderLimit)
      else
        match Find(pending, BLANK_LINE)
        case None => Ok(l.(pending := pending))
        case Some(end) =>
          match cfg.start(pending[..end])
          case Err(e) => Err(e)
          case Ok(start) =>
            var m := l.(pending := "", start := Some(start), finished := start.bodyless);
            if start.bodyless then Ok(m) else TakeBody(cfg, m, pending[end + 4..])
  }

  /** The loop over successive receives; it stops reading once it has finished. */
  function Turns(cfg: Config, pieces: seq<string>): Result<Loop, HttpError> {
    if pieces == [] then Ok(Begin())
    else
      match Turns(cfg, pieces[..|pieces| - 1])
      case Err(e) => Err(e)
      case Ok(l) => if l.finished then Ok(l) else Turn(cfg, l, pieces[|pieces| - 1])
  }

  /** The checks behind the loop. */
  function Check(l: Loop): Result<Response, HttpError> {
    if l.start.None? then Err(NoHeaders)
    else
      var start := l.start.value;
      if start.chunked && !l.decoder.finished then Err(ChunkedIncomplete)
      else if start.length.Some? && !start.bodyless && |l.body| != start.length.value then Err(LengthMismatch)
      else Ok(Response(start.head, l.body))
  }

  function Outcome(cfg: Config, pieces: seq<string>, ending: Ending): Result<Response, HttpError> {
    match Turns(cfg, pieces)
    case Err(e) => Err(e)
    case Ok(l) => if !l.finished && ending.Broken? then Err(SocketFailed) else Check(l)
  }

  // ---------------------------------------------------------------- the loop follows the octet stream

  /** The loop's variables say what the octets so far say; once finished, later octets do not matter. */
  ghost predicate Follows(cfg: Config, l: Loop, stream: string) {
    var end := Find(stream, BLANK_LINE);
    && Concat(l.emitted) == l.body
    && |l.body| <= cfg.maximum
    && if l.start.None? then
         end.None? && l == Begin().(pending := stream)
       else
         && end.Some?
         && cfg.start(stream[..end.value]) == Ok(l.start.value)
         && FollowsBody(cfg, l, stream[end.value + 4..])
  }

  ghost predicate FollowsBody(cfg: Config, l: Loop, rest: string)
    requires l.start.Some?
  {
    var start := l.start.value;
    if start.bodyless then l.finished && l.body == "" && l.decoder == Fresh()
    else if start.chunked then FollowsChunks(l, Decode(Decoder(rest, None, false), cfg.size))
    else if start.length.Some? then
      && l.finished == (|rest| >= start.length.value)
      && l.body == if l.finished then rest[..start.length.value] else rest
    else !l.finished && l.body == rest
  }

  /** The same before a turn: the loop is still reading. */
  ghost predicate Reading(cfg: Config, l: Loop, rest: string)
    requires l.start.Some?
  {
    var start := l.start.value;
    && !start.bodyless && !l.finished
    && if start.chunked then FollowsChunks(l, Decode(Decoder(rest, None, false), cfg.size))
       else l.body == rest && (start.length.Some? ==> |rest| <= start.length.value)
  }

  predicate FollowsChunks(l: Loop, r: Decoded) {
    && r.Ok?
    && l.finished == l.decoder.finished == r.value.0.finished
    && l.body == Concat(r.value.1)
    && (!l.finished ==> r.value.0 == l.decoder)
  }

  /** No continuation of these octets carries a response. */
  ghost predicate Hopeless(cfg: Config, stream: string) {
    forall more: string, ending: Ending :: Reference(cfg, stream + more, ending).Err?
  }

  lemma HopelessExtends(cfg: Config, stream: string, more: string)
    requires Hopeless(cfg, stream)
    ensures Hopeless(cfg, stream + more)
  {
    forall t: string, ending: Ending ensures Reference(cfg, stream + more + t, ending).Err? {
      assert stream + more + t == stream + (more + t);
    }
  }

  lemma {:induction false} ConcatAppend(a: seq<string>, b: seq<string>)
    ensures Concat(a + b) == Concat(a) + Concat(b)
  {
    if b == [] {
      assert a + b == a;
    } else {
      assert (a + b)[..|a + b| - 1] == a + b[..|b| - 1];
      ConcatAppend(a, b[..|b| - 1]);
    }
  }

  lemma ConcatOne(a: seq<string>, chunk: string)
    ensures Concat(a + [chunk]) == Concat(a) + chunk
  {
    assert (a + [chunk])[..|a|] == a;
  }

  /** Appending the chunks one by one appends their concatenation, and fails just when that is too long. */
  predicate Appends(l: Loop, text: string, r: Result<Loop, HttpError>, maximum: nat) {
    && (r.Err? <==> |l.body| + |text| > maximum)
    && (r.Ok? ==> r.value == l.(body := l.body + text, emitted := r.value.emitted))
    && (r.Ok? ==> Concat(r.value.emitted) == r.value.body)
  }

  lemma {:induction false} AppendsAll(l: Loop, chunks: seq<string>, maximum: nat)
    requires Concat(l.emitted) == l.body && |l.body| <= maximum
    ensures Appends(l, Concat(chunks), AppendChunks(l, chunks, maximum), maximum)
  {
    if chunks == [] {
      assert l.body + "" == l.body;
    } else {
      var early, last := chunks[..|chunks| - 1], chunks[|chunks| - 1];
      AppendsAll(l, early, maximum);
      var r := AppendChunks(l, early, maximum);
      if r.Ok? {
        AppendsOne(l, Concat(early), r.value, last, maximum);
      }
    }
  }

  lemma AppendsOne(l: Loop, text: string, m: Loop, chunk: string, maximum: nat)
    requires Appends(l, text, Ok(m), maximum)
    ensures Appends(l, text + chunk, AppendBody(m, chunk, maximum), maximum)
  {
    assert l.body + text + chunk == l.body + (text + chunk);
    ConcatOne(m.emitted, chunk);
    assert m.body + "" == m.body;
  }

  /** A turn with chunked octets: rest is what has been decoded so far. */
  lemma FollowsChunked(cfg: Config, l: Loop, rest: string, data: string)
    requires FollowsChunks(l, Decode(Decoder(rest, None, false), cfg.size)) && !l.finished
    requires Concat(l.emitted) == l.body && |l.body| <= cfg.maximum
    ensures var r := TakeChunked(cfg, l, data);
            var all := Decode(Decoder(rest + data, None, false), cfg.size);
            || r == Err(BadChunk(BufferLimit))
            || (r.Err? && (all.Err? || |Concat(all.value.1)| > cfg.maximum))
            || (r.Ok? && FollowsChunks(r.value, all) && Concat(r.value.emitted) == r.value.body && |r.value.body| <= cfg.maximum
                && r.value.start == l.start)
  {
    var d := Decoder(rest, None, false);
    DecodeSplits(d, data, cfg.size);
    var fed := DecoderFed(cfg, l.decoder, data);
    if fed.Ok? {
      AppendsAll(l, fed.value.1, cfg.maximum);
      ConcatAppend(Decode(d, cfg.size).value.1, fed.value.1);
    }
  }

  ghost predicate HopelessBody(cfg: Config, start: Start, rest: string) {
    forall more: string, ending: Ending :: ReferenceBody(cfg, start, rest + more, ending).Err?
  }

  lemma ChunksAreHopeless(cfg: Config, start: Start, rest: string)
    requires !start.bodyless && start.chunked
    requires var all := Decode(Decoder(rest, None, false), cfg.size); all.Err? || |Concat(all.value.1)| > cfg.maximum
    ensures HopelessBody(cfg, start, rest)
  {
    forall more: string, ending: Ending ensures ReferenceBody(cfg, start, rest + more, ending).Err? {
      LongerChunks(rest, more, cfg.size);
    }
  }

  lemma LongerChunks(rest: string, more: string, read: SizeReader)
    ensures var r, all := Decode(Decoder(rest, None, false), read), Decode(Decoder(rest + more, None, false), read);
            && (r.Err? ==> all.Err?)
            && (r.Ok? && all.Ok? ==> |Concat(r.value.1)| <= |Concat(all.value.1)|)
  {
    var d := Decoder(rest, None, false);
    DecodeSplits(d, more, read);
    var r := Decode(d, read);
    if r.Ok? {
      var next := Decode(Append(r.value.0, more), read);
      if next.Ok? {
        ConcatAppend(r.value.1, next.value.1);
      }
    }
  }

  /** What holds of the loop besides the body: on_chunk has been given exactly the body, within the limit. */
  predicate Conserves(l: Loop, maximum: nat) {
    Concat(l.emitted) == l.body && |l.body| <= maximum
  }

  ghost predicate TurnsOut(cfg: Config, start: Start, rest: string, r: Result<Loop, HttpError>) {
    || r == Err(BadChunk(BufferLimit))
    || (r.Err? && HopelessBody(cfg, start, rest))
    || (r.Ok? && r.value.start == Some(start) && FollowsBody(cfg, r.value, rest) && Conserves(r.value, cfg.maximum))
  }

  lemma BodyTurn(cfg: Config, l: Loop, rest: string, data: string)
    requires l.start.Some? && Reading(cfg, l, rest) && Conserves(l, cfg.maximum)
    requires l.start.value.length.Some? ==> l.start.value.length.value <= cfg.maximum
    ensures TurnsOut(cfg, l.start.value, rest + data, TakeBody(cfg, l, data))
  {
    var start := l.start.value;
    if start.chunked {
      FollowsChunked(cfg, l, rest, data);
      var all := Decode(Decoder(rest + data, None, false), cfg.size);
      if all.Err? || |Concat(all.value.1)| > cfg.maximum {
        ChunksAreHopeless(cfg, start, rest + data);
      }
    } else if start.length.Some? {
      LengthTurn(cfg, l, start.length.value, rest, data);
    } else {
      CloseTurn(cfg, l, rest, data);
    }
  }

  lemma LengthTurn(cfg: Config, l: Loop, length: nat, rest: string, data: string)
    requires l.start.Some? && Reading(cfg, l, rest) && Conserves(l, cfg.maximum)
    requires !l.start.value.chunked && l.start.value.length == Some(length) && length <= cfg.maximum
    ensures TurnsOut(cfg, l.start.value, rest + data, TakeBody(cfg, l, data))
  {
    var needed := length - |rest|;
    var piece := if needed < |data| then data[..needed] else data;
    ConcatOne(l.emitted, piece);
    assert l.body + "" == l.body;
    assert rest + piece == if needed < |data| then (rest + data)[..length] else rest + data;
    if needed <= |data| {
      assert (rest + data)[..length] == rest + data[..needed];
    }
  }

  lemma CloseTurn(cfg: Config, l: Loop, rest: string, data: string)
    requires l.start.Some? && Reading(cfg, l, rest) && Conserves(l, cfg.maximum)
    requires !l.start.value.chunked && l.start.value.length.None?
    ensures TurnsOut(cfg, l.start.value, rest + data, TakeBody(cfg, l, data))
  {
    ConcatOne(l.emitted, data);
    assert l.body + "" == l.body;
    if |rest + data| > cfg.maximum {
      forall more: string, ending: Ending ensures ReferenceBody(cfg, l.start.value, rest + data + more, ending).Err? {
      }
    }
  }

  // ---------------------------------------------------------------- the header block arrives

  lemma HopelessFrom(cfg: Config, stream: string)
    requires Find(stream, BLANK_LINE).Some?
    requires var end := Find(stream, BLANK_LINE).value;
             var start := cfg.start(stream[..end]);
             start.Ok? ==> HopelessBody(cfg, start.value, stream[end + 4..])
    ensures Hopeless(cfg, stream)
  {
    var end := Find(stream, BLANK_LINE).value;
    forall more: string, ending: Ending ensures Reference(cfg, stream + more, ending).Err? {
      FindExtends(stream, more, BLANK_LINE);
      assert (stream + more)[..end] == stream[..end];
      assert (stream + more)[end + 4..] == stream[end + 4..] + more;
    }
  }

  ghost predicate Goes(cfg: Config, stream: string, r: Result<Loop, HttpError>) {
    || r == Err(HeaderLimit)
    || r == Err(BadChunk(BufferLimit))
    || (r.Err? && Hopeless(cfg, stream))
    || (r.Ok? && Follows(cfg, r.value, stream))
  }

  lemma BodyGoes(cfg: Config, stream: string, start: Start, r: Result<Loop, HttpError>)
    requires Find(stream, BLANK_LINE).Some? && cfg.start(stream[..Find(stream, BLANK_LINE).value]) == Ok(start)
    requires TurnsOut(cfg, start, stream[Find(stream, BLANK_LINE).value + 4..], r)
    ensures Goes(cfg, stream, r)
  {
    if r.Err? && r != Err(BadChunk(BufferLimit)) {
      HopelessFrom(cfg, stream);
    }
  }

  lemma TurnGoes(cfg: Config, l: Loop, stream: string, incoming: string)
    requires LengthsFit(cfg) && Follows(cfg, l, stream) && !l.finished
    ensures Goes(cfg, stream + incoming, Turn(cfg, l, incoming))
  {
    var all := stream + incoming;
    if l.start.Some? {
      var end := Find(stream, BLANK_LINE).value;
      FindExtends(stream, incoming, BLANK_LINE);
      assert all[..end] == stream[..end];
      assert all[end + 4..] == stream[end + 4..] + incoming;
      BodyTurn(cfg, l, stream[end + 4..], incoming);
      BodyGoes(cfg, all, l.start.value, Turn(cfg, l, incoming));
    } else if |all| <= MIB && Find(all, BLANK_LINE).Some? {
      HeadersGo(cfg, l, all, incoming);
    }
  }

  lemma HeadersGo(cfg: Config, l: Loop, all: string, incoming: string)
    requires LengthsFit(cfg) && l.start.None? && l == Begin().(pending := l.pending) && all == l.pending + incoming
    requires |all| <= MIB && Find(all, BLANK_LINE).Some?
    ensures Goes(cfg, all, Turn(cfg, l, incoming))
  {
    var end := Find(all, BLANK_LINE).value;
    var start := cfg.start(all[..end]);
    if start.Err? {
      HopelessFrom(cfg, all);
    } else {
      var m := l.(pending := "", start := Some(start.value), finished := start.value.bodyless);
      var rest := all[end + 4..];
      if !start.value.bodyless {
        assert Step(Fresh(), cfg.size) == Wait;
        assert "" + rest == rest;
        BodyTurn(cfg, m, "", rest);
        BodyGoes(cfg, all, start.value, TakeBody(cfg, m, rest));
      }
    }
  }

  // ---------------------------------------------------------------- main results

  /** Once the loop has finished, octets behind the response change nothing. */
  lemma FinishedStays(cfg: Config, l: Loop, stream: string, more: string)
    requires Follows(cfg, l, stream) && l.finished
    ensures Follows(cfg, l, stream + more)
  {
    var end := Find(stream, BLANK_LINE).value;
    var rest := stream[end + 4..];
    FindExtends(stream, more, BLANK_LINE);
    assert (stream + more)[..end] == stream[..end];
    assert (stream + more)[end + 4..] == rest + more;
    if l.start.value.chunked && !l.start.value.bodyless {
      FinishedChunksStay(l, rest, more, cfg.size);
    }
  }

  lemma FinishedChunksStay(l: Loop, rest: string, more: string, read: SizeReader)
    requires FollowsChunks(l, Decode(Decoder(rest, None, false), read)) && l.finished
    ensures FollowsChunks(l, Decode(Decoder(rest + more, None, false), read))
  {
    var d := Decoder(rest, None, false);
    DecodeSplits(d, more, read);
    var (after, chunks) := Decode(d, read).value;
    assert Step(Append(after, more), read) == Wait;
    assert chunks + [] == chunks;
  }

  lemma {:induction false} TurnsGo(cfg: Config, pieces: seq<string>)
    requires LengthsFit(cfg)
    ensures Goes(cfg, Concat(pieces), Turns(cfg, pieces))
  {
    if pieces != [] {
      var early, last := pieces[..|pieces| - 1], pieces[|pieces| - 1];
      TurnsGo(cfg, early);
      var r := Turns(cfg, early);
      if r.Err? {
        if Hopeless(cfg, Concat(early)) {
          HopelessExtends(cfg, Concat(early), last);
        }
      } else if r.value.finished {
        FinishedStays(cfg, r.value, Concat(early), last);
      } else {
        TurnGoes(cfg, r.value, Concat(early), last);
      }
    }
  }

  predicate LimitTripped(r: Result<Response, HttpError>) {
    r == Err(HeaderLimit) || r == Err(BadChunk(BufferLimit))
  }

  /** The same response, or no response either way. */
  predicate SameOutcome(r: Result<Response, HttpError>, s: Result<Response, HttpError>) {
    (r.Ok? <==> s.Ok?) && (r.Ok? ==> r == s)
  }

  lemma CheckIsReference(cfg: Config, l: Loop, stream: string, ending: Ending)
    requires Follows(cfg, l, stream)
    ensures SameOutcome(if !l.finished && ending.Broken? then Err(SocketFailed) else Check(l), Reference(cfg, stream, ending))
  {
  }

  /** Header blocks and size lines are never what trips a limit. */
  ghost predicate NeverTrips(cfg: Config) {
    && (forall line: string :: cfg.size(line) != Err(BufferLimit))
    && (forall block: string :: cfg.start(block) != Err(HeaderLimit) && cfg.start(block) != Err(BadChunk(BufferLimit)))
  }

  lemma ConfiguredFits(headRequest: bool, maximum: nat)
    ensures LengthsFit(Configured(headRequest, maximum)) && NeverTrips(Configured(headRequest, maximum))
  {
    var cfg := Configured(headRequest, maximum);
    forall line: string ensures cfg.size(line) != Err(BufferLimit) {
      assert cfg.size(line) == ChunkSize(line, maximum);
    }
    forall block: string ensures cfg.start(block) == ReadStart(block, headRequest, maximum) {
    }
  }

  /** The outcome depends only on the concatenation of what was received, unless one of the two limits on
      buffered octets trips; and what comes out is what the octets say. */
  lemma OutcomeIsReference(headRequest: bool, maximum: nat, pieces: seq<string>, ending: Ending)
    ensures var cfg := Configured(headRequest, maximum);
            var r := Outcome(cfg, pieces, ending);
            LimitTripped(r) || SameOutcome(r, Reference(cfg, Concat(pieces), ending))
  {
    var cfg := Configured(headRequest, maximum);
    ConfiguredFits(headRequest, maximum);
    OutcomeFollows(cfg, pieces, ending);
  }

  lemma OutcomeFollows(cfg: Config, pieces: seq<string>, ending: Ending)
    requires LengthsFit(cfg)
    ensures var r := Outcome(cfg, pieces, ending);
            LimitTripped(r) || SameOutcome(r, Reference(cfg, Concat(pieces), ending))
  {
    TurnsGo(cfg, pieces);
    var r := Turns(cfg, pieces);
    if r.Ok? {
      CheckIsReference(cfg, r.value, Concat(pieces), ending);
    } else if Hopeless(cfg, Concat(pieces)) {
      assert Concat(pieces) + "" == Concat(pieces);
    }
  }

  /** At every point of every run, on_chunk has been given exactly the body so far, and no more than the limit. */
  lemma EmittedIsBody(headRequest: bool, maximum: nat, pieces: seq<string>)
    ensures var r := Turns(Configured(headRequest, maximum), pieces); r.Ok? ==> Conserves(r.value, maximum)
  {
    ConfiguredFits(headRequest, maximum);
    TurnsGo(Configured(headRequest, maximum), pieces);
  }

  /** A response that by its request or status has no body is refused just when it also declares chunked coding. */
  lemma BodylessAndChunked(headRequest: bool, maximum: nat, pieces: seq<string>, ending: Ending)
    requires var cfg := Configured(headRequest, maximum);
             var end := Find(Concat(pieces), BLANK_LINE);
             end.Some? && cfg.start(Concat(pieces)[..end.value]).Ok? && cfg.start(Concat(pieces)[..end.value]).value.bodyless
    requires !LimitTripped(Outcome(Configured(headRequest, maximum), pieces, ending))
    ensures var cfg := Configured(headRequest, maximum);
            var start := cfg.start(Concat(pieces)[..Find(Concat(pieces), BLANK_LINE).value]).value;
            Outcome(cfg, pieces, ending).Err? <==> start.chunked
  {
    OutcomeIsReference(headRequest, maximum, pieces, ending);
  }

  // ---------------------------------------------------------------- when no limit trips

  /** Room for every way of receiving whole in pieces of at most n octets. */
  ghost predicate Roomy(cfg: Config, whole: string, n: nat) {
    match Find(whole, BLANK_LINE)
    case None => |whole| <= MIB
    case Some(end) =>
      && end + 3 + n <= MIB
      && (cfg.start(whole[..end]).Ok? && cfg.start(whole[..end]).value.chunked ==> HoldsLittle(cfg, whole[end + 4..], n))
  }

  /** However much of the body has come, what is held back and one more piece fit under the decoder's limit. */
  ghost predicate HoldsLittle(cfg: Config, rest: string, n: nat) {
    forall cut: nat :: cut <= |rest| ==> HoldsLittleAt(cfg, rest[..cut], n)
  }

  predicate HoldsLittleAt(cfg: Config, got: string, n: nat) {
    var r := Decode(Decoder(got, None, false), cfg.size);
    r.Ok? && !r.value.0.finished ==> |r.value.0.buffer| + n <= cfg.maximum + MIB
  }

  lemma ChunkedDoesNotTrip(cfg: Config, l: Loop, data: string)
    requires |l.decoder.buffer| + |data| <= cfg.maximum + MIB && NeverTrips(cfg)
    ensures TakeChunked(cfg, l, data) != Err(BadChunk(BufferLimit))
  {
    DecodeDoesNotTrip(Append(l.decoder, data), cfg.size);
    ChunksOnlyOverflow(l, DecoderFed(cfg, l.decoder, data), cfg.maximum);
  }

  lemma ChunksOnlyOverflow(l: Loop, r: Decoded, maximum: nat)
    ensures r.Ok? ==> AppendChunks(l, r.value.1, maximum) != Err(BadChunk(BufferLimit))
  {
    if r.Ok? {
      OnlyOverflow(l, r.value.1, maximum);
    }
  }

  lemma {:induction false} OnlyOverflow(l: Loop, chunks: seq<string>, maximum: nat)
    ensures var r := AppendChunks(l, chunks, maximum); r.Err? ==> r.error == BodyLimit
  {
    if chunks != [] {
      OnlyOverflow(l, chunks[..|chunks| - 1], maximum);
    }
  }

  ghost predicate Trips(r: Result<Loop, HttpError>) {
    r == Err(HeaderLimit) || r == Err(BadChunk(BufferLimit))
  }

  lemma TurnDoesNotTrip(cfg: Config, l: Loop, stream: string, incoming: string, whole: string, n: nat)
    requires Follows(cfg, l, stream) && !l.finished && stream + incoming <= whole && |incoming| <= n
    requires Roomy(cfg, whole, n) && NeverTrips(cfg)
    ensures !Trips(Turn(cfg, l, incoming))
  {
    if l.start.Some? {
      BodyDoesNotTrip(cfg, l, stream, incoming, whole, n);
    } else {
      PendingFits(stream, incoming, whole, n);
      var pending := stream + incoming;
      if Find(pending, BLANK_LINE).Some? {
        var end := Find(pending, BLANK_LINE).value;
        var start := cfg.start(pending[..end]);
        if start.Ok? && start.value.chunked {
          var m := l.(pending := "", start := Some(start.value), finished := start.value.bodyless);
          ChunkedDoesNotTrip(cfg, m, pending[end + 4..]);
          OnlyThoseErrors(cfg, m, pending[end + 4..]);
        }
      }
    }
  }

  lemma PendingFits(stream: string, incoming: string, whole: string, n: nat)
    requires Find(stream, BLANK_LINE).None? && stream + incoming <= whole && |incoming| <= n
    requires match Find(whole, BLANK_LINE) case None => |whole| <= MIB case Some(end) => end + 3 + n <= MIB
    ensures |stream + incoming| <= MIB
  {
    if Find(whole, BLANK_LINE).Some? {
      var end := Find(whole, BLANK_LINE).value;
      assert end + 4 <= |stream| ==> stream[end..end + 4] == whole[end..end + 4];
      assert end + 4 <= |stream| ==> Occurs(stream, BLANK_LINE, end);
    }
  }

  lemma BodyDoesNotTrip(cfg: Config, l: Loop, stream: string, incoming: string, whole: string, n: nat)
    requires Follows(cfg, l, stream) && !l.finished && l.start.Some? && stream + incoming <= whole && |incoming| <= n
    requires Roomy(cfg, whole, n) && NeverTrips(cfg)
    ensures !Trips(TakeBody(cfg, l, incoming))
  {
    if l.start.value.chunked {
      HeldSoFar(cfg, stream, whole, n);
      ChunkedDoesNotTrip(cfg, l, incoming);
      OnlyThoseErrors(cfg, l, incoming);
    }
  }

  lemma HeldSoFar(cfg: Config, stream: string, whole: string, n: nat)
    requires stream <= whole && Roomy(cfg, whole, n) && Find(stream, BLANK_LINE).Some?
    requires var start := cfg.start(stream[..Find(stream, BLANK_LINE).value]); start.Ok? && start.value.chunked
    ensures HoldsLittleAt(cfg, stream[Find(stream, BLANK_LINE).value + 4..], n)
  {
    var end := Find(stream, BLANK_LINE).value;
    assert stream + whole[|stream|..] == whole;
    FindExtends(stream, whole[|stream|..], BLANK_LINE);
    assert whole[..end] == stream[..end];
    var cut := |stream| - end - 4;
    assert whole[end + 4..][..cut] == stream[end + 4..];
    assert HoldsLittleAt(cfg, whole[end + 4..][..cut], n);
  }

  lemma OnlyThoseErrors(cfg: Config, l: Loop, data: string)
    ensures TakeChunked(cfg, l, data) != Err(HeaderLimit)
  {
    var fed := DecoderFed(cfg, l.decoder, data);
    if fed.Ok? {
      OnlyOverflow(l, fed.value.1, cfg.maximum);
    }
  }

  lemma {:induction false} TurnsDoNotTrip(cfg: Config, pieces: seq<string>, whole: string, n: nat)
    requires LengthsFit(cfg) && NeverTrips(cfg)
    requires Concat(pieces) <= whole && Roomy(cfg, whole, n)
    requires forall i :: 0 <= i < |pieces| ==> |pieces[i]| <= n
    ensures !Trips(Turns(cfg, pieces))
  {
    if pieces != [] {
      var early, last := pieces[..|pieces| - 1], pieces[|pieces| - 1];
      assert Concat(early) <= Concat(pieces);
      TurnsDoNotTrip(cfg, early, whole, n);
      TurnsGo(cfg, early);
      var r := Turns(cfg, early);
      if r.Ok? && !r.value.finished {
        TurnDoesNotTrip(cfg, r.value, Concat(early), last, whole, n);
      }
    }
  }

  lemma OutcomeIsExact(cfg: Config, pieces: seq<string>, ending: Ending, n: nat)
    requires LengthsFit(cfg) && NeverTrips(cfg) && Roomy(cfg, Concat(pieces), n)
    requires forall i :: 0 <= i < |pieces| ==> |pieces[i]| <= n
    ensures SameOutcome(Outcome(cfg, pieces, ending), Reference(cfg, Concat(pieces), ending))
  {
    TurnsDoNotTrip(cfg, pieces, Concat(pieces), n);
    OutcomeFollows(cfg, pieces, ending);
  }

  /** With room for the header block and for what the decoder holds back, the outcome is the reference, no more. */
  lemma OutcomeIsReferenceExactly(headRequest: bool, maximum: nat, pieces: seq<string>, ending: Ending, n: nat)
    requires Roomy(Configured(headRequest, maximum), Concat(pieces), n)
    requires forall i :: 0 <= i < |pieces| ==> |pieces[i]| <= n
    ensures var cfg := Configured(headRequest, maximum);
            SameOutcome(Outcome(cfg, pieces, ending), Reference(cfg, Concat(pieces), ending))
  {
    ConfiguredFits(headRequest, maximum);
    OutcomeIsExact(Configured(headRequest, maximum), pieces, ending, n);
  }

  /** A chunked response that a conforming server sends: its chunks come out, in any pieces, whatever is behind. */
  lemma ChunkedResponse(headRequest: bool, maximum: nat, block: string, start: Start, cs: seq<Chunk>, last: string,
                        beyond: string, pieces: seq<string>, ending: Ending, longest: nat, n: nat)
    requires Concat(pieces) == block + BLANK_LINE + (Body(cs, last) + beyond)
    requires Find(block + BLANK_LINE, BLANK_LINE) == Some(|block|)
    requires ReadStart(block, headRequest, maximum) == Ok(start) && start.chunked && !start.bodyless
    requires start.length.Some? ==> start.length.value == |Concat(Datas(cs))|
    requires ValidChunks(cs, Sizes(maximum)) && ValidLine(last, 0, Sizes(maximum)) && LinesUpTo(cs, last, longest)
    requires |Concat(Datas(cs))| <= maximum && |block| + 3 + n <= MIB && longest + 1 + n <= maximum + MIB
    requires forall i :: 0 <= i < |pieces| ==> |pieces[i]| <= n
    ensures Outcome(Configured(headRequest, maximum), pieces, ending) == Ok(Response(start.head, Concat(Datas(cs))))
  {
    ConfiguredFits(headRequest, maximum);
    EncodedResponse(Configured(headRequest, maximum), block, start, cs, last, beyond, pieces, ending, longest, n);
  }

  lemma EncodedResponse(cfg: Config, block: string, start: Start, cs: seq<Chunk>, last: string,
                        beyond: string, pieces: seq<string>, ending: Ending, longest: nat, n: nat)
    requires LengthsFit(cfg) && NeverTrips(cfg)
    requires Concat(pieces) == block + BLANK_LINE + (Body(cs, last) + beyond)
    requires Find(block + BLANK_LINE, BLANK_LINE) == Some(|block|)
    requires cfg.start(block) == Ok(start) && start.chunked && !start.bodyless
    requires start.length.Some? ==> start.length.value == |Concat(Datas(cs))|
    requires ValidChunks(cs, cfg.size) && ValidLine(last, 0, cfg.size) && LinesUpTo(cs, last, longest)
    requires |Concat(Datas(cs))| <= cfg.maximum && |block| + 3 + n <= MIB && longest + 1 + n <= cfg.maximum + MIB
    requires forall i :: 0 <= i < |pieces| ==> |pieces[i]| <= n
    ensures Outcome(cfg, pieces, ending) == Ok(Response(start.head, Concat(Datas(cs))))
  {
    var body := Body(cs, last) + beyond;
    var whole := block + BLANK_LINE + body;
    FindExtends(block + BLANK_LINE, body, BLANK_LINE);
    assert whole[..|block|] == block && whole[|block| + 4..] == body;
    EncodedHoldsLittle(cfg, cs, last, beyond, longest, n);
    OutcomeIsExact(cfg, pieces, ending, n);
    DecodesBody(cs, last, beyond, cfg.size);
  }

  lemma EncodedHoldsLittle(cfg: Config, cs: seq<Chunk>, last: string, beyond: string, longest: nat, n: nat)
    requires ValidChunks(cs, cfg.size) && ValidLine(last, 0, cfg.size) && LinesUpTo(cs, last, longest)
    requires longest + 1 + n <= cfg.maximum + MIB
    ensures HoldsLittle(cfg, Body(cs, last) + beyond, n)
  {
    var body := Body(cs, last);
    forall cut: nat | cut <= |body + beyond| ensures HoldsLittleAt(cfg, (body + beyond)[..cut], n) {
      PrefixDecodes(cs, last, (body + beyond)[..cut], beyond, cfg.size);
      if cut < |body| {
        assert (body + beyond)[..cut] == body[..cut];
        HeldBack(cs, last, body[..cut], longest, cfg.size);
      }
    }
  }

  // ---------------------------------------------------------------- ResolveHttpRequest

  /** append_body for each of the chunks. */
  method AppendEach(l: Loop, chunks: seq<string>, maximum: nat) returns (r: Result<Loop, HttpError>)
    ensures r == AppendChunks(l, chunks, maximum)
  {
    var m := l;
    for i := 0 to |chunks|
      invariant AppendChunks(l, chunks[..i], maximum) == Ok(m)
    {
      assert chunks[..i + 1][..i] == chunks[..i];
      if |m.body| + |chunks[i]| > maximum {
        OverflowStays(l, chunks, i + 1, maximum);
        return Err(BodyLimit);
      }
      m := m.(body := m.body + chunks[i]);
      if chunks[i] != "" {
        m := m.(emitted := m.emitted + [chunks[i]]);
      }
    }
    assert chunks[..|chunks|] == chunks;
    return Ok(m);
  }

  lemma {:induction false} OverflowStays(l: Loop, chunks: seq<string>, n: nat, maximum: nat)
    requires n <= |chunks| && AppendChunks(l, chunks[..n], maximum) == Err(BodyLimit)
    ensures AppendChunks(l, chunks, maximum) == Err(BodyLimit)
    decreases |chunks|
  {
    if n == |chunks| {
      assert chunks[..n] == chunks;
    } else {
      assert chunks[..|chunks| - 1][..n] == chunks[..n];
      OverflowStays(l, chunks[..|chunks| - 1], n, maximum);
    }
  }

  /** The turn in which the header block is complete. */
  method TakeHeaders(block: string, headRequest: bool, maximum: nat) returns (r: Result<Start, HttpError>)
    ensures r == ReadStart(block, headRequest, maximum)
  {
    var parsed := ParseResponseHeaders(block);
    if parsed.Err? {
      return Err(parsed.error);
    }
    var head := parsed.value;
    var chunked := Find(LowerAscii(Lookup(head.headers, "transfer-encoding")), "chunked").Some?;
    var text := Lookup(head.headers, "content-length");
    var length := None;
    if text != "" {
      var number := Stoull(text, 10);
      if number.Err? {
        return Err(BadLength(number.error));
      }
      if number.value.0 > maximum {
        return Err(LengthLimit);
      }
      length := Some(number.value.0);
    }
    return Ok(Start(head, chunked, length, headRequest || head.status == 204 || head.status == 304));
  }

  /** A turn with octets of the body; l.decoder mirrors the decoder object. */
  method TakeOctets(decoder: HttpChunkDecoder, l: Loop, data: string, ghost cfg: Config) returns (r: Result<Loop, HttpError>)
    requires cfg.maximum == decoder.maximum && cfg.size == Sizes(decoder.maximum)
    requires l.start.Some? && l.decoder == decoder.View()
    modifies decoder
    ensures r == TakeBody(cfg, l, data) && (r.Ok? ==> r.value.decoder == decoder.View())
  {
    var start := l.start.value;
    if start.chunked {
      var fed := decoder.Feed(data);
      if fed.Err? {
        return Err(BadChunk(fed.error));
      }
      var appended := AppendEach(l, fed.value, decoder.maximum);
      if appended.Err? {
        return Err(appended.error);
      }
      return Ok(appended.value.(decoder := decoder.View(), finished := decoder.Complete()));
    } else if start.length.Some? {
      var needed := if start.length.value > |l.body| then start.length.value - |l.body| else 0;
      var appended := AppendBody(l, if needed < |data| then data[..needed] else data, decoder.maximum);
      if appended.Err? {
        return Err(appended.error);
      }
      return Ok(appended.value.(finished := |appended.value.body| >= start.length.value));
    } else {
      r := AppendBody(l, data, decoder.maximum);
    }
  }

  /** One turn of the loop after a receive that returned octets. */
  method OneTurn(decoder: HttpChunkDecoder, l: Loop, incoming: string, headRequest: bool, ghost cfg: Config)
    returns (r: Result<Loop, HttpError>)
    requires cfg.maximum == decoder.maximum && cfg.size == Sizes(decoder.maximum)
    requires forall block: string :: cfg.start(block) == ReadStart(block, headRequest, decoder.maximum)
    requires l.decoder == decoder.View()
    modifies decoder
    ensures r == Turn(cfg, l, incoming) && (r.Ok? ==> r.value.decoder == decoder.View())
  {
    if l.start.Some? {
      r := TakeOctets(decoder, l, incoming, cfg);
      return;
    }
    var pending := l.pending + incoming;
    if |pending| > MIB {
      return Err(HeaderLimit);
    }
    var separator := Find(pending, BLANK_LINE);
    if separator.None? {
      return Ok(l.(pending := pending));
    }
    var start := TakeHeaders(pending[..separator.value], headRequest, decoder.maximum);
    if start.Err? {
      return Err(start.error);
    }
    var m := l.(pending := "", start := Some(start.value), finished := start.value.bodyless);
    if m.finished {
      return Ok(m);
    }
    r := TakeOctets(decoder, m, pending[separator.value + 4..], cfg);
  }

  /** The loop over the receives. */
  method ReceiveAll(decoder: HttpChunkDecoder, pieces: seq<string>, ending: Ending, headRequest: bool, ghost cfg: Config)
    returns (r: Result<Loop, HttpError>)
    requires cfg.maximum == decoder.maximum && cfg.size == Sizes(decoder.maximum) && decoder.View() == Fresh()
    requires forall block: string :: cfg.start(block) == ReadStart(block, headRequest, decoder.maximum)
    modifies decoder
    ensures var all := Turns(cfg, pieces);
            r == if all.Ok? && !all.value.finished && ending.Broken? then Err(SocketFailed) else all
  {
    var l := Begin();
    var i := 0;
    while !l.finished
      invariant i <= |pieces| && Turns(cfg, pieces[..i]) == Ok(l) && l.decoder == decoder.View()
      decreases |pieces| - i
    {
      if i == |pieces| {
        assert pieces[..i] == pieces;
        return if ending.Broken? then Err(SocketFailed) else Ok(l);
      }
      assert pieces[..i + 1][..i] == pieces[..i];
      var turn := OneTurn(decoder, l, pieces[i], headRequest, cfg);
      i := i + 1;
      if turn.Err? {
        ErrorStays(cfg, pieces, i);
        return turn;
      }
      l := turn.value;
    }
    FinishedIgnores(cfg, pieces, i);
    return Ok(l);
  }

  /** From the first receive to the response; emitted is what on_chunk has been given, call by call. */
  method ResolveHttpRequest(headRequest: bool, maximum: nat, pieces: seq<string>, ending: Ending)
    returns (r: Result<Response, HttpError>, emitted: seq<string>)
    ensures r == Outcome(Configured(headRequest, maximum), pieces, ending)
    ensures r.Ok? ==> Concat(emitted) == r.value.body && |r.value.body| <= maximum
  {
    var decoder := new HttpChunkDecoder(maximum);
    var received := ReceiveAll(decoder, pieces, ending, headRequest, Configured(headRequest, maximum));
    EmittedIsBody(headRequest, maximum, pieces);
    if received.Err? {
      return Err(received.error), [];
    }
    return Check(received.value), received.value.emitted;
  }

  lemma {:induction false} ErrorStays(cfg: Config, pieces: seq<string>, n: nat)
    requires n <= |pieces| && Turns(cfg, pieces[..n]).Err?
    ensures Turns(cfg, pieces) == Turns(cfg, pieces[..n])
    decreases |pieces|
  {
    if n == |pieces| {
      assert pieces[..n] == pieces;
    } else {
      assert pieces[..|pieces| - 1][..n] == pieces[..n];
      ErrorStays(cfg, pieces[..|pieces| - 1], n);
    }
  }

  lemma {:induction false} FinishedIgnores(cfg: Config, pieces: seq<string>, n: nat)
    requires n <= |pieces| && Turns(cfg, pieces[..n]).Ok? && Turns(cfg, pieces[..n]).value.finished
    ensures Turns(cfg, pieces) == Turns(cfg, pieces[..n])
    decreases |pieces|
  {
    if n == |pieces| {
      assert pieces[..n] == pieces;
    } else {
      assert pieces[..|pieces| - 1][..n] == pieces[..n];
      FinishedIgnores(cfg, pieces[..|pieces| - 1], n);
    }
  }
}
