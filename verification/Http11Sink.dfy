/** The HTTP/1.1 printer: it drains a message while the message is still being filled and picks
    the framing of the entity on the way. What it emits parses to that message whatever the
    schedule. */
module Http11Sink {
  import opened Octets
  import opened Messages
  import opened Http11Format
  import Common
  import Http
  import Sockets

  /** The printer's fields. */
  datatype Printer = Printer(stage: Stage, init: bool, mode: int, data: Bytes)

  const FRESH := Printer(HEADER, false, ENTITY_UNKNOWN, [])

  const CHUNKED_HEADER: Bytes := "Transfer-Encoding: chunked"

  /** The verb of a request that may begin has a name. */
  predicate Printable(m: Msg) {
    m.isRequest && m.url != [] ==> m.verb <= Http.VERB_UNKNOWN
  }

  function HeaderPart(p: Printer, m: Msg): (r: (Printer, Msg)) {
    if p.stage != HEADER || (!p.init && !StartKnown(m)) then (p, m)
    else
      var data := p.data + (if p.init then [] else StartText(m)) + PairsText(m.headers);
      var mode := PrintedModes(p.mode, m.headers);
      (if m.stage == HEADER then Printer(HEADER, true, mode, data)
       else Printer(ENTITY, true, mode, data + (if mode != ENTITY_UNKNOWN then CRLF else [])),
       m.(headers := []))
  }

  /** An entity batch and the framing it leaves. */
  function Framed(mode: int, e: Bytes): (r: (int, Bytes)) {
    if e == [] then (mode, [])
    else if mode == ENTITY_UNKNOWN then
      (ENTITY_CHUNKED, CHUNKED_HEADER + CRLF + CRLF + ChunkText(e))
    else if mode == ENTITY_CHUNKED then (mode, ChunkText(e))
    else if mode >= 0 then (if |e| > mode then 0 else mode - |e|, e)
    else (mode, [])
  }

  function EntityEnd(mode: int): (r: Bytes) {
    if mode == ENTITY_UNKNOWN then CRLF
    else if mode == ENTITY_CHUNKED then LAST_CHUNK
    else []
  }

  function EntityPart(p: Printer, m: Msg): (r: (Printer, Msg)) {
    if p.stage != ENTITY then (p, m)
    else
      var (mode, text) := Framed(p.mode, m.entity);
      (if m.stage == ENTITY then p.(mode := mode, data := p.data + text)
       else p.(stage := FOOTER, mode := mode, data := p.data + text + EntityEnd(mode)),
       m.(entity := []))
  }

  function FooterPart(p: Printer, m: Msg): (r: (Printer, Msg)) {
    if p.stage != FOOTER then (p, m)
    else
      var data := p.data + (if p.mode == ENTITY_CHUNKED then PairsText(m.footers) else []);
      (if m.stage != DONE then p.(data := data)
       else p.(stage := DONE, data := data + (if p.mode == ENTITY_CHUNKED then CRLF else [])),
       m.(footers := []))
  }

  /** Printer and message after the printer has looked for more to print. */
  function Updated(p: Printer, m: Msg): (r: (Printer, Msg)) {
    var (p1, m1) := HeaderPart(p, m);
    var (p2, m2) := EntityPart(p1, m1);
    FooterPart(p2, m2)
  }

  // ----- what the emitted bytes mean -----

  /** How a whole message is framed: chunked if nothing else was asked for and there is an entity. */
  function Framing(m: Msg): (mode: int) {
    var mode := PrintedModes(ENTITY_UNKNOWN, m.headers);
    if mode == ENTITY_UNKNOWN && m.entity != [] then ENTITY_CHUNKED else mode
  }

  /** The message an HTTP/1.1 parser recovers from the text of m: hop-by-hop headers are gone, and
      so are footers unless the entity is chunked. */
  function ReadBack(m: Msg): (r: Msg) {
    ReadStart(m).(
      headers := Kept(m.headers),
      entity := m.entity,
      footers := if Framing(m) == ENTITY_CHUNKED then m.footers else [],
      stage := m.stage)
  }

  /** The headers as they go out, with the request for chunks that the printer adds by itself. */
  function Announced(m: Msg): (kvs: seq<KeyValue>) {
    m.headers + (if PrintedModes(ENTITY_UNKNOWN, m.headers) == ENTITY_UNKNOWN && m.entity != []
                 then [KeyValue(TRANSFER_ENCODING, CHUNKED)] else [])
  }

  /** A reader of a whole message frames the entity as the printer has framed it if and only if the
      first content length is not out of range, or chunks are asked for, or nothing is announced
      and there is an entity, which then goes out in chunks, or a later length happens to be the
      end of the range. */
  lemma FramingAgreesIff(m: Msg)
    ensures var asked := PrintedModes(ENTITY_UNKNOWN, m.headers);
      ParsedModes(ENTITY_UNKNOWN, Announced(m)) == Framing(m) <==>
        || !FirstOut(m.headers) || AnyAsksChunks(m.headers)
        || (asked == ENTITY_UNKNOWN && m.entity != [])
        || asked == EndOfRange(m.headers)
  {
    hide Names, ParsedModes, PrintedModes, FirstOut, AnyAsksChunks;
    AllModesAgreeIff(m.headers);
    assert m.headers + [] == m.headers;
    if PrintedModes(ENTITY_UNKNOWN, m.headers) == ENTITY_UNKNOWN && m.entity != [] {
      OwnName(TRANSFER_ENCODING);
      OwnName(CHUNKED);
      ParsedModesAppend(ENTITY_UNKNOWN, m.headers, KeyValue(TRANSFER_ENCODING, CHUNKED));
    }
  }

  lemma {:induction false} ParsedModesAppend(mode: int, kvs: seq<KeyValue>, kv: KeyValue)
    ensures ParsedModes(mode, kvs + [kv]) == ParsedMode(ParsedModes(mode, kvs), kv)
    decreases |kvs|
  {
    hide ParsedMode;
    if kvs != [] {
      assert (kvs + [kv])[1..] == kvs[1..] + [kv];
      ParsedModesAppend(ParsedMode(mode, kvs[0]), kvs[1..], kv);
    }
  }

  /** The headers frame the entity: the reader draws the same framing from them, the entity is no
      longer than a length that frames it and as long when it has ended, and an unannounced
      framing that the reader would take for a length comes with an entity. */
  predicate Frames(m: Msg) {
    var printed, parsed := PrintedModes(ENTITY_UNKNOWN, m.headers), ParsedModes(ENTITY_UNKNOWN, m.headers);
    && printed >= ENTITY_CHUNKED
    && (printed != ENTITY_UNKNOWN ==> parsed == printed)
    && (printed >= 0 ==> |m.entity| <= printed)
    && (FOOTER.AtMost(m.stage) ==>
         && (printed >= 0 ==> |m.entity| == printed)
         && (printed == ENTITY_UNKNOWN ==> parsed == ENTITY_UNKNOWN || m.entity != []))
  }

  /** Messages HTTP/1.1 can carry: fields that fit on a line, headers that frame the entity once
      they are complete, and chunks whose size fits 32 bits. */
  predicate Safe(m: Msg) {
    && Printable(m)
    && (!m.isRequest ==> -0x8000_0000 <= m.status < 0x8000_0000)
    && LinesSafe(m.headers) && LinesSafe(m.footers)
    && |m.entity| < 0x1_0000_0000
    && (ENTITY.AtMost(m.stage) ==> Frames(m))
  }

  /** A message that is safe to print after more has been added was safe before. */
  lemma SafeBefore(m: Msg, d: Msg)
    requires Safe(Grown(m, d)) && Fills(m, d)
    ensures Safe(m)
  {
    hide PrintedModes, ParsedModes, LineSafe;
    var g := Grown(m, d);
    assert forall i :: 0 <= i < |m.headers| ==> g.headers[i] == m.headers[i];
    assert forall i :: 0 <= i < |m.footers| ==> g.footers[i] == m.footers[i];
    assert ENTITY.AtMost(m.stage) ==> g.headers == m.headers;
    assert FOOTER.AtMost(m.stage) ==> g.entity == m.entity;
  }

  /** The parser's state once it has taken in everything a printer at this stage, with this
      framing, has emitted for the part t of a message. */
  function Reached(t: Msg, stage: Stage, mode: int): (r: Parser) {
    var m := ReadStart(t).(
      headers := Kept(t.headers),
      entity := t.entity,
      footers := if mode == ENTITY_CHUNKED then t.footers else []);
    if stage == HEADER || (stage == ENTITY && mode == ENTITY_UNKNOWN) then
      Parser(Headers(ParsedModes(ENTITY_UNKNOWN, t.headers), []), m)
    else if mode == ENTITY_CHUNKED && stage == ENTITY then Parser(ChunkSize(0), m.(stage := ENTITY))
    else if mode == ENTITY_CHUNKED && stage == FOOTER then Parser(Trailer([]), m.(stage := FOOTER))
    else if mode > 0 then Parser(Fixed(mode), m.(stage := ENTITY))
    else Parser(Done, m.(stage := DONE))
  }

  /** The printer's framing follows from what it has printed. */
  predicate ModeFollows(t: Msg, stage: Stage, mode: int) {
    var asked := PrintedModes(ENTITY_UNKNOWN, t.headers);
    && (stage.AtMost(ENTITY) ==> t.footers == [])
    && (if stage == HEADER then mode == asked && t.entity == []
        else
          && mode >= ENTITY_CHUNKED
          && (asked != ENTITY_UNKNOWN ==> ParsedModes(ENTITY_UNKNOWN, t.headers) == asked)
          && (if asked >= 0 then mode == asked - |t.entity| >= 0 else mode == Framing(t)))
  }

  /** Once the parser has stopped, it stopped at the very last byte. */
  predicate StopsLast(isRequest: bool, emitted: Bytes) {
    Stopped(Run(Initial(isRequest), emitted)) ==>
      emitted != [] && !Stopped(Run(Initial(isRequest), emitted[..|emitted|-1]))
  }

  /** The bytes emitted for the part t of a message bring the parser where they should. */
  predicate Tells(t: Msg, stage: Stage, mode: int, emitted: Bytes) {
    && (t.isRequest ==> t.verb < Http.VERB_UNKNOWN)
    && ModeFollows(t, stage, mode)
    && Run(Initial(t.isRequest), emitted) == Reached(t, stage, mode)
    && StopsLast(t.isRequest, emitted)
  }

  /** What the parser makes of everything emitted so far is exactly what has been drained. */
  predicate Faithful(added: Msg, held: Msg, p: Printer, sent: Bytes) {
    && Backlog(added, held)
    && p.stage.AtMost(held.stage)
    && (p.stage != HEADER ==> held.headers == [])
    && (FOOTER.AtMost(p.stage) ==> held.entity == [])
    && (p.stage == DONE ==> held.footers == [])
    && (!p.init ==> p == FRESH && sent == [] && held == added)
    && (p.init ==> StartKnown(held) && Tells(Taken(added, held), p.stage, p.mode, sent + p.data))
  }

  // ----- parts of messages -----

  lemma {:induction false} KeptAppend(a: seq<KeyValue>, b: seq<KeyValue>)
    ensures Kept(a + b) == Kept(a) + Kept(b)
    decreases |a|
  {
    hide IsDropped;
    if a == [] {
      assert a + b == b;
    } else {
      assert (a + b)[1..] == a[1..] + b;
      KeptAppend(a[1..], b);
    }
  }

  lemma {:induction false} ModesAppend(mode: int, a: seq<KeyValue>, b: seq<KeyValue>)
    ensures PrintedModes(mode, a + b) == PrintedModes(PrintedModes(mode, a), b)
    decreases |a|
  {
    hide PrintedMode;
    if a == [] {
      assert a + b == b;
    } else {
      assert (a + b)[1..] == a[1..] + b;
      ModesAppend(PrintedMode(mode, a[0]), a[1..], b);
    }
  }

  lemma {:induction false} ParsedModesJoin(mode: int, a: seq<KeyValue>, b: seq<KeyValue>)
    ensures ParsedModes(mode, a + b) == ParsedModes(ParsedModes(mode, a), b)
    decreases |a|
  {
    hide ParsedMode;
    if a == [] {
      assert a + b == b;
    } else {
      assert (a + b)[1..] == a[1..] + b;
      ParsedModesJoin(ParsedMode(mode, a[0]), a[1..], b);
    }
  }

  lemma SliceSafe(kvs: seq<KeyValue>, lo: nat, hi: nat)
    requires lo <= hi <= |kvs|
    ensures LinesSafe(kvs) ==> LinesSafe(kvs[lo..hi])
  {
    hide LineSafe;
    assert forall i :: 0 <= i < hi - lo ==> kvs[lo..hi][i] == kvs[lo + i];
  }

  /** A part of a safe message is safe to print. */
  lemma SafeParts(added: Msg, held: Msg)
    requires Backlog(added, held) && Safe(added)
    ensures LinesSafe(held.headers) && LinesSafe(held.footers)
    ensures |held.entity| < 0x1_0000_0000
  {
    hide LinesSafe, Frames;
    var n, k := |added.headers| - |held.headers|, |added.footers| - |held.footers|;
    assert held.headers == added.headers[n..|added.headers|];
    assert held.footers == added.footers[k..|added.footers|];
    SliceSafe(added.headers, n, |added.headers|);
    SliceSafe(added.footers, k, |added.footers|);
  }

  // ----- the header part -----

  lemma RunHeaderBatch(t: Msg, mode: int, batch: seq<KeyValue>, emitted: Bytes)
    requires Tells(t, HEADER, mode, emitted) && LinesSafe(batch)
    ensures Tells(t.(headers := t.headers + batch), HEADER, PrintedModes(mode, batch),
                  emitted + PairsText(batch))
  {
    hide Run, PairsText, Kept, LinesSafe, Http.AToVerb, VerbName, Initial, PrintedModes, ParsedModes;
    var m := Reached(t, HEADER, mode).msg;
    RunAppend(Initial(t.isRequest), emitted, PairsText(batch));
    RunHeaders(ParsedModes(ENTITY_UNKNOWN, t.headers), m, batch);
    ParsedModesJoin(ENTITY_UNKNOWN, t.headers, batch);
    ModesAppend(ENTITY_UNKNOWN, t.headers, batch);
    KeptAppend(t.headers, batch);
  }

  /** A parser that waits for a line end has not stopped. */
  lemma StopsAtLineEnd(isRequest: bool, emitted: Bytes, p: Parser)
    requires Run(Initial(isRequest), emitted) == p
    requires p.phase.Headers? || p.phase.Trailer?
    ensures StopsLast(isRequest, emitted) && StopsLast(isRequest, emitted + CRLF)
  {
    hide Run, Step, Initial;
    RunAppend(Initial(isRequest), emitted, [CR]);
    RunLine(p.phase, p.msg, p.phase.line, [CR]);
    assert (emitted + CRLF)[..|emitted + CRLF| - 1] == emitted + [CR];
  }

  /** The end of the headers: the blank line comes now if the framing is settled. */
  lemma RunHeaderEnd(t: Msg, mode: int, emitted: Bytes)
    requires Tells(t, HEADER, mode, emitted) && mode >= ENTITY_CHUNKED
    requires mode != ENTITY_UNKNOWN ==> ParsedModes(ENTITY_UNKNOWN, t.headers) == mode
    ensures Tells(t, ENTITY, mode, emitted + (if mode != ENTITY_UNKNOWN then CRLF else []))
  {
    hide Run, Kept, Initial, ReadStart, PrintedModes, ParsedModes;
    RunAppend(Initial(t.isRequest), emitted, CRLF);
    RunEndOfHeaders(ParsedModes(ENTITY_UNKNOWN, t.headers), Reached(t, HEADER, mode).msg);
    StopsAtLineEnd(t.isRequest, emitted, Reached(t, HEADER, mode));
    assert emitted + [] == emitted;
  }

  lemma RunStart(m: Msg)
    requires StartKnown(m) && Printable(m)
    requires !m.isRequest ==> -0x8000_0000 <= m.status < 0x8000_0000
    requires m.headers == [] && m.entity == [] && m.footers == []
    ensures Tells(m, HEADER, ENTITY_UNKNOWN, StartText(m))
  {
    hide Run, StartText, Http.AToVerb, VerbName, Initial;
    RunStartText(m);
  }

  /** Everything emitted so far, and the start line if it is due. */
  lemma StartedTells(added: Msg, held: Msg, p: Printer, sent: Bytes)
    requires Faithful(added, held, p, sent) && Safe(added)
    requires p.stage == HEADER && (p.init || StartKnown(held))
    ensures Printable(held)
    ensures Tells(Taken(added, held), HEADER, p.mode,
                  sent + (p.data + (if p.init then [] else StartText(held))))
  {
    hide Run, PairsText, PrintedModes, ParsedModes, StartText, LinesSafe, Initial, Tells;
    if p.init {
      assert p.data + [] == p.data;
    } else {
      RunStart(Taken(added, held));
      SameStartText(Taken(added, held), held);
      assert sent + (p.data + StartText(held)) == StartText(held);
    }
  }

  /** All of the header part: the start line if it is due, the headers, the end. */
  lemma HeaderPartFaithful(added: Msg, held: Msg, p: Printer, sent: Bytes)
    requires Faithful(added, held, p, sent) && Safe(added)
    ensures var (p', held') := HeaderPart(p, held); Faithful(added, held', p', sent)
  {
    hide Run, PairsText, PrintedModes, ParsedModes, StartText, Safe, Initial, LinesSafe, Tells, Suffix;
    if p.stage == HEADER && (p.init || StartKnown(held)) {
      StartedTells(added, held, p, sent);
      var data := p.data + (if p.init then [] else StartText(held));
      var batch := held.headers;
      var held' := held.(headers := []);
      DrainHeaders(added, held);
      var t, t' := Taken(added, held), Taken(added, held');
      var mode := PrintedModes(p.mode, batch);
      SafeParts(added, held);
      RunHeaderBatch(t, p.mode, batch, sent + data);
      assert sent + (data + PairsText(batch)) == sent + data + PairsText(batch);
      if held.stage != HEADER {
        var end := if mode != ENTITY_UNKNOWN then CRLF else [];
        HeadersFrame(added, t', mode, sent + (data + PairsText(batch)));
        RunHeaderEnd(t', mode, sent + (data + PairsText(batch)));
        assert sent + (data + PairsText(batch) + end) == sent + (data + PairsText(batch)) + end;
      }
    }
  }

  /** Once all headers are there, printer and reader agree on a framing that is settled. */
  lemma HeadersFrame(added: Msg, t: Msg, mode: int, emitted: Bytes)
    requires Safe(added) && ENTITY.AtMost(added.stage) && t.headers == added.headers
    requires Tells(t, HEADER, mode, emitted)
    ensures mode >= ENTITY_CHUNKED
    ensures mode != ENTITY_UNKNOWN ==> ParsedModes(ENTITY_UNKNOWN, t.headers) == mode
  {
    hide Run, LinesSafe, PrintedModes, ParsedModes, Reached, Initial;
  }

  lemma SameStartText(a: Msg, b: Msg)
    requires SameStart(a, b)
    ensures StartText(a) == StartText(b)
  {}

  // ----- the entity part -----

  lemma RunFixedBatch(t: Msg, mode: int, e: Bytes, emitted: Bytes)
    requires Tells(t, ENTITY, mode, emitted) && 0 < |e| <= mode
    ensures Tells(t.(entity := t.entity + e), ENTITY, mode - |e|, emitted + e)
  {
    hide Run, Kept, Initial, Http.AToVerb, Http.VerbToA, PrintedModes, ParsedModes, Step, StopsLast;
    var m := Reached(t, ENTITY, mode).msg;
    RunAppend(Initial(t.isRequest), emitted, e);
    RunFixed(m, mode, e);
    FixedStopsLast(t.isRequest, emitted, m, mode, e);
  }

  /** An entity of known length ends at its last byte and not before. */
  lemma FixedStopsLast(isRequest: bool, emitted: Bytes, m: Msg, mode: nat, e: Bytes)
    requires Run(Initial(isRequest), emitted) == Parser(Fixed(mode), m) && 0 < |e| <= mode
    ensures StopsLast(isRequest, emitted + e)
  {
    hide Run, Step, Initial;
    var most := e[..|e|-1];
    RunAppend(Initial(isRequest), emitted, most);
    if most != [] {
      RunFixed(m, mode, most);
    } else {
      assert emitted + most == emitted;
    }
    assert (emitted + e)[..|emitted + e|-1] == emitted + most;
  }

  lemma RunChunkBatch(t: Msg, e: Bytes, emitted: Bytes)
    requires Tells(t, ENTITY, ENTITY_CHUNKED, emitted) && 0 < |e| < 0x1_0000_0000
    ensures Tells(t.(entity := t.entity + e), ENTITY, ENTITY_CHUNKED, emitted + ChunkText(e))
  {
    hide Run, Kept, Initial, Http.AToVerb, Http.VerbToA, PrintedModes, ParsedModes, Step, ChunkText;
    RunAppend(Initial(t.isRequest), emitted, ChunkText(e));
    RunChunk(Reached(t, ENTITY, ENTITY_CHUNKED).msg, e);
  }

  lemma ChunkedText(kv: KeyValue)
    requires kv == KeyValue(TRANSFER_ENCODING, CHUNKED)
    ensures CHUNKED_HEADER + CRLF == PairText(kv) && LineSafe(kv)
  {}

  lemma ChunkedAsked(mode: int, kv: KeyValue)
    requires kv == KeyValue(TRANSFER_ENCODING, CHUNKED)
    ensures ParsedMode(mode, kv) == ENTITY_CHUNKED && IsDropped(kv.key)
  {
    hide Names;
    OwnName(TRANSFER_ENCODING);
    OwnName(CHUNKED);
  }

  /** An entity turns up although nothing announced one: the printer announces chunks itself. */
  lemma RunChunkedHeader(mode: int, m: Msg)
    ensures Run(Parser(Headers(mode, []), m), CHUNKED_HEADER + CRLF + CRLF)
         == Parser(ChunkSize(0), m.(stage := ENTITY))
  {
    hide Names, Run, Step, PairText, LineSafe, ParsedMode, IsDropped;
    var kv := KeyValue(TRANSFER_ENCODING, CHUNKED);
    ChunkedText(kv);
    ChunkedAsked(mode, kv);
    RunHeader(mode, m, kv);
    RunAppend(Parser(Headers(mode, []), m), PairText(kv), CRLF);
    RunEndOfHeaders(ENTITY_CHUNKED, m);
  }

  lemma RunFirstChunk(t: Msg, e: Bytes, emitted: Bytes)
    requires Tells(t, ENTITY, ENTITY_UNKNOWN, emitted) && 0 < |e| < 0x1_0000_0000
    ensures Tells(t.(entity := t.entity + e), ENTITY, ENTITY_CHUNKED,
                  emitted + (CHUNKED_HEADER + CRLF + CRLF + ChunkText(e)))
  {
    hide Run, Kept, Initial, Http.AToVerb, Http.VerbToA, PrintedModes, ParsedModes, Step, ChunkText;
    var m := Reached(t, ENTITY, ENTITY_UNKNOWN).msg;
    var begin := CHUNKED_HEADER + CRLF + CRLF;
    RunAppend(Initial(t.isRequest), emitted, begin);
    RunChunkedHeader(ParsedModes(ENTITY_UNKNOWN, t.headers), m);
    RunAppend(Initial(t.isRequest), emitted + begin, ChunkText(e));
    RunChunk(m.(stage := ENTITY), e);
    assert emitted + (begin + ChunkText(e)) == emitted + begin + ChunkText(e);
  }

  /** One batch of the entity, whatever its framing. */
  lemma RunBatch(t: Msg, mode: int, e: Bytes, emitted: Bytes)
    requires Tells(t, ENTITY, mode, emitted) && |e| < 0x1_0000_0000
    requires mode >= 0 ==> |e| <= mode
    ensures var (mode', text) := Framed(mode, e);
      Tells(t.(entity := t.entity + e), ENTITY, mode', emitted + text)
  {
    hide Tells, ChunkText;
    if e == [] {
      assert t.entity + e == t.entity;
      assert emitted + [] == emitted;
    } else if mode == ENTITY_UNKNOWN {
      RunFirstChunk(t, e, emitted);
    } else if mode == ENTITY_CHUNKED {
      RunChunkBatch(t, e, emitted);
    } else {
      TellsMode(t, mode, emitted);
      RunFixedBatch(t, mode, e, emitted);
    }
  }

  lemma TellsMode(t: Msg, mode: int, emitted: Bytes)
    requires Tells(t, ENTITY, mode, emitted)
    ensures mode >= ENTITY_CHUNKED
  {}

  /** The end of the entity. */
  lemma RunEntityEnd(t: Msg, mode: int, emitted: Bytes)
    requires Tells(t, ENTITY, mode, emitted) && mode <= 0
    requires mode == ENTITY_UNKNOWN ==> ParsedModes(ENTITY_UNKNOWN, t.headers) == ENTITY_UNKNOWN
    ensures Tells(t, FOOTER, mode, emitted + EntityEnd(mode))
  {
    hide Run, Kept, Initial, Http.AToVerb, Http.VerbToA, PrintedModes, ParsedModes, Step;
    var p := Reached(t, ENTITY, mode);
    RunAppend(Initial(t.isRequest), emitted, EntityEnd(mode));
    if mode == ENTITY_UNKNOWN {
      RunEndOfHeaders(mode, p.msg);
      StopsAtLineEnd(t.isRequest, emitted, p);
    } else if mode == ENTITY_CHUNKED {
      RunLastChunk(p.msg);
    } else {
      assert emitted + [] == emitted;
    }
  }

  lemma EntityPartFaithful(added: Msg, held: Msg, p: Printer, sent: Bytes)
    requires Faithful(added, held, p, sent) && Safe(added)
    ensures var (p', held') := EntityPart(p, held); Faithful(added, held', p', sent)
  {
    hide Run, Initial, Tells, ChunkText, Framed, EntityEnd, LinesSafe;
    if p.stage == ENTITY {
      var held' := held.(entity := []);
      var t, t' := Taken(added, held), Taken(added, held');
      var (mode, text) := Framed(p.mode, held.entity);
      SafeParts(added, held);
      DrainEntity(added, held);
      EntityFits(added, held, p, sent + p.data);
      RunBatch(t, p.mode, held.entity, sent + p.data);
      assert sent + (p.data + text) == sent + p.data + text;
      if held.stage != ENTITY {
        EntityEnds(t', mode, sent + (p.data + text), added);
        RunEntityEnd(t', mode, sent + (p.data + text));
        assert sent + (p.data + text + EntityEnd(mode)) == sent + (p.data + text) + EntityEnd(mode);
      }
    }
  }

  lemma EntityFits(added: Msg, held: Msg, p: Printer, emitted: Bytes)
    requires Backlog(added, held) && Safe(added) && held.headers == []
    requires p.stage == ENTITY && Tells(Taken(added, held), ENTITY, p.mode, emitted)
    ensures p.mode >= 0 ==> |held.entity| <= p.mode
  {
    hide Run, LinesSafe, PrintedModes, ParsedModes, Reached, Initial;
    assert Taken(added, held).headers == added.headers;
    assert added.entity == Taken(added, held).entity + held.entity;
  }

  lemma EntityEnds(t: Msg, mode: int, emitted: Bytes, added: Msg)
    requires Safe(added) && FOOTER.AtMost(added.stage)
    requires t.headers == added.headers && t.entity == added.entity
    requires Tells(t, ENTITY, mode, emitted)
    ensures mode <= 0
    ensures mode == ENTITY_UNKNOWN ==> ParsedModes(ENTITY_UNKNOWN, t.headers) == ENTITY_UNKNOWN
  {
    hide Run, LinesSafe, PrintedModes, ParsedModes, Reached, Initial;
  }

  // ----- the footer part -----

  lemma RunFooterBatch(t: Msg, batch: seq<KeyValue>, emitted: Bytes)
    requires Tells(t, FOOTER, ENTITY_CHUNKED, emitted) && LinesSafe(batch)
    ensures Tells(t.(footers := t.footers + batch), FOOTER, ENTITY_CHUNKED, emitted + PairsText(batch))
  {
    hide Run, Kept, Initial, Http.AToVerb, Http.VerbToA, PrintedModes, ParsedModes, Step, PairsText, LinesSafe;
    RunAppend(Initial(t.isRequest), emitted, PairsText(batch));
    RunFooters(Reached(t, FOOTER, ENTITY_CHUNKED).msg, batch);
  }

  /** Without chunks there is nowhere to put footers: they are dropped. */
  lemma DropFooters(t: Msg, mode: int, batch: seq<KeyValue>, emitted: Bytes)
    requires Tells(t, FOOTER, mode, emitted) && mode != ENTITY_CHUNKED
    ensures Tells(t.(footers := t.footers + batch), FOOTER, mode, emitted)
  {
    hide Run, Kept, Initial, Http.AToVerb, Http.VerbToA, PrintedModes, ParsedModes, Step;
  }

  lemma RunTrailerEnd(t: Msg, mode: int, emitted: Bytes)
    requires Tells(t, FOOTER, mode, emitted)
    ensures Tells(t, DONE, mode, emitted + (if mode == ENTITY_CHUNKED then CRLF else []))
  {
    hide Run, Kept, Initial, Http.AToVerb, Http.VerbToA, PrintedModes, ParsedModes, Step;
    var p := Reached(t, FOOTER, mode);
    if mode == ENTITY_CHUNKED {
      RunAppend(Initial(t.isRequest), emitted, CRLF);
      RunEndOfTrailer(p.msg);
      StopsAtLineEnd(t.isRequest, emitted, p);
    } else {
      assert emitted + [] == emitted;
    }
  }

  lemma FooterPartFaithful(added: Msg, held: Msg, p: Printer, sent: Bytes)
    requires Faithful(added, held, p, sent) && Safe(added)
    ensures var (p', held') := FooterPart(p, held); Faithful(added, held', p', sent)
  {
    hide Run, Initial, Tells, PairsText, LinesSafe;
    if p.stage == FOOTER {
      var held' := held.(footers := []);
      var t, t' := Taken(added, held), Taken(added, held');
      var text := if p.mode == ENTITY_CHUNKED then PairsText(held.footers) else [];
      SafeParts(added, held);
      DrainFooters(added, held);
      assert sent + (p.data + text) == sent + p.data + text;
      if p.mode == ENTITY_CHUNKED {
        RunFooterBatch(t, held.footers, sent + p.data);
      } else {
        DropFooters(t, p.mode, held.footers, sent + p.data);
        assert sent + p.data + [] == sent + p.data;
      }
      if held.stage == DONE {
        var end := if p.mode == ENTITY_CHUNKED then CRLF else [];
        RunTrailerEnd(t', p.mode, sent + (p.data + text));
        assert sent + (p.data + text + end) == sent + (p.data + text) + end;
      }
    }
  }

  // ----- looks, fills and sends -----

  /** Looking for more to print keeps the printer faithful. */
  lemma UpdateFaithful(added: Msg, held: Msg, p: Printer, sent: Bytes)
    requires Faithful(added, held, p, sent) && Safe(added)
    ensures var (p', held') := Updated(p, held); Faithful(added, held', p', sent)
  {
    hide Faithful, HeaderPart, EntityPart, FooterPart, Safe;
    HeaderPartFaithful(added, held, p, sent);
    var (p1, m1) := HeaderPart(p, held);
    EntityPartFaithful(added, m1, p1, sent);
    var (p2, m2) := EntityPart(p1, m1);
    FooterPartFaithful(added, m2, p2, sent);
  }

  /** After a look the printer is level with the message: everything drainable is drained and
      the stages agree. A message whose start line is not known is left alone. */
  lemma UpdateLevels(added: Msg, held: Msg, p: Printer, sent: Bytes)
    requires Faithful(added, held, p, sent)
    ensures var (p', held') := Updated(p, held);
      && p.data <= p'.data
      && (p'.init <==> StartKnown(held))
      && (StartKnown(held) ==> p'.stage == held'.stage == held.stage && Emptied(held'))
      && (!StartKnown(held) ==> p' == p && held' == held)
  {
    hide Tells, Backlog, Taken, StartText, PairsText, PrintedModes, ParsedModes, Framed, EntityEnd;
    var (p1, m1) := HeaderPart(p, held);
    assert p.data <= p1.data;
    var (p2, m2) := EntityPart(p1, m1);
    assert p1.data <= p2.data;
    var (p3, m3) := FooterPart(p2, m2);
    assert p2.data <= p3.data;
  }

  lemma TellsAnyStage(t: Msg, stage: Stage, mode: int, emitted: Bytes, to: Stage)
    requires Tells(t, stage, mode, emitted)
    ensures Tells(t.(stage := to), stage, mode, emitted)
  {
    hide Run, Initial, PrintedModes, ParsedModes, Kept, Http.AToVerb, Http.VerbToA;
  }

  lemma FillFaithful(added: Msg, held: Msg, p: Printer, sent: Bytes, d: Msg)
    requires Faithful(added, held, p, sent) && Fills(held, d)
    ensures Faithful(Grown(added, d), Grown(held, d), p, sent)
  {
    hide Tells, Suffix;
    FillKeepsBacklog(added, held, d);
    if p.init {
      var t := Taken(added, held);
      assert Taken(Grown(added, d), Grown(held, d)) == t.(stage := d.stage);
      TellsAnyStage(t, p.stage, p.mode, sent + p.data, d.stage);
    }
  }

  lemma SendFaithful(added: Msg, held: Msg, p: Printer, sent: Bytes, n: nat)
    requires Faithful(added, held, p, sent) && n <= |p.data|
    ensures Faithful(added, held, p.(data := p.data[n..]), sent + p.data[..n])
  {
    hide Tells;
    assert sent + p.data[..n] + p.data[n..] == sent + p.data;
  }

  // ----- runs: any interleaving of filling, looking and sending -----

  datatype Channel = Channel(added: Msg, held: Msg, printer: Printer, sent: Bytes)

  datatype Event =
    | Fill(d: Msg)    // the source adds to the message
    | Look            // the printer drains what there is
    | Send(n: nat)    // the socket takes n bytes

  function Opened(isRequest: bool): (c: Channel) {
    Channel(Blank(isRequest), Blank(isRequest), FRESH, [])
  }

  predicate Enabled(c: Channel, e: Event) {
    match e
    case Fill(d) => Fills(c.held, d)
    case Look => true
    case Send(n) => n <= |c.printer.data|
  }

  function Next(c: Channel, e: Event): (c': Channel)
    requires Enabled(c, e)
  {
    match e
    case Fill(d) => c.(added := Grown(c.added, d), held := Grown(c.held, d))
    case Look =>
      var (p, m) := Updated(c.printer, c.held);
      c.(held := m, printer := p)
    case Send(n) =>
      c.(printer := c.printer.(data := c.printer.data[n..]), sent := c.sent + c.printer.data[..n])
  }

  ghost predicate Reaches(c: Channel, events: seq<Event>, c': Channel)
    decreases |events|
  {
    if events == [] then c == c'
    else Enabled(c, events[0]) && Reaches(Next(c, events[0]), events[1..], c')
  }

  predicate Sound(c: Channel) {
    Faithful(c.added, c.held, c.printer, c.sent)
  }

  /** Looking only drains. */
  lemma UpdateDrains(added: Msg, held: Msg, p: Printer)
    requires Backlog(added, held)
    ensures var m := Updated(p, held).1;
      Backlog(added, m) && m.stage == held.stage && SameStart(m, held)
  {
    hide HeaderPart, EntityPart, FooterPart, Backlog;
    var (p1, m1) := HeaderPart(p, held);
    PartDrains(added, held, p);
    var (p2, m2) := EntityPart(p1, m1);
    PartDrains(added, m1, p1);
    PartDrains(added, m2, p2);
  }

  lemma PartDrains(added: Msg, held: Msg, p: Printer)
    requires Backlog(added, held)
    ensures var m := HeaderPart(p, held).1; Backlog(added, m) && m.stage == held.stage && SameStart(m, held)
    ensures var m := EntityPart(p, held).1; Backlog(added, m) && m.stage == held.stage && SameStart(m, held)
    ensures var m := FooterPart(p, held).1; Backlog(added, m) && m.stage == held.stage && SameStart(m, held)
  {
    hide PairsText, StartText, Framed, EntityEnd, PrintedModes, Backlog, StartKnown;
    DrainHeaders(added, held);
    DrainEntity(added, held);
    DrainFooters(added, held);
  }

  /** In a run whose message ends up safe to print it was safe all along. */
  lemma {:induction false} SafeThroughout(c: Channel, events: seq<Event>, c': Channel)
    requires Backlog(c.added, c.held) && Reaches(c, events, c') && Safe(c'.added)
    ensures Safe(c.added)
    decreases |events|
  {
    hide Safe, Updated, Fills, Backlog;
    if events != [] {
      match events[0] {
        case Fill(d) => FillKeepsBacklog(c.added, c.held, d);
        case Look => UpdateDrains(c.added, c.held, c.printer);
        case Send(n) =>
      }
      SafeThroughout(Next(c, events[0]), events[1..], c');
      if events[0].Fill? {
        FillsHeld(c.added, c.held, events[0].d);
        SafeBefore(c.added, events[0].d);
      }
    }
  }

  lemma {:induction false} RunSound(c: Channel, events: seq<Event>, c': Channel)
    requires Sound(c) && Reaches(c, events, c') && Safe(c'.added)
    ensures Sound(c') && c'.added.isRequest == c.added.isRequest
    ensures c.sent <= c'.sent
    decreases |events|
  {
    hide Faithful, Safe, Updated, Fills;
    if events != [] {
      var e := events[0];
      HasBacklog(c);
      SafeThroughout(c, events, c');
      match e {
        case Fill(d) =>
          FillFaithful(c.added, c.held, c.printer, c.sent, d);
          FillSameKind(c.held, d);
          HeldSameKind(c.added, c.held, c.printer, c.sent);
        case Look => UpdateFaithful(c.added, c.held, c.printer, c.sent);
        case Send(n) => SendFaithful(c.added, c.held, c.printer, c.sent, n);
      }
      RunSound(Next(c, e), events[1..], c');
    }
  }

  lemma HasBacklog(c: Channel)
    requires Sound(c)
    ensures Backlog(c.added, c.held)
  {}

  lemma HeldSameKind(added: Msg, held: Msg, p: Printer, sent: Bytes)
    requires Faithful(added, held, p, sent)
    ensures held.isRequest == added.isRequest
  {}

  lemma {:induction false} RunExtended(c: Channel, events: seq<Event>, c': Channel, e: Event)
    requires Reaches(c, events, c') && Enabled(c', e)
    ensures Reaches(c, events + [e], Next(c', e))
    decreases |events|
  {
    hide Enabled, Next;
    if events == [] {
      assert [e][1..] == [];
      assert Reaches(Next(c, e), [e][1..], Next(c', e));
      assert events + [e] == [e];
    } else {
      assert (events + [e])[1..] == events[1..] + [e];
      RunExtended(Next(c, events[0]), events[1..], c', e);
    }
  }

  lemma {:induction false} SplitRun(c: Channel, a: seq<Event>, b: seq<Event>, c': Channel)
    returns (mid: Channel)
    requires Reaches(c, a + b, c')
    ensures Reaches(c, a, mid) && Reaches(mid, b, c')
    decreases |a|
  {
    if a == [] {
      assert a + b == b;
      mid := c;
    } else {
      assert (a + b)[1..] == a[1..] + b;
      mid := SplitRun(Next(c, a[0]), a[1..], b, c');
    }
  }

  lemma OpenedSound(isRequest: bool)
    ensures Sound(Opened(isRequest))
  {
    assert PrintedModes(ENTITY_UNKNOWN, []) == ENTITY_UNKNOWN;
  }

  /** However a message is filled, drained and sent, once it is complete and the printer has
      looked once more, the bytes sent and still to be sent parse to the message as HTTP/1.1
      carries it, and no shorter prefix of them ends a message. */
  lemma PrintedParses(isRequest: bool, events: seq<Event>, c: Channel)
    requires Reaches(Opened(isRequest), events + [Look], c)
    requires c.added.stage == DONE && StartKnown(c.added) && Safe(c.added)
    ensures c.added.isRequest ==> c.added.verb < Http.VERB_UNKNOWN
    ensures var emitted := c.sent + c.printer.data;
      && Run(Initial(isRequest), emitted) == Parser(Done, ReadBack(c.added))
      && forall k :: 0 <= k < |emitted| ==> !Stopped(Run(Initial(isRequest), emitted[..k]))
    ensures Sent(c.held)
  {
    hide Run, Safe, Updated, Faithful, ReadBack, Stopped;
    var c0 := SplitRun(Opened(isRequest), events, [Look], c);
    assert Next(c0, Look) == c by {
      assert Reaches(Next(c0, Look), [Look][1..], c);
    }
    OpenedSound(isRequest);
    RunSound(Opened(isRequest), events, c0);
    UpdateFaithful(c0.added, c0.held, c0.printer, c0.sent);
    UpdateLevels(c0.added, c0.held, c0.printer, c0.sent);
    SameLevel(c0.added, c0.held, c0.printer, c0.sent);
    AllTold(c);
    CompleteParses(c.added, c.printer.mode, c.sent + c.printer.data);
  }

  lemma SameLevel(added: Msg, held: Msg, p: Printer, sent: Bytes)
    requires Faithful(added, held, p, sent)
    ensures held.stage == added.stage && StartKnown(held) == StartKnown(added)
  {
    hide Tells;
  }

  lemma AllTold(c: Channel)
    requires Faithful(c.added, c.held, c.printer, c.sent)
    requires c.printer.init && c.printer.stage == c.held.stage == c.added.stage == DONE && Emptied(c.held)
    ensures Tells(c.added, DONE, c.printer.mode, c.sent + c.printer.data)
    ensures Sent(c.held)
    ensures c.added.isRequest ==> c.added.verb < Http.VERB_UNKNOWN
  {
    hide Run, Reached, ModeFollows, StopsLast, Taken, Backlog, Initial;
    SameLevel(c.added, c.held, c.printer, c.sent);
    AllTaken(c.added, c.held);
  }

  lemma CompleteParses(m: Msg, mode: int, emitted: Bytes)
    requires Tells(m, DONE, mode, emitted) && Safe(m) && m.stage == DONE
    ensures Run(Initial(m.isRequest), emitted) == Parser(Done, ReadBack(m))
    ensures forall k :: 0 <= k < |emitted| ==> !Stopped(Run(Initial(m.isRequest), emitted[..k]))
  {
    hide Run, Kept, Initial, PrintedModes, ParsedModes, LinesSafe, Http.AToVerb, Http.VerbToA;
    var p := Initial(m.isRequest);
    assert Framing(m) == ENTITY_CHUNKED <==> mode == ENTITY_CHUNKED;
    var most := emitted[..|emitted|-1];
    forall k | 0 <= k < |emitted| ensures !Stopped(Run(p, emitted[..k])) {
      assert most == emitted[..k] + most[k..];
      RunAppend(p, emitted[..k], most[k..]);
      if Stopped(Run(p, emitted[..k])) {
        RunStopped(Run(p, emitted[..k]), most[k..]);
      }
    }
  }

  // ----- the class -----

  class MessageSink11 {
    const msg: HttpMessage
    var packetStr: Bytes
    var writeState: Stage
    var isInit: bool
    var entityMode: int

    // everything handed to the socket so far
    ghost var sent: Bytes

    constructor (message: HttpMessage)
      requires message.Valid() && message.Contents() == message.added && Printable(message.Contents())
      ensures msg == message && Fields() == FRESH && sent == []
      ensures Valid() && Parses()
    {
      msg := message;
      packetStr := [];
      writeState := HEADER;
      isInit := false;
      entityMode := ENTITY_UNKNOWN;
      sent := [];
    }

    function Fields(): (p: Printer)
      reads this
    {
      Printer(writeState, isInit, entityMode, packetStr)
    }

    ghost predicate Valid()
      reads this, msg
    {
      msg.Valid() && writeState.AtMost(msg.state) && Printable(msg.Contents())
    }

    /** What has been printed parses to what has been drained. */
    ghost predicate Parses()
      reads this, msg
    {
      Faithful(msg.added, msg.Contents(), Fields(), sent)
    }

    method AddHeaders(headers: seq<KeyValue>)
      modifies this`packetStr, this`entityMode
      ensures packetStr == old(packetStr) + PairsText(headers)
      ensures entityMode == PrintedModes(old(entityMode), headers)
    {
      hide Names, Common.Numeral, PairText;
      var i := 0;
      assert headers[0..] == headers;
      while i < |headers|
        invariant 0 <= i <= |headers|
        invariant packetStr + PairsText(headers[i..]) == old(packetStr) + PairsText(headers)
        invariant PrintedModes(entityMode, headers[i..]) == PrintedModes(old(entityMode), headers)
      {
        var h := headers[i];
        assert headers[i..][1..] == headers[i+1..];
        ghost var mode, text := entityMode, packetStr;
        if Names(h.key, TRANSFER_ENCODING) {
          if Names(h.value, CHUNKED) {
            entityMode := ENTITY_CHUNKED;
          }
        } else if entityMode == ENTITY_UNKNOWN && Names(h.key, CONTENT_LENGTH) {
          entityMode := Common.StrToLL(h.value);
          if Common.OutOfRange(h.value) {
            entityMode := ENTITY_UNKNOWN;
          }
        }
        assert entityMode == PrintedMode(mode, h);
        AddPair(h);
        assert text + (PairText(h) + PairsText(headers[i+1..])) == packetStr + PairsText(headers[i+1..]);
        i := i + 1;
      }
      assert headers[|headers|..] == [];
    }

    method AddPair(kv: KeyValue)
      modifies this`packetStr
      ensures packetStr == old(packetStr) + PairText(kv)
    {
      packetStr := packetStr + kv.key;
      packetStr := packetStr + COLON_SP;
      packetStr := packetStr + kv.value;
      packetStr := packetStr + CRLF;
    }

    /** The start line, once it is known. */
    method AddStartLine()
      requires Printable(msg.Contents()) && StartKnown(msg.Contents())
      modifies this`packetStr
      ensures packetStr == old(packetStr) + StartText(msg.Contents())
    {
      hide Common.Dec, Common.UrlEncoded, Http.VerbToA;
      if msg.isRequest {
        packetStr := packetStr + Http.VerbToA(msg.verb);
        packetStr := packetStr + [SP];
        var url := Common.UrlEncode(msg.url);
        packetStr := packetStr + url;
        packetStr := packetStr + ([SP] + HTTP11 + CRLF);
      } else {
        var numbuf := Common.Dec(msg.status);
        packetStr := packetStr + (HTTP11 + [SP]);
        packetStr := packetStr + numbuf;
        packetStr := packetStr + ([SP] + FIXME + CRLF);
      }
    }

    method CheckHeaders()
      requires Valid()
      modifies this, msg
      ensures Valid() && msg.added == old(msg.added) && sent == old(sent)
      ensures (Fields(), msg.Contents()) == HeaderPart(old(Fields()), old(msg.Contents()))
    {
      hide PairsText, PrintedModes, ParsedModes, Backlog, StartText;
      if writeState == HEADER {
        ghost var start := if isInit then [] else if StartKnown(msg.Contents()) then StartText(msg.Contents()) else [];
        if !isInit {
          if msg.isRequest && (msg.url == [] || msg.verb == Http.VERB_UNKNOWN) {
            return;
          }
          if !msg.isRequest && msg.status == -1 {
            return;
          }
          AddStartLine();
          isInit := true;
        }
        assert packetStr == old(packetStr) + start;
        var headers := msg.GetHeaders();
        AddHeaders(headers);
        assert packetStr + [] == packetStr;
        if msg.state != HEADER {
          if entityMode != ENTITY_UNKNOWN {
            packetStr := packetStr + CRLF;
          }
          writeState := ENTITY;
        }
      }
    }

    method CheckEntity()
      requires Valid()
      modifies this, msg
      ensures Valid() && msg.added == old(msg.added) && sent == old(sent)
      ensures (Fields(), msg.Contents()) == EntityPart(old(Fields()), old(msg.Contents()))
    {
      hide Backlog, Common.HexOfSize;
      if writeState == ENTITY {
        var entity := msg.GetEntity();
        ghost var start := packetStr;
        if entity != [] {
          if entityMode == ENTITY_UNKNOWN {
            packetStr := packetStr + (CHUNKED_HEADER + CRLF + CRLF);
            entityMode := ENTITY_CHUNKED;
          }
          if entityMode == ENTITY_CHUNKED {
            AddChunk(entity);
          } else if entityMode >= 0 {
            if |entity| > entityMode {
              entityMode := 0;
            } else {
              entityMode := entityMode - |entity|;
            }
            packetStr := packetStr + entity;
          }
        }
        assert packetStr == start + Framed(old(entityMode), entity).1;
        assert packetStr + [] == packetStr;
        if msg.state != ENTITY {
          if entityMode == ENTITY_UNKNOWN {
            packetStr := packetStr + CRLF;
          } else if entityMode == ENTITY_CHUNKED {
            packetStr := packetStr + LAST_CHUNK;
          }
          writeState := FOOTER;
        }
      }
    }

    method AddChunk(entity: Bytes)
      modifies this`packetStr
      ensures packetStr == old(packetStr) + ChunkText(entity)
    {
      hide Common.HexOfSize;
      var numbuf := Common.HexOfSize(|entity|);
      packetStr := packetStr + numbuf;
      packetStr := packetStr + CRLF;
      packetStr := packetStr + entity;
      packetStr := packetStr + CRLF;
    }

    method CheckFooters()
      requires Valid()
      modifies this, msg
      ensures Valid() && msg.added == old(msg.added) && sent == old(sent)
      ensures (Fields(), msg.Contents()) == FooterPart(old(Fields()), old(msg.Contents()))
    {
      hide Backlog, PairText;
      if writeState == FOOTER {
        var footers := msg.GetFooters();
        if footers != [] && entityMode == ENTITY_CHUNKED {
          var i := 0;
          assert footers[0..] == footers;
          while i < |footers|
            invariant 0 <= i <= |footers|
            invariant packetStr + PairsText(footers[i..]) == old(packetStr) + PairsText(footers)
            invariant Fields() == old(Fields()).(data := packetStr) && sent == old(sent)
            invariant msg.Valid() && msg.added == old(msg.added)
            invariant msg.Contents() == old(msg.Contents()).(footers := [])
          {
            assert footers[i..][1..] == footers[i+1..];
            ghost var text := packetStr;
            AddPair(footers[i]);
            assert text + (PairText(footers[i]) + PairsText(footers[i+1..]))
                == packetStr + PairsText(footers[i+1..]);
            i := i + 1;
          }
          assert footers[|footers|..] == [];
        }
        assert old(packetStr) + [] == old(packetStr);
        assert packetStr + [] == packetStr;
        if msg.state == DONE {
          if entityMode == ENTITY_CHUNKED {
            packetStr := packetStr + CRLF;
          }
          writeState := DONE;
        }
      }
    }

    method CheckForUpdate()
      requires Valid()
      modifies this, msg
      ensures Valid() && msg.added == old(msg.added) && sent == old(sent)
      ensures (Fields(), msg.Contents()) == Updated(old(Fields()), old(msg.Contents()))
      ensures old(Parses()) && Safe(msg.added) ==> Parses()
    {
      hide HeaderPart, EntityPart, FooterPart, Faithful, Safe, Backlog;
      if Parses() && Safe(msg.added) {
        UpdateFaithful(msg.added, msg.Contents(), Fields(), sent);
      }
      CheckHeaders();
      CheckEntity();
      CheckFooters();
    }

    method GetWriteSize() returns (n: nat)
      requires Valid()
      modifies this, msg
      ensures Valid() && msg.added == old(msg.added) && sent == old(sent)
      ensures (Fields(), msg.Contents()) == Updated(old(Fields()), old(msg.Contents()))
      ensures old(Parses()) && Safe(msg.added) ==> Parses()
      ensures n == |packetStr|
    {
      CheckForUpdate();
      n := |packetStr|;
    }

    method Write(sock: Sockets.Socket, maxWrite: nat) returns (amountSent: nat)
      requires Valid()
      modifies this, msg, sock
      ensures Valid() && msg.added == old(msg.added)
      ensures old(Parses()) && Safe(msg.added) ==> Parses()
      ensures var (p, m) := Updated(old(Fields()), old(msg.Contents()));
        && amountSent <= |p.data| && amountSent <= maxWrite
        && Fields() == p.(data := p.data[amountSent..]) && msg.Contents() == m
        && sent == old(sent) + p.data[..amountSent]
        && sock.outgoing == old(sock.outgoing) + p.data[..amountSent]
        && sock.incoming == old(sock.incoming)
    {
      hide Updated, Faithful, Safe, Backlog;
      var size := GetWriteSize();
      var toWrite := Sockets.Min(size, maxWrite);
      assert sock.outgoing == old(sock.outgoing);
      ghost var p := Fields();
      amountSent := sock.Send(packetStr[..toWrite]);
      assert packetStr[..toWrite][..amountSent] == packetStr[..amountSent];
      sent := sent + packetStr[..amountSent];
      if amountSent > 0 {
        packetStr := packetStr[amountSent..];
      }
      if old(Parses()) && Safe(msg.added) {
        SendFaithful(msg.added, msg.Contents(), p, old(sent), amountSent);
      }
    }
  }
}
