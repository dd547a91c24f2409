/** What the HTTP/1.1 printer puts on the wire, byte for byte: over any schedule of filling, looking and
    sending it depends on the message alone, but for where the entity is cut into chunks. */
module Http11Wire {
  import opened Basics
  import opened Http11Format
  import opened Http11Sink
  import opened Messages
  import opened Octets
  import Common
  import Http
  import Sockets

  /** The framing that the headers ask for. */
  function Asked(t: Msg): (mode: int) {
    PrintedModes(ENTITY_UNKNOWN, t.headers)
  }

  predicate InChunks(t: Msg, batches: seq<Bytes>) {
    Asked(t) == ENTITY_CHUNKED || (Asked(t) == ENTITY_UNKNOWN && batches != [])
  }

  function HeadText(t: Msg): (r: Bytes) {
    StartText(t) + PairsText(t.headers)
  }

  /** Each batch of the entity is a chunk, unless a length was announced; with one below zero nothing
      of the entity is sent. */
  function BatchText(asked: int, e: Bytes): (r: Bytes) {
    if asked == ENTITY_UNKNOWN || asked == ENTITY_CHUNKED then ChunkText(e) else if asked >= 0 then e else []
  }

  function BatchesText(asked: int, batches: seq<Bytes>): (r: Bytes)
    decreases |batches|
  {
    if batches == [] then []
    else BatchesText(asked, batches[..|batches|-1]) + BatchText(asked, batches[|batches|-1])
  }

  /** The end of the headers, behind a request for chunks if nobody else has made one and there is an
      entity. */
  function BlankText(asked: int, batches: seq<Bytes>): (r: Bytes) {
    if asked != ENTITY_UNKNOWN then CRLF
    else if batches != [] then CHUNKED_HEADER + CRLF + CRLF
    else []
  }

  function EndText(t: Msg, batches: seq<Bytes>): (r: Bytes) {
    if InChunks(t, batches) then LAST_CHUNK else if Asked(t) == ENTITY_UNKNOWN then CRLF else []
  }

  function FootersText(t: Msg, stage: Stage, batches: seq<Bytes>): (r: Bytes) {
    if InChunks(t, batches) then PairsText(t.footers) + (if stage == DONE then CRLF else []) else []
  }

  function ToEntity(t: Msg, batches: seq<Bytes>): (r: Bytes) {
    HeadText(t) + BlankText(Asked(t), batches) + BatchesText(Asked(t), batches)
  }

  /** All that a printer at this stage has put out for the part t of a message. */
  function Spelled(t: Msg, stage: Stage, batches: seq<Bytes>): (r: Bytes) {
    match stage
    case HEADER => HeadText(t)
    case ENTITY => ToEntity(t, batches)
    case _ => ToEntity(t, batches) + EndText(t, batches) + FootersText(t, stage, batches)
  }

  predicate NoneEmpty(batches: seq<Bytes>) {
    forall i :: 0 <= i < |batches| ==> batches[i] != []
  }

  /** The framing that is left follows from what was asked for and what has gone out. */
  predicate ModeNow(t: Msg, stage: Stage, mode: int, batches: seq<Bytes>) {
    if stage == HEADER then mode == Asked(t)
    else if InChunks(t, batches) then mode == ENTITY_CHUNKED
    else if Asked(t) >= 0 then mode >= 0
    else mode == Asked(t)
  }

  /** What has been printed of the part t of a message, and how its entity was cut. */
  predicate Spells(t: Msg, stage: Stage, mode: int, batches: seq<Bytes>, emitted: Bytes) {
    && ModeNow(t, stage, mode, batches) && NoneEmpty(batches) && Sockets.Concat(batches) == t.entity
    && (stage == HEADER ==> batches == []) && (stage.AtMost(ENTITY) ==> t.footers == [])
    && emitted == Spelled(t, stage, batches)
  }

  predicate Regular(c: Channel, batches: seq<Bytes>) {
    && Backlog(c.added, c.held)
    && c.printer.stage.AtMost(c.held.stage)
    && (c.printer.stage != HEADER ==> c.held.headers == [])
    && (FOOTER.AtMost(c.printer.stage) ==> c.held.entity == [])
    && (c.printer.stage == DONE ==> c.held.footers == [])
    && (!c.printer.init ==> c.printer == FRESH && c.sent == [] && c.held == c.added && batches == [])
    && (c.printer.init ==>
         && StartKnown(c.held)
         && Spells(Taken(c.added, c.held), c.printer.stage, c.printer.mode, batches, c.sent + c.printer.data))
  }

  lemma {:induction false} PairsTextAppend(a: seq<KeyValue>, b: seq<KeyValue>)
    ensures PairsText(a + b) == PairsText(a) + PairsText(b)
    decreases |a|
  {
    hide PairText;
    if a == [] {
      assert a + b == b;
    } else {
      assert (a + b)[1..] == a[1..] + b;
      PairsTextAppend(a[1..], b);
    }
  }

  lemma BatchesAppend(asked: int, batches: seq<Bytes>, e: Bytes)
    ensures BatchesText(asked, batches + [e]) == BatchesText(asked, batches) + BatchText(asked, e)
  {
    hide BatchText;
    assert (batches + [e])[..|batches|] == batches;
  }

  // ----- the header part -----

  /** A batch of headers goes behind those before it. */
  lemma HeadAppend(t: Msg, batch: seq<KeyValue>)
    ensures HeadText(t.(headers := t.headers + batch)) == HeadText(t) + PairsText(batch)
  {
    hide PairsText, StartText;
    PairsTextAppend(t.headers, batch);
    SameStartText(t, t.(headers := t.headers + batch));
    assert StartText(t) + (PairsText(t.headers) + PairsText(batch)) == HeadText(t) + PairsText(batch);
  }

  lemma SameHead(a: Msg, b: Msg)
    requires SameStart(a, b) && a.headers == b.headers
    ensures HeadText(a) == HeadText(b)
  {
    SameStartText(a, b);
  }

  /** The text of the header part, with the start line if it is due. */
  lemma HeaderPartText(c: Channel)
    requires Regular(c, []) && c.printer.stage == HEADER && (c.printer.init || StartKnown(c.held))
    ensures var data := c.printer.data + (if c.printer.init then [] else StartText(c.held)) + PairsText(c.held.headers);
      var t := Taken(c.added, c.held);
      && c.sent + data == HeadText(t.(headers := t.headers + c.held.headers))
      && t.entity == [] && t.footers == [] && Asked(t) == c.printer.mode
  {
    hide PairsText, StartText, PrintedModes, Suffix;
    var t := Taken(c.added, c.held);
    HeadAppend(t, c.held.headers);
    if c.printer.init {
      assert c.sent + (c.printer.data + [] + PairsText(c.held.headers))
          == c.sent + c.printer.data + PairsText(c.held.headers);
    } else {
      SameStartText(t, c.held);
      NothingYet(t);
      assert c.sent + (c.printer.data + StartText(c.held) + PairsText(c.held.headers))
          == StartText(c.held) + PairsText(c.held.headers);
    }
  }

  lemma NothingYet(t: Msg)
    requires t.headers == []
    ensures HeadText(t) == StartText(t) && Asked(t) == ENTITY_UNKNOWN
  {
    hide StartText;
    assert PairsText([]) == [];
    assert StartText(t) + [] == StartText(t);
  }

  lemma HeaderPartRegular(c: Channel, batches: seq<Bytes>)
    requires Regular(c, batches)
    ensures var (p, m) := HeaderPart(c.printer, c.held); Regular(c.(printer := p, held := m), batches)
  {
    hide PairsText, StartText, PrintedModes, Spells, Suffix, Taken;
    if c.printer.stage == HEADER && (c.printer.init || StartKnown(c.held)) {
      DrainHeaders(c.added, c.held);
      assert batches == [] by { NoBatchYet(c, batches); }
      HeaderPartSpells(c);
    }
  }

  lemma NoBatchYet(c: Channel, batches: seq<Bytes>)
    requires Regular(c, batches) && c.printer.stage == HEADER
    ensures batches == []
  {}

  lemma HeaderPartSpells(c: Channel)
    requires Regular(c, []) && c.printer.stage == HEADER && (c.printer.init || StartKnown(c.held))
    ensures var (p, m) := HeaderPart(c.printer, c.held);
      Backlog(c.added, m) && Spells(Taken(c.added, m), p.stage, p.mode, [], c.sent + p.data)
  {
    hide PairsText, StartText, PrintedModes, HeadText, Backlog, StartKnown;
    var data := c.printer.data + (if c.printer.init then [] else StartText(c.held)) + PairsText(c.held.headers);
    TakenBefore(c, []);
    var t := Taken(c.added, c.held);
    HeaderPartText(c);
    DrainHeaders(c.added, c.held);
    ModesAppend(ENTITY_UNKNOWN, t.headers, c.held.headers);
    var head := HeadText(Taken(c.added, c.held.(headers := [])));
    assert head + CRLF + [] == head + CRLF && head + [] + [] == head && data + [] == data;
    assert c.sent + (data + CRLF) == c.sent + data + CRLF;
  }

  lemma TakenBefore(c: Channel, batches: seq<Bytes>)
    requires Regular(c, batches)
    ensures Backlog(c.added, c.held)
  {}

  // ----- the entity part -----

  function MoreBatches(batches: seq<Bytes>, e: Bytes): (r: seq<Bytes>) {
    if e == [] then batches else batches + [e]
  }

  /** A batch of the entity goes behind those before it. */
  lemma EntityAppend(t: Msg, mode: int, batches: seq<Bytes>, e: Bytes, emitted: Bytes)
    requires Spells(t, ENTITY, mode, batches, emitted)
    ensures var (mode', text) := Framed(mode, e);
      Spells(t.(entity := t.entity + e), ENTITY, mode', MoreBatches(batches, e), emitted + text)
  {
    hide PrintedModes, HeadText, ChunkText, BatchesText, Sockets.Concat;
    var t' := t.(entity := t.entity + e);
    SameHead(t, t');
    if e == [] {
      assert t.entity + e == t.entity && emitted + [] == emitted;
    } else {
      Sockets.ConcatAppend(batches, e);
      BatchesAppend(Asked(t), batches, e);
      var begun := HeadText(t) + BlankText(Asked(t), batches);
      Regroup(begun, BatchesText(Asked(t), batches), BatchText(Asked(t), e));
      if Asked(t) == ENTITY_UNKNOWN && batches == [] {
        FirstChunk(HeadText(t), ChunkText(e));
      } else {
        assert Asked(t) < ENTITY_CHUNKED ==> emitted + [] == emitted;
      }
    }
  }

  lemma FirstChunk(head: Bytes, text: Bytes)
    ensures head + [] + BatchesText(ENTITY_UNKNOWN, []) + (CHUNKED_HEADER + CRLF + CRLF + text)
         == head + (CHUNKED_HEADER + CRLF + CRLF) + (BatchesText(ENTITY_UNKNOWN, []) + text)
  {
    assert head + [] + [] == head && [] + text == text;
    Regroup(head, CHUNKED_HEADER + CRLF + CRLF, text);
  }

  lemma EntityEnds(t: Msg, mode: int, batches: seq<Bytes>, emitted: Bytes)
    requires Spells(t, ENTITY, mode, batches, emitted)
    ensures Spells(t, FOOTER, mode, batches, emitted + EntityEnd(mode))
  {
    hide PrintedModes, HeadText, BatchesText, Sockets.Concat, BlankText;
    assert PairsText(t.footers) == [];
    var end := EntityEnd(mode);
    assert emitted + end + [] == emitted + end;
  }

  lemma EntityPartRegular(c: Channel, batches: seq<Bytes>)
    requires Regular(c, batches)
    ensures var (p, m) := EntityPart(c.printer, c.held);
      Regular(c.(printer := p, held := m),
              if c.printer.stage == ENTITY then MoreBatches(batches, c.held.entity) else batches)
  {
    hide Spells, Suffix, Framed, EntityEnd, Taken, MoreBatches;
    if c.printer.stage == ENTITY {
      DrainEntity(c.added, c.held);
      var t, e := Taken(c.added, c.held), c.held.entity;
      var (mode, text) := Framed(c.printer.mode, e);
      EntityAppend(t, c.printer.mode, batches, e, c.sent + c.printer.data);
      Regroup(c.sent, c.printer.data, text);
      if c.held.stage != ENTITY {
        EntityEnds(t.(entity := t.entity + e), mode, MoreBatches(batches, e), c.sent + c.printer.data + text);
        Regroup(c.sent, c.printer.data + text, EntityEnd(mode));
      }
    }
  }

  // ----- the footer part -----

  lemma FooterAppend(t: Msg, mode: int, batches: seq<Bytes>, kvs: seq<KeyValue>, done: bool, emitted: Bytes)
    requires Spells(t, FOOTER, mode, batches, emitted)
    ensures var text := (if mode == ENTITY_CHUNKED then PairsText(kvs) else [])
                        + (if done && mode == ENTITY_CHUNKED then CRLF else []);
      Spells(t.(footers := t.footers + kvs), if done then DONE else FOOTER, mode, batches, emitted + text)
  {
    hide PrintedModes, HeadText, BatchesText, Sockets.Concat, BlankText, PairsText;
    var t' := t.(footers := t.footers + kvs);
    SameHead(t, t');
    PairsTextAppend(t.footers, kvs);
    var most := ToEntity(t, batches) + EndText(t, batches);
    if mode == ENTITY_CHUNKED {
      ChunksAsked(t, mode, batches, emitted);
      var before, more, end := PairsText(t.footers), PairsText(kvs), if done then CRLF else [];
      assert before + [] == before;
      Regroup(most, before, more + end);
      Regroup(before, more, end);
    } else {
      assert emitted + ([] + []) == emitted;
    }
  }

  lemma ChunksAsked(t: Msg, mode: int, batches: seq<Bytes>, emitted: Bytes)
    requires Spells(t, FOOTER, mode, batches, emitted)
    ensures InChunks(t, batches) <==> mode == ENTITY_CHUNKED
  {
    hide PrintedModes, Spelled, Sockets.Concat;
  }

  lemma FooterPartRegular(c: Channel, batches: seq<Bytes>)
    requires Regular(c, batches)
    ensures var (p, m) := FooterPart(c.printer, c.held); Regular(c.(printer := p, held := m), batches)
  {
    hide Spells, Suffix, PairsText, Taken;
    if c.printer.stage == FOOTER {
      DrainFooters(c.added, c.held);
      var t, kvs, done := Taken(c.added, c.held), c.held.footers, c.held.stage == DONE;
      var text := if c.printer.mode == ENTITY_CHUNKED then PairsText(kvs) else [];
      var end := if done && c.printer.mode == ENTITY_CHUNKED then CRLF else [];
      FooterAppend(t, c.printer.mode, batches, kvs, done, c.sent + c.printer.data);
      Regroup(c.printer.data, text, end);
      Regroup(c.sent, c.printer.data, text + end);
      assert text + [] == text;
    }
  }

  // ----- runs -----

  lemma LookRegular(c: Channel, batches: seq<Bytes>) returns (batches': seq<Bytes>)
    requires Regular(c, batches)
    ensures Regular(Next(c, Look), batches')
  {
    hide Regular, HeaderPart, EntityPart, FooterPart, MoreBatches;
    HeaderPartRegular(c, batches);
    var (p1, m1) := HeaderPart(c.printer, c.held);
    batches' := if p1.stage == ENTITY then MoreBatches(batches, m1.entity) else batches;
    EntityPartRegular(c.(printer := p1, held := m1), batches);
    var (p2, m2) := EntityPart(p1, m1);
    FooterPartRegular(c.(printer := p2, held := m2), batches');
  }

  lemma FillRegular(c: Channel, batches: seq<Bytes>, d: Msg)
    requires Regular(c, batches) && Fills(c.held, d)
    ensures Regular(Next(c, Fill(d)), batches)
  {
    hide Spells, Suffix, Taken, Backlog;
    FillKeepsBacklog(c.added, c.held, d);
    if c.printer.init {
      FillKeepsTaken(c.added, c.held, d, HEADER);
      SameSpells(Taken(c.added, c.held), Taken(Grown(c.added, d), Grown(c.held, d)),
                 c.printer.stage, c.printer.mode, batches, c.sent + c.printer.data);
    }
  }

  lemma SameSpells(t: Msg, t': Msg, stage: Stage, mode: int, batches: seq<Bytes>, emitted: Bytes)
    requires t.(stage := HEADER) == t'.(stage := HEADER) && Spells(t, stage, mode, batches, emitted)
    ensures Spells(t', stage, mode, batches, emitted)
  {
    hide PrintedModes, HeadText, PairsText, BatchesText, BlankText;
    SameHead(t, t');
  }

  lemma SendRegular(c: Channel, batches: seq<Bytes>, n: nat)
    requires Regular(c, batches) && n <= |c.printer.data|
    ensures Regular(Next(c, Send(n)), batches)
  {
    hide Spells;
    assert c.sent + c.printer.data[..n] + c.printer.data[n..] == c.sent + c.printer.data;
  }

  lemma {:induction false} RunRegular(c: Channel, batches: seq<Bytes>, events: seq<Event>, c': Channel)
    returns (batches': seq<Bytes>)
    requires Regular(c, batches) && Reaches(c, events, c')
    ensures Regular(c', batches')
    decreases |events|
  {
    hide Regular, Updated, Fills;
    if events == [] {
      batches' := batches;
    } else {
      var next := batches;
      match events[0] {
        case Fill(d) => FillRegular(c, batches, d);
        case Look => next := LookRegular(c, batches);
        case Send(n) => SendRegular(c, batches, n);
      }
      batches' := RunRegular(Next(c, events[0]), next, events[1..], c');
    }
  }

  lemma OpenedRegular(isRequest: bool)
    ensures Regular(Opened(isRequest), [])
  {}

  /** After a look the printer has come as far as the message, and has taken what there is. */
  lemma LookLevels(c: Channel, batches: seq<Bytes>)
    requires Regular(c, batches)
    ensures var (p, m) := Updated(c.printer, c.held);
      && (p.init <==> StartKnown(c.held))
      && (p.init ==> p.stage == c.held.stage && Emptied(m))
  {
    hide Spells, Backlog, Taken, StartText, PairsText, PrintedModes, Framed, EntityEnd;
  }

  /** The bytes that go out for a message: none before its start line is known, which is when a request
      has a verb that is in the table and a URL, and a response has a status; and then the text of what
      has been taken of it, the entity cut into some batches, none of them empty. */
  lemma SentIsSpelled(isRequest: bool, events: seq<Event>, c: Channel) returns (batches: seq<Bytes>)
    requires Reaches(Opened(isRequest), events + [Look], c)
    ensures Backlog(c.added, c.held)
    ensures var t, known := Taken(c.added, c.held),
          if c.held.isRequest then c.held.url != [] && c.held.verb != Http.VERB_UNKNOWN else c.held.status != -1;
      && c.sent + c.printer.data == (if known then Spelled(t, c.held.stage, batches) else [])
      && (known ==> Emptied(c.held) && Sockets.Concat(batches) == t.entity) && NoneEmpty(batches)
  {
    hide Updated, Spelled, PrintedModes, Fills, Regular, Emptied;
    var c0 := SplitRun(Opened(isRequest), events, [Look], c);
    assert Reaches(Next(c0, Look), [Look][1..], c);
    OpenedRegular(isRequest);
    var before := RunRegular(Opened(isRequest), [], events, c0);
    batches := LookRegular(c0, before);
    TakenBefore(c0, before);
    UpdateDrains(c0.added, c0.held, c0.printer);
    LookLevels(c0, before);
    WhatIsSpelled(c, batches);
  }

  lemma WhatIsSpelled(c: Channel, batches: seq<Bytes>)
    requires Regular(c, batches) && (c.printer.init <==> StartKnown(c.held))
    ensures Backlog(c.added, c.held) && NoneEmpty(batches)
    ensures c.sent + c.printer.data
      == if c.printer.init then Spelled(Taken(c.added, c.held), c.printer.stage, batches) else []
    ensures c.printer.init ==> Sockets.Concat(batches) == Taken(c.added, c.held).entity
  {
    hide Spelled, ModeNow, Taken, Backlog;
  }

  // ----- what the parts look like -----

  /** A URL without per cent sign and white space stands in the request line as it is. */
  lemma RequestLineLooks(m: Msg)
    requires m.isRequest && '%' !in m.url && Common.SpaceFree(m.url)
    ensures StartText(m) == VerbName(m.verb) + [SP] + m.url + " HTTP/1.1\r\n"
  {
    hide VerbName, Common.UrlEncoded, Common.SpaceFree;
    Common.EncodedPlainIff(m.url);
    var begun := VerbName(m.verb) + [SP] + m.url;
    Regroup(begun, [SP], HTTP11);
    Regroup(begun, [SP] + HTTP11, CRLF);
    assert [SP] + HTTP11 + CRLF == " HTTP/1.1\r\n";
  }

  lemma StatusLineExample()
    ensures StartText(Blank(false).(status := 200)) == "HTTP/1.1 200 FIXME\r\n"
  {
    assert Common.DecNat(2) == "2" && Common.DecNat(20) == "20";
    assert Common.DecNat(200) == "200";
    hide Common.DecNat;
  }

  lemma FieldAndChunkExample()
    ensures PairText(KeyValue("host", "x")) == "host: x\r\n"
    ensures ChunkText("hi") == "2\r\nhi\r\n"
    ensures CHUNKED_HEADER + CRLF + CRLF == "Transfer-Encoding: chunked\r\n\r\n"
  {
    assert Common.Hex(2) == "2";
    hide Common.Hex, PairText;
    HostText();
  }

  lemma HostText()
    ensures PairText(KeyValue("host", "x")) == "host: x\r\n"
  {
  }
}
