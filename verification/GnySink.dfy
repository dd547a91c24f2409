/** The GNY printer: it drains a message while the message is still being filled, and what it
    emits decodes to that message whatever the schedule. */
module GnySink {
  import opened Basics
  import opened Octets
  import opened Messages
  import opened GnyFormat
  import Common
  import Http
  import Sockets

  /** The printer's fields. */
  datatype Printer = Printer(stage: Stage, init: bool, data: Bytes)

  const FRESH := Printer(HEADER, false, [])

  /** The condition under which the printer starts; a status is narrowed to sixteen bits. */
  predicate Ready(m: Msg) {
    if m.isRequest then m.url != [] && m.verb != Http.VERB_UNKNOWN
    else m.status % 0x1_0000 != 0xFFFF
  }

  function StartBytes(m: Msg): (r: Bytes) {
    if m.isRequest then [Byte(m.verb % 256)] + Common.WriteString(m.url)
    else Common.WriteShort(m.status)
  }

  function HeaderPart(p: Printer, m: Msg): (r: (Printer, Msg)) {
    if p.stage != HEADER || (!p.init && !Ready(m)) then (p, m)
    else
      var data := p.data + (if p.init then [] else StartBytes(m)) + EncodePairs(m.headers);
      (if m.stage == HEADER then Printer(HEADER, true, data)
       else Printer(ENTITY, true, data + [Byte(Http.HEADER_END)]),
       m.(headers := []))
  }

  function EntityPart(p: Printer, m: Msg): (r: (Printer, Msg)) {
    if p.stage != ENTITY then (p, m)
    else
      var data := p.data + EncodeChunks(m.entity);
      (if m.stage == ENTITY then p.(data := data)
       else p.(stage := FOOTER, data := data + Common.WriteShort(0)),
       m.(entity := []))
  }

  function FooterPart(p: Printer, m: Msg): (r: (Printer, Msg)) {
    if p.stage != FOOTER then (p, m)
    else
      var data := p.data + EncodePairs(m.footers);
      (if m.stage == FOOTER then p.(data := data)
       else p.(stage := DONE, data := data + [Byte(Http.HEADER_END)]),
       m.(footers := []))
  }

  /** Printer and message after the printer has looked for more to print. */
  function Updated(p: Printer, m: Msg): (r: (Printer, Msg)) {
    var (p1, m1) := HeaderPart(p, m);
    var (p2, m2) := EntityPart(p1, m1);
    FooterPart(p2, m2)
  }

  // ----- what the emitted bytes mean -----

  /** The message a GNY parser recovers from the encoding of m. */
  function Decoded(m: Msg): (r: Msg) {
    Msg(m.isRequest,
        if m.isRequest then m.verb % 256 else Http.VERB_UNKNOWN,
        if m.isRequest then m.url else [],
        if m.isRequest then -1 else m.status % 0x1_0000,
        CanonPairs(m.headers), m.entity, CanonPairs(m.footers), m.stage)
  }

  predicate Safe(m: Msg) {
    NulFree(m.url) && PairsSafe(m.headers) && PairsSafe(m.footers)
  }

  function PhaseAt(stage: Stage): (ph: Phase) {
    match stage
    case HEADER => Start
    case ENTITY => Size([])
    case FOOTER => Start
    case DONE => Done
  }

  /** What the parser makes of everything emitted so far is exactly what has been drained. */
  predicate Faithful(added: Msg, held: Msg, p: Printer, sent: Bytes) {
    var emitted := sent + p.data;
    && Backlog(added, held)
    && p.stage.AtMost(held.stage)
    && (p.stage != HEADER ==> held.headers == [])
    && (FOOTER.AtMost(p.stage) ==> held.entity == [])
    && (p.stage == DONE ==> held.footers == [])
    && (!p.init ==> p.stage == HEADER && emitted == [] && held == added)
    && (p.init ==>
         && Ready(held)
         && Run(Initial(held.isRequest), emitted)
            == Gny(PhaseAt(p.stage), Decoded(Taken(added, held).(stage := p.stage))))
    && (p.stage == DONE ==>
        emitted != [] && !Stopped(Run(Initial(held.isRequest), emitted[..|emitted|-1])))
  }

  lemma RunStart(m: Msg)
    requires Ready(m) && NulFree(m.url)
    ensures Run(Initial(m.isRequest), StartBytes(m))
         == Gny(Start, Decoded(m.(headers := [], entity := [], footers := [], stage := HEADER)))
  {
    var g, w := Initial(m.isRequest), StartBytes(m);
    if m.isRequest {
      assert w[1..] == m.url + [NUL];
      RunUrl([], Blank(true).(verb := w[0] as int), m.url);
      assert [] + m.url == m.url;
    } else {
      Common.ShortRoundTrip(m.status);
      assert [] + [w[0]] == [w[0]];
      assert w[1..] == [w[1]] && w[1..][1..] == [];
      assert Run(Step(g, w[0]), w[1..]) == Step(Step(g, w[0]), w[1]) by {
        assert Run(Step(Step(g, w[0]), w[1]), []) == Step(Step(g, w[0]), w[1]);
      }
    }
  }

  lemma CanonPairsAppend(a: seq<KeyValue>, b: seq<KeyValue>)
    ensures CanonPairs(a + b) == CanonPairs(a) + CanonPairs(b)
  {
    hide CanonPairs, CanonPair;
  }

  lemma SafeParts(added: Msg, held: Msg)
    requires Backlog(added, held) && Safe(added)
    ensures Safe(held)
  {
    forall i | 0 <= i < |held.headers| ensures PairSafe(held.headers[i]) {
      assert held.headers[i] == added.headers[|added.headers|-|held.headers| + i];
    }
    forall i | 0 <= i < |held.footers| ensures PairSafe(held.footers[i]) {
      assert held.footers[i] == added.footers[|added.footers|-|held.footers| + i];
    }
  }

  /** Everything emitted so far, and the start line if it is due. */
  lemma StartedBytes(added: Msg, held: Msg, p: Printer, sent: Bytes)
    requires Faithful(added, held, p, sent) && Safe(added)
    requires p.stage == HEADER && (p.init || Ready(held))
    ensures Run(Initial(held.isRequest), sent + p.data + (if p.init then [] else StartBytes(held)))
      == Gny(Start, Decoded(Taken(added, held).(stage := HEADER)))
  {
    hide Run, StartBytes, Initial;
    if p.init {
      assert sent + p.data + [] == sent + p.data;
    } else {
      assert sent + p.data + StartBytes(held) == StartBytes(held);
      RunStart(held);
      assert CanonPairs([]) == [];
    }
  }

  /** The start line and the headers drained so far, with no end mark yet. */
  lemma HeaderBytes(added: Msg, held: Msg, p: Printer, sent: Bytes)
    requires Faithful(added, held, p, sent) && Safe(added)
    requires p.stage == HEADER && (p.init || Ready(held))
    ensures var emitted :=
        sent + (p.data + (if p.init then [] else StartBytes(held)) + EncodePairs(held.headers));
      Run(Initial(held.isRequest), emitted)
      == Gny(Start, Decoded(Taken(added, held.(headers := [])).(stage := HEADER)))
  {
    hide Http.AToHeader, Run, EncodePairs, EncodePair, Initial, CanonPairs, StartBytes, Safe, PairsSafe;
    var begun := sent + p.data + (if p.init then [] else StartBytes(held));
    var m := Decoded(Taken(added, held).(stage := HEADER));
    SafeParts(added, held);
    StartedBytes(added, held, p, sent);
    RunAppend(Initial(held.isRequest), begun, EncodePairs(held.headers));
    RunPairs(m, held.headers);
    DrainHeaders(added, held);
    CanonPairsAppend(Taken(added, held).headers, held.headers);
    assert sent + (p.data + (if p.init then [] else StartBytes(held)) + EncodePairs(held.headers))
        == begun + EncodePairs(held.headers);
  }

  /** A printer that has begun, seen through what it has emitted in all. */
  predicate Begun(added: Msg, held: Msg, stage: Stage, emitted: Bytes) {
    && Backlog(added, held)
    && Ready(held)
    && Run(Initial(held.isRequest), emitted)
       == Gny(PhaseAt(stage), Decoded(Taken(added, held).(stage := stage)))
  }

  lemma HeaderPartFaithful(added: Msg, held: Msg, p: Printer, sent: Bytes)
    requires Faithful(added, held, p, sent) && Safe(added)
    ensures var (p', held') := HeaderPart(p, held); Faithful(added, held', p', sent)
  {
    hide Http.AToHeader, Run, EncodePairs, EncodeChunks, EncodePair, Taken, Decoded, StartBytes;
    if p.stage == HEADER && (p.init || Ready(held)) {
      var data := p.data + (if p.init then [] else StartBytes(held)) + EncodePairs(held.headers);
      var held' := held.(headers := []);
      HeaderBytes(added, held, p, sent);
      DrainHeaders(added, held);
      if held.stage != HEADER {
        EndHeaders(added, held', sent + data);
        Regroup(sent, data, [Byte(Http.HEADER_END)]);
      }
    }
  }

  lemma EndHeaders(added: Msg, held: Msg, emitted: Bytes)
    requires Begun(added, held, HEADER, emitted)
    ensures Begun(added, held, ENTITY, emitted + [Byte(Http.HEADER_END)])
  {
    hide Http.AToHeader;
    var g := Initial(held.isRequest);
    RunAppend(g, emitted, [Byte(Http.HEADER_END)]);
    RunFlag(Run(g, emitted), Byte(Http.HEADER_END));
  }

  lemma EntityPartFaithful(added: Msg, held: Msg, p: Printer, sent: Bytes)
    requires Faithful(added, held, p, sent) && Safe(added)
    ensures var (p', held') := EntityPart(p, held); Faithful(added, held', p', sent)
  {
    hide Http.AToHeader, Run, EncodePairs, EncodeChunks, EncodePair;
    if p.stage == ENTITY {
      var g := Initial(held.isRequest);
      var data := p.data + EncodeChunks(held.entity);
      DrainEntity(added, held);
      RunAppend(g, sent + p.data, EncodeChunks(held.entity));
      RunChunks(Decoded(Taken(added, held).(stage := ENTITY)), held.entity);
      assert sent + data == sent + p.data + EncodeChunks(held.entity);
      if held.stage != ENTITY {
        var zero := Common.WriteShort(0);
        RunAppend(g, sent + data, zero);
        RunSize(Run(g, sent + data).msg, 0);
        assert sent + (data + zero) == sent + data + zero;
      }
    }
  }

  lemma FooterPartFaithful(added: Msg, held: Msg, p: Printer, sent: Bytes)
    requires Faithful(added, held, p, sent) && Safe(added)
    ensures var (p', held') := FooterPart(p, held); Faithful(added, held', p', sent)
  {
    hide Http.AToHeader, Run, EncodePairs, EncodeChunks, EncodePair;
    if p.stage == FOOTER {
      var g := Initial(held.isRequest);
      var data := p.data + EncodePairs(held.footers);
      var m := Decoded(Taken(added, held).(stage := FOOTER));
      SafeParts(added, held);
      DrainFooters(added, held);
      RunAppend(g, sent + p.data, EncodePairs(held.footers));
      RunPairs(m, held.footers);
      CanonPairsAppend(Taken(added, held).footers, held.footers);
      assert sent + data == sent + p.data + EncodePairs(held.footers);
      if held.stage != FOOTER {
        var end := Byte(Http.HEADER_END);
        RunAppend(g, sent + data, [end]);
        RunFlag(Run(g, sent + data), end);
        assert sent + (data + [end]) == sent + data + [end];
        assert (sent + data + [end])[..|sent + data|] == sent + data;
      }
    }
  }

  /** Looking for more to print keeps the printer faithful. */
  lemma UpdateFaithful(added: Msg, held: Msg, p: Printer, sent: Bytes)
    requires Faithful(added, held, p, sent) && Safe(added)
    ensures var (p', held') := Updated(p, held); Faithful(added, held', p', sent)
  {
    hide Faithful, Safe, HeaderPart, EntityPart, FooterPart;
    HeaderPartFaithful(added, held, p, sent);
    var (p1, m1) := HeaderPart(p, held);
    EntityPartFaithful(added, m1, p1, sent);
    var (p2, m2) := EntityPart(p1, m1);
    FooterPartFaithful(added, m2, p2, sent);
  }

  /** After a look the printer is level with the message: everything drainable is drained and
      the stages agree. A message that is not ready is left alone. */
  lemma UpdateLevels(added: Msg, held: Msg, p: Printer, sent: Bytes)
    requires Faithful(added, held, p, sent)
    ensures var (p', held') := Updated(p, held);
      && p.data <= p'.data
      && (p'.init <==> Ready(held))
      && (Ready(held) ==> p'.stage == held'.stage == held.stage && Emptied(held'))
      && (!Ready(held) ==> p' == p && held' == held)
  {
    hide Run, Backlog, Taken, Decoded, EncodePairs, EncodeChunks, StartBytes;
    var (p1, m1) := HeaderPart(p, held);
    assert p.data <= p1.data;
    var (p2, m2) := EntityPart(p1, m1);
    assert p1.data <= p2.data;
    var (p3, m3) := FooterPart(p2, m2);
    assert p2.data <= p3.data;
  }

  lemma FillFaithful(added: Msg, held: Msg, p: Printer, sent: Bytes, d: Msg)
    requires Faithful(added, held, p, sent) && Fills(held, d)
    ensures Faithful(Grown(added, d), Grown(held, d), p, sent)
  {
    hide Run, Suffix, Decoded, Initial, Taken, Backlog;
    FillKeepsBacklog(added, held, d);
    if p.init {
      FillKeepsTaken(added, held, d, p.stage);
    }
  }

  lemma SendFaithful(added: Msg, held: Msg, p: Printer, sent: Bytes, n: nat)
    requires Faithful(added, held, p, sent) && n <= |p.data|
    ensures Faithful(added, held, p.(data := p.data[n..]), sent + p.data[..n])
  {
    hide Run, Backlog, Taken, Decoded, Ready, Initial;
    assert sent + p.data[..n] + p.data[n..] == sent + p.data;
  }

  // ----- runs: any interleaving of filling, looking and sending -----

  datatype Channel = Channel(added: Msg, held: Msg, printer: Printer, sent: Bytes)

  datatype Event =
    | Fill(d: Msg)    // the source adds to the message
    | Look            // the printer drains what there is
    | Send(n: nat)    // the socket takes n bytes

  function Opened(isRequest: bool): (c: Channel) {
    Channel(Blank(isRequest), Blank(isRequest), FRESH, [])
  }

  predicate Enabled(c: Channel, e: Event) {
    match e
    case Fill(d) => Fills(c.held, d)
    case Look => true
    case Send(n) => n <= |c.printer.data|
  }

  function Next(c: Channel, e: Event): (c': Channel)
    requires Enabled(c, e)
  {
    match e
    case Fill(d) => c.(added := Grown(c.added, d), held := Grown(c.held, d))
    case Look =>
      var (p, m) := Updated(c.printer, c.held);
      c.(held := m, printer := p)
    case Send(n) =>
      c.(printer := c.printer.(data := c.printer.data[n..]), sent := c.sent + c.printer.data[..n])
  }

  ghost predicate Reaches(c: Channel, events: seq<Event>, c': Channel)
    decreases |events|
  {
    if events == [] then c == c'
    else Enabled(c, events[0]) && Reaches(Next(c, events[0]), events[1..], c')
  }

  predicate Sound(c: Channel) {
    Faithful(c.added, c.held, c.printer, c.sent)
  }

  /** A message that is safe to print after more has been added was safe before. */
  lemma SafeBefore(m: Msg, d: Msg)
    requires Safe(Grown(m, d)) && (m.url != [] ==> d.url == m.url)
    ensures Safe(m)
  {
    assert forall i :: 0 <= i < |m.headers| ==> Grown(m, d).headers[i] == m.headers[i];
    assert forall i :: 0 <= i < |m.footers| ==> Grown(m, d).footers[i] == m.footers[i];
  }

  /** Looking only drains. */
  lemma UpdateDrains(added: Msg, held: Msg, p: Printer)
    requires Backlog(added, held)
    ensures var m := Updated(p, held).1;
      Backlog(added, m) && m.stage == held.stage && SameStart(m, held)
  {
    hide EncodePairs, EncodeChunks, StartBytes, Backlog, Ready;
    var (p1, m1) := HeaderPart(p, held);
    DrainHeaders(added, held);
    assert Backlog(added, m1);
    var (p2, m2) := EntityPart(p1, m1);
    DrainEntity(added, m1);
    assert Backlog(added, m2);
    DrainFooters(added, m2);
  }

  /** In a run whose message ends up safe to print it was safe all along. */
  lemma {:induction false} SafeThroughout(c: Channel, events: seq<Event>, c': Channel)
    requires Backlog(c.added, c.held) && Reaches(c, events, c') && Safe(c'.added)
    ensures Safe(c.added)
    decreases |events|
  {
    hide Safe, Updated, Fills;
    if events != [] {
      match events[0] {
        case Fill(d) => FillKeepsBacklog(c.added, c.held, d);
        case Look => UpdateDrains(c.added, c.held, c.printer);
        case Send(n) =>
      }
      SafeThroughout(Next(c, events[0]), events[1..], c');
      if events[0].Fill? {
        UrlStays(c.added, c.held, events[0].d);
        SafeBefore(c.added, events[0].d);
      }
    }
  }

  lemma UrlStays(added: Msg, held: Msg, d: Msg)
    requires Backlog(added, held) && Fills(held, d)
    ensures added.url != [] ==> d.url == added.url
  {
    hide Suffix;
  }

  lemma {:induction false} RunSound(c: Channel, events: seq<Event>, c': Channel)
    requires Sound(c) && Reaches(c, events, c') && Safe(c'.added)
    ensures Sound(c') && c'.added.isRequest == c.added.isRequest
    ensures c.sent <= c'.sent
    decreases |events|
  {
    hide Faithful, Safe, Updated, Fills;
    if events != [] {
      HasBacklog(c);
      SafeThroughout(c, events, c');
      match events[0] {
        case Fill(d) =>
          FillFaithful(c.added, c.held, c.printer, c.sent, d);
          FillSameKind(c.held, d);
          SameLevel(c);
        case Look => UpdateFaithful(c.added, c.held, c.printer, c.sent);
        case Send(n) => SendFaithful(c.added, c.held, c.printer, c.sent, n);
      }
      RunSound(Next(c, events[0]), events[1..], c');
    }
  }

  lemma HasBacklog(c: Channel)
    requires Sound(c)
    ensures Backlog(c.added, c.held)
  {}

  /** However a message is filled, drained and sent, once it is complete and the printer has
      looked once more, the bytes sent and still to be sent parse to exactly that message, and
      no shorter prefix of them ends a message. */
  lemma PrintedDecodes(isRequest: bool, events: seq<Event>, c: Channel)
    requires Reaches(Opened(isRequest), events + [Look], c)
    requires c.added.stage == DONE && Ready(c.added) && Safe(c.added)
    ensures var emitted := c.sent + c.printer.data;
      && Run(Initial(isRequest), emitted) == Gny(Done, Decoded(c.added))
      && forall k :: 0 <= k < |emitted| ==> !Stopped(Run(Initial(isRequest), emitted[..k]))
    ensures Sent(c.held)
  {
    hide Run, Updated, Faithful, Ready, Decoded;
    var c0 := SplitRun(Opened(isRequest), events, [Look], c);
    assert Reaches(Next(c0, Look), [Look][1..], c);
    OpenedSound(isRequest);
    RunSound(Opened(isRequest), events, c0);
    UpdateFaithful(c0.added, c0.held, c0.printer, c0.sent);
    UpdateLevels(c0.added, c0.held, c0.printer, c0.sent);
    SameLevel(c0);
    SameLevel(c);
    AllDecoded(c);
    CompleteOnlyAtEnd(c);
  }

  lemma OpenedSound(isRequest: bool)
    ensures Sound(Opened(isRequest))
  {}

  lemma SameLevel(c: Channel)
    requires Faithful(c.added, c.held, c.printer, c.sent)
    ensures c.held.isRequest == c.added.isRequest && c.held.stage == c.added.stage
    ensures Ready(c.held) == Ready(c.added)
  {
    hide Run, Decoded;
  }

  lemma AllDecoded(c: Channel)
    requires Faithful(c.added, c.held, c.printer, c.sent) && c.printer.init
    requires c.printer.stage == c.held.stage == c.added.stage == DONE && Emptied(c.held)
    ensures Run(Initial(c.added.isRequest), c.sent + c.printer.data) == Gny(Done, Decoded(c.added))
    ensures Sent(c.held)
  {
    hide Run, Decoded, Initial, Taken, Backlog;
    SameLevel(c);
    AllTaken(c.added, c.held);
  }

  lemma CompleteOnlyAtEnd(c: Channel)
    requires Sound(c) && c.printer.stage == DONE
    ensures var emitted := c.sent + c.printer.data;
      forall k :: 0 <= k < |emitted| ==> !Stopped(Run(Initial(c.held.isRequest), emitted[..k]))
  {
    var emitted := c.sent + c.printer.data;
    var g := Initial(c.held.isRequest);
    forall k | 0 <= k < |emitted| ensures !Stopped(Run(g, emitted[..k])) {
      var most := emitted[..|emitted|-1];
      assert most == emitted[..k] + most[k..];
      RunAppend(g, emitted[..k], most[k..]);
      if Stopped(Run(g, emitted[..k])) {
        RunStopped(Run(g, emitted[..k]), most[k..]);
      }
    }
  }

  lemma {:induction false} RunExtended(c: Channel, events: seq<Event>, c': Channel, e: Event)
    requires Reaches(c, events, c') && Enabled(c', e)
    ensures Reaches(c, events + [e], Next(c', e))
    decreases |events|
  {
    hide Enabled, Next;
    if events == [] {
      assert [e][1..] == [];
      assert Reaches(Next(c, e), [e][1..], Next(c', e));
      assert events + [e] == [e];
    } else {
      assert (events + [e])[1..] == events[1..] + [e];
      RunExtended(Next(c, events[0]), events[1..], c', e);
    }
  }

  lemma {:induction false} SplitRun(c: Channel, a: seq<Event>, b: seq<Event>, c': Channel)
    returns (mid: Channel)
    requires Reaches(c, a + b, c')
    ensures Reaches(c, a, mid) && Reaches(mid, b, c')
    decreases |a|
  {
    if a == [] {
      assert a + b == b;
      mid := c;
    } else {
      assert (a + b)[1..] == a[1..] + b;
      mid := SplitRun(Next(c, a[0]), a[1..], b, c');
    }
  }

  /** The printer has printed something exactly if it has begun, and begins only when it may. */
  predicate Begins(c: Channel) {
    && (!c.printer.init ==> c.printer == FRESH && c.sent == [])
    && (c.printer.init ==> Ready(c.held) && c.sent + c.printer.data != [])
  }

  lemma StepBegins(c: Channel, e: Event)
    requires Begins(c) && Enabled(c, e)
    ensures Begins(Next(c, e))
    ensures e.Look? ==> (Next(c, e).printer.init <==> Ready(Next(c, e).held))
  {
    hide Updated;
    match e
    case Fill(d) =>
    case Look => LookBegins(c.printer, c.held, c.sent);
    case Send(n) =>
      assert c.sent + c.printer.data[..n] + c.printer.data[n..] == c.sent + c.printer.data;
  }

  lemma LookBegins(p: Printer, m: Msg, sent: Bytes)
    requires p.init ==> Ready(m) && sent + p.data != []
    requires !p.init ==> p == FRESH && sent == []
    ensures var (p', m') := Updated(p, m);
      && (p'.init <==> Ready(m')) && (p'.init ==> sent + p'.data != [])
      && (!p'.init ==> p' == FRESH) && (p.init ==> p'.init)
  {
    hide EncodePairs, EncodeChunks, StartBytes;
    var (p1, m1) := HeaderPart(p, m);
    StartNotEmpty(m);
    assert |p1.data| >= |p.data| && (p1.init && !p.init ==> |p1.data| > 0);
    var (p2, m2) := EntityPart(p1, m1);
    assert |p2.data| >= |p1.data|;
    var (p3, m3) := FooterPart(p2, m2);
    assert |p3.data| >= |p2.data|;
  }

  lemma StartNotEmpty(m: Msg)
    ensures StartBytes(m) != []
  {}

  lemma {:induction false} RunBegins(c: Channel, events: seq<Event>, c': Channel)
    requires Begins(c) && Reaches(c, events, c')
    ensures Begins(c')
    decreases |events|
  {
    hide Begins, Enabled, Next;
    if events != [] {
      StepBegins(c, events[0]);
      RunBegins(Next(c, events[0]), events[1..], c');
    }
  }

  /** A request leaves the printer if and only if it has a URL and its verb is in the table, and a
      response unless its status is 65535 modulo 65536; any other never sends a byte, in any run. */
  lemma SilentUnlessReady(isRequest: bool, events: seq<Event>, c: Channel)
    requires Reaches(Opened(isRequest), events + [Look], c)
    ensures c.sent + c.printer.data != [] <==>
      if c.held.isRequest then c.held.url != [] && c.held.verb != Http.VERB_UNKNOWN
      else c.held.status % 0x1_0000 != 0xFFFF
  {
    hide Next;
    var c0 := SplitRun(Opened(isRequest), events, [Look], c);
    RunBegins(Opened(isRequest), events, c0);
    StepBegins(c0, Look);
    assert Reaches(Next(c0, Look), [Look][1..], c);
  }

  /** The statuses that survive are 0 to 65534, and no others. */
  lemma StatusSurvivesIff(m: Msg)
    requires !m.isRequest
    ensures Ready(m) && Decoded(m).status == m.status <==> 0 <= m.status <= 65534
  {}

  // ----- the class -----

  lemma ChunkStep(before: Bytes, rest: Bytes, sz: nat)
    requires rest != [] && sz == Sockets.Min(|rest|, CHUNK_MAX)
    ensures before + Common.WriteShort(sz) + rest[..sz] + EncodeChunks(rest[sz..])
         == before + EncodeChunks(rest)
  {
    var size, rest' := Common.WriteShort(sz), EncodeChunks(rest[sz..]);
    Regroup(before + size, rest[..sz], rest');
    Regroup(before, size, rest[..sz] + rest');
    Regroup(size, rest[..sz], rest');
  }

  lemma NoChunks(before: Bytes)
    ensures before + EncodeChunks([]) == before
  {}

  class MessageSinkGny {
    const msg: HttpMessage
    var writeState: Stage
    var dataStream: Bytes
    var init: bool

    // everything handed to the socket so far
    ghost var sent: Bytes

    constructor (message: HttpMessage)
      requires message.Valid() && message.Contents() == message.added
      ensures msg == message && Fields() == FRESH && sent == []
      ensures Valid() && Decodes()
    {
      msg := message;
      writeState := HEADER;
      dataStream := [];
      init := false;
      sent := [];
    }

    function Fields(): (p: Printer)
      reads this
    {
      Printer(writeState, init, dataStream)
    }

    ghost predicate Valid()
      reads this, msg
    {
      msg.Valid() && writeState.AtMost(msg.state)
    }

    /** What has been printed decodes to what has been drained. */
    ghost predicate Decodes()
      reads this, msg
    {
      Faithful(msg.added, msg.Contents(), Fields(), sent)
    }

    method AddKeyValuePair(key: Bytes, value: Bytes)
      modifies this`dataStream
      ensures dataStream == old(dataStream) + EncodePair(KeyValue(key, value))
    {
      hide Http.AToHeader;
      var redKey := Http.AToHeader(key);
      dataStream := dataStream + [Byte(redKey)];
      if redKey == Http.HEADER_UNKNOWN {
        dataStream := dataStream + Common.WriteString(key);
      }
      dataStream := dataStream + Common.WriteString(value);
    }

    method AddPairs(kvs: seq<KeyValue>)
      modifies this`dataStream
      ensures dataStream == old(dataStream) + EncodePairs(kvs)
    {
      hide Http.AToHeader, EncodePair;
      var i := 0;
      while i < |kvs|
        invariant 0 <= i <= |kvs|
        invariant dataStream + EncodePairs(kvs[i..]) == old(dataStream) + EncodePairs(kvs)
      {
        assert kvs[i..][1..] == kvs[i+1..];
        assert EncodePairs(kvs[i..]) == EncodePair(kvs[i]) + EncodePairs(kvs[i+1..]);
        ghost var before := dataStream;
        AddKeyValuePair(kvs[i].key, kvs[i].value);
        assert before + (EncodePair(kvs[i]) + EncodePairs(kvs[i+1..]))
            == dataStream + EncodePairs(kvs[i+1..]);
        i := i + 1;
      }
      assert kvs[|kvs|..] == [];
    }

    method AddChunks(moreEntity: Bytes)
      modifies this`dataStream
      ensures dataStream == old(dataStream) + EncodeChunks(moreEntity)
    {
      hide EncodeChunks, Common.WriteShort;
      var i := 0;
      assert moreEntity[0..] == moreEntity;
      while i < |moreEntity|
        invariant 0 <= i <= |moreEntity|
        invariant dataStream + EncodeChunks(moreEntity[i..]) == old(dataStream) + EncodeChunks(moreEntity)
      {
        var sz := Sockets.Min(|moreEntity| - i, CHUNK_MAX);
        ghost var before := dataStream;
        dataStream := dataStream + Common.WriteShort(sz);
        dataStream := dataStream + moreEntity[i..i+sz];
        ChunkStep(before, moreEntity[i..], sz);
        assert moreEntity[i..][..sz] == moreEntity[i..i+sz];
        assert moreEntity[i..][sz..] == moreEntity[i+sz..];
        i := i + sz;
      }
      assert moreEntity[|moreEntity|..] == [];
      NoChunks(dataStream);
    }

    method CheckForUpdate()
      requires Valid()
      modifies this, msg
      ensures Valid() && msg.added == old(msg.added) && sent == old(sent)
      ensures (Fields(), msg.Contents()) == Updated(old(Fields()), old(msg.Contents()))
      ensures old(Decodes()) && Safe(msg.added) ==> Decodes()
    {
      hide HeaderPart, EntityPart, FooterPart, Faithful, Safe, Backlog;
      if Decodes() && Safe(msg.added) {
        UpdateFaithful(msg.added, msg.Contents(), Fields(), sent);
      }
      CheckHeaders();
      CheckEntity();
      CheckFooters();
    }

    method CheckHeaders()
      requires Valid()
      modifies this, msg
      ensures Valid() && msg.added == old(msg.added) && sent == old(sent)
      ensures (Fields(), msg.Contents()) == HeaderPart(old(Fields()), old(msg.Contents()))
    {
      hide Http.AToHeader, EncodePairs, Common.WriteShort, Backlog;
      ghost var m := msg.Contents();
      ghost var start := if init then [] else StartBytes(m);
      if writeState == HEADER {
        if !init {
          if msg.isRequest {
            if msg.url == [] || msg.verb == Http.VERB_UNKNOWN {
              return;
            }
            dataStream := dataStream + [Byte(msg.verb % 256)];
            dataStream := dataStream + Common.WriteString(msg.url);
          } else {
            if msg.status % 0x1_0000 == 0xFFFF {
              return;
            }
            dataStream := dataStream + Common.WriteShort(msg.status);
          }
          init := true;
        }
        assert dataStream == old(dataStream) + start;
        var headerVector := msg.GetHeaders();
        AddPairs(headerVector);
        if msg.state != HEADER {
          dataStream := dataStream + [Byte(Http.HEADER_END)];
          writeState := ENTITY;
        }
      }
    }

    method CheckEntity()
      requires Valid()
      modifies this, msg
      ensures Valid() && msg.added == old(msg.added) && sent == old(sent)
      ensures (Fields(), msg.Contents()) == EntityPart(old(Fields()), old(msg.Contents()))
    {
      hide EncodeChunks, Common.WriteShort, Backlog;
      if writeState == ENTITY {
        var moreEntity := msg.GetEntity();
        AddChunks(moreEntity);
        if msg.state != ENTITY {
          writeState := FOOTER;
          dataStream := dataStream + Common.WriteShort(0);
        }
      }
    }

    method CheckFooters()
      requires Valid()
      modifies this, msg
      ensures Valid() && msg.added == old(msg.added) && sent == old(sent)
      ensures (Fields(), msg.Contents()) == FooterPart(old(Fields()), old(msg.Contents()))
    {
      hide EncodePairs, Backlog;
      if writeState == FOOTER {
        var footerVector := msg.GetFooters();
        AddPairs(footerVector);
        if msg.state != FOOTER {
          dataStream := dataStream + [Byte(Http.HEADER_END)];
          writeState := DONE;
        }
      }
    }

    method GetWriteSize() returns (n: nat)
      requires Valid()
      modifies this, msg
      ensures Valid() && msg.added == old(msg.added) && sent == old(sent)
      ensures (Fields(), msg.Contents()) == Updated(old(Fields()), old(msg.Contents()))
      ensures old(Decodes()) && Safe(msg.added) ==> Decodes()
      ensures n == |dataStream|
    {
      CheckForUpdate();
      n := |dataStream|;
    }

    method Write(socket: Sockets.Socket, maxWrite: nat) returns (amountSent: nat)
      requires Valid()
      modifies this, msg, socket
      ensures Valid() && msg.added == old(msg.added)
      ensures old(Decodes()) && Safe(msg.added) ==> Decodes()
      ensures var (p, m) := Updated(old(Fields()), old(msg.Contents()));
        && amountSent <= |p.data| && amountSent <= maxWrite
        && Fields() == p.(data := p.data[amountSent..]) && msg.Contents() == m
        && sent == old(sent) + p.data[..amountSent]
        && socket.outgoing == old(socket.outgoing) + p.data[..amountSent]
        && socket.incoming == old(socket.incoming)
    {
      hide Updated, Faithful, Safe, Backlog;
      var size := GetWriteSize();
      var toWrite := Sockets.Min(size, maxWrite);
      assert socket.outgoing == old(socket.outgoing);
      ghost var p := Fields();
      amountSent := socket.Send(dataStream[..toWrite]);
      assert dataStream[..toWrite][..amountSent] == dataStream[..amountSent];
      sent := sent + dataStream[..amountSent];
      if amountSent > 0 {
        dataStream := dataStream[amountSent..];
      }
      if old(Decodes()) && Safe(msg.added) {
        SendFaithful(msg.added, msg.Contents(), p, old(sent), amountSent);
      }
    }
  }
}
