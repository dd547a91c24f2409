/** The two formats side by side: a printer and a reader of either, what is true of both, and what
    a reader of one format makes of a message. Only the GNY reader minds how a stream is cut. */
module Codecs {
  import opened Octets
  import opened Messages
  import Common
  import G = GnyFormat
  import GnySink
  import GnySource
  import H = Http11Format
  import Http
  import Http11Sink
  import Http11Source
  import Sockets

  datatype Codec = GNY | HTTP11

  // ----- printers -----

  datatype Printer = GnyPrinter(gny: GnySink.Printer) | Http11Printer(http11: Http11Sink.Printer) {
    function Codec(): (c: Codec) {
      if GnyPrinter? then GNY else HTTP11
    }

    /** What is printed and has not been sent. */
    function Data(): (b: Bytes) {
      if GnyPrinter? then gny.data else http11.data
    }

    function Stage(): (s: Stage) {
      if GnyPrinter? then gny.stage else http11.stage
    }
  }

  /** The printer once n bytes have been sent. */
  function Dropped(p: Printer, n: nat): (p': Printer)
    requires n <= |p.Data()|
    ensures p'.Codec() == p.Codec() && p'.Data() == p.Data()[n..] && p'.Stage() == p.Stage()
  {
    match p
    case GnyPrinter(gny) => GnyPrinter(gny.(data := gny.data[n..]))
    case Http11Printer(http11) => Http11Printer(http11.(data := http11.data[n..]))
  }

  function NewPrinter(codec: Codec): (p: Printer)
    ensures p.Codec() == codec && p.Data() == []
  {
    match codec
    case GNY => GnyPrinter(GnySink.FRESH)
    case HTTP11 => Http11Printer(Http11Sink.FRESH)
  }

  /** Printer and message after the printer has looked for more to print. */
  function Updated(p: Printer, m: Msg): (r: (Printer, Msg))
    ensures r.0.Codec() == p.Codec()
  {
    match p
    case GnyPrinter(gny) =>
      var (p', m') := GnySink.Updated(gny, m);
      (GnyPrinter(p'), m')
    case Http11Printer(http11) =>
      var (p', m') := Http11Sink.Updated(http11, m);
      (Http11Printer(p'), m')
  }

  /** The condition under which a printer of the format starts. */
  predicate Ready(codec: Codec, m: Msg) {
    if codec == GNY then GnySink.Ready(m) else StartKnown(m)
  }

  /** The messages that the format can carry. */
  predicate Safe(codec: Codec, m: Msg) {
    if codec == GNY then GnySink.Safe(m) else Http11Sink.Safe(m)
  }

  /** The message that a reader recovers. */
  function Understood(codec: Codec, m: Msg): (r: Msg) {
    if codec == GNY then GnySink.Decoded(m) else Http11Sink.ReadBack(m)
  }

  /** What has been printed means what has been drained. */
  predicate Faithful(added: Msg, held: Msg, p: Printer, sent: Bytes) {
    match p
    case GnyPrinter(gny) => GnySink.Faithful(added, held, gny, sent)
    case Http11Printer(http11) => Http11Sink.Faithful(added, held, http11, sent)
  }

  // ----- readers -----

  datatype Reader = GnyReader(gny: GnySource.Reader) | Http11Reader(p: H.Parser) {
    function Codec(): (c: Codec) {
      if GnyReader? then GNY else HTTP11
    }

    function Message(): (m: Msg) {
      if GnyReader? then gny.g.msg else p.msg
    }

    predicate Stopped() {
      if GnyReader? then G.Stopped(gny.g) else H.Stopped(p)
    }

    /** The reader has come to the end of its message. */
    predicate Finished() {
      if GnyReader? then gny.g.phase.Done? else p.phase.Done?
    }

    /** The meaning of the input is not defined, or the reader has looked beyond its buffer. */
    predicate Lost() {
      GnyReader? && gny.g.phase.Undefined?
    }

    /** What holds of a reader at any time. */
    predicate Proper() {
      if GnyReader? then G.Proper(gny.g) else Http11Source.Proper(p)
    }
  }

  function NewReader(codec: Codec, isRequest: bool): (r: Reader)
    ensures r.Codec() == codec && r.Message() == Blank(isRequest)
  {
    match codec
    case GNY => GnyReader(GnySource.Reader(G.Initial(isRequest), 0))
    case HTTP11 => Http11Reader(H.Initial(isRequest))
  }

  /** What the one-byte parser makes of these bytes. */
  function Fed(r: Reader, bs: Bytes): (r': Reader)
    ensures r'.Codec() == r.Codec()
  {
    match r
    case GnyReader(gny) => GnyReader(GnySource.Reader(G.Run(gny.g, bs), 0))
    case Http11Reader(p) => Http11Reader(H.Run(p, bs))
  }

  /** The read cuts a value that it began, so that the value will not come out right; a read of an
      HTTP/1.1 reader never does. */
  predicate CutsValue(r: Reader, chunk: Bytes) {
    r.GnyReader? && GnySource.CutsFreshValue(r.gny.g, chunk)
  }

  /** One call of `read` that sees the chunk: the new state and the bytes consumed. */
  function AfterRead(r: Reader, chunk: Bytes): (res: (Reader, nat))
    ensures res.1 <= |chunk| && res.0.Codec() == r.Codec()
  {
    match r
    case GnyReader(gny) =>
      var (r', n) := GnySource.AfterRead(gny, chunk);
      (GnyReader(r'), n)
    case Http11Reader(p) => (Http11Reader(H.Run(p, chunk)), Http11Source.Need(p, chunk))
  }

  /** The same message; in GNY the values of its fields may differ. */
  predicate Alike(codec: Codec, a: Msg, b: Msg) {
    if codec == GNY then GnySource.SameShape(a, b) else a == b
  }

  /** Two readers at the same place of a message. */
  predicate SamePlace(a: Reader, b: Reader) {
    match a
    case GnyReader(gny) => b.GnyReader? && GnySource.SamePlace(gny.g, b.gny.g)
    case Http11Reader(_) => a == b
  }

  /** The bytes of `message` end a message, and no shorter prefix of them does. */
  ghost predicate Complete(r: Reader, message: Bytes) {
    && Fed(r, message).Finished()
    && forall k :: 0 <= k < |message| ==> !Fed(r, message[..k]).Stopped()
  }

  // ----- what a message is sent as -----

  /** A message that is ready went out whole; one that never was went out as nothing at all. */
  ghost predicate SentAs(codec: Codec, msg: Msg, bytes: Bytes) {
    if Ready(codec, msg) then
      && Fed(NewReader(codec, msg.isRequest), bytes).Message() == Understood(codec, msg)
      && Complete(NewReader(codec, msg.isRequest), bytes)
    else bytes == []
  }

  /** Looking only drains. */
  lemma UpdateDrains(added: Msg, held: Msg, p: Printer)
    requires Backlog(added, held)
    ensures var m := Updated(p, held).1;
      Backlog(added, m) && m.stage == held.stage && SameStart(m, held)
  {
    hide GnySink.Updated, Http11Sink.Updated, Backlog;
    match p
    case GnyPrinter(gny) => GnySink.UpdateDrains(added, held, gny);
    case Http11Printer(http11) => Http11Sink.UpdateDrains(added, held, http11);
  }

  /** After a look a complete message that is ready has left its mailbox, and the printer has come
      to the end of it. */
  lemma UpdateEnds(added: Msg, held: Msg, p: Printer, sent: Bytes)
    requires Faithful(added, held, p, sent) && Ready(p.Codec(), added) && added.stage == DONE
    ensures var (p', held') := Updated(p, held); Sent(held') && p'.Stage() == DONE
  {
    hide GnySink.Updated, Http11Sink.Updated, GnySink.Faithful, Http11Sink.Faithful, GnySink.Ready, StartKnown;
    match p
    case GnyPrinter(gny) =>
      GnySink.SameLevel(GnySink.Channel(added, held, gny, sent));
      GnySink.UpdateLevels(added, held, gny, sent);
    case Http11Printer(http11) =>
      Http11Sink.SameLevel(added, held, http11, sent);
      Http11Sink.UpdateLevels(added, held, http11, sent);
  }

  /** A look leaves nothing that could be printed by now. */
  lemma LookEmpties(added: Msg, held: Msg, p: Printer, sent: Bytes)
    requires AtWork(added, held, p, sent) && Safe(p.Codec(), added) && Ready(p.Codec(), added)
    ensures Emptied(Updated(p, held).1)
  {
    hide GnySink.Updated, Http11Sink.Updated, GnySink.Faithful, Http11Sink.Faithful, GnySink.Ready, StartKnown;
    hide AtWork, Emptied, Safe;
    AtWorkFaithful(added, held, p, sent);
    match p
    case GnyPrinter(gny) =>
      GnySink.SameLevel(GnySink.Channel(added, held, gny, sent));
      GnySink.UpdateLevels(added, held, gny, sent);
    case Http11Printer(http11) =>
      Http11Sink.SameLevel(added, held, http11, sent);
      Http11Sink.UpdateLevels(added, held, http11, sent);
  }

  /** A printer whose message is not ready has printed nothing and does not begin. */
  lemma UnreadyIsSilent(added: Msg, held: Msg, p: Printer, sent: Bytes)
    requires Faithful(added, held, p, sent) && !Ready(p.Codec(), added)
    ensures Updated(p, held) == (p, held) && p.Data() == [] && sent == []
  {
    hide GnySink.Updated, Http11Sink.Updated, GnySink.Ready, StartKnown;
    match p
    case GnyPrinter(gny) =>
      GnySink.SameLevel(GnySink.Channel(added, held, gny, sent));
      GnySink.UpdateLevels(added, held, gny, sent);
      GnySilent(added, held, gny, sent);
    case Http11Printer(http11) =>
      Http11Sink.SameLevel(added, held, http11, sent);
      Http11Sink.UpdateLevels(added, held, http11, sent);
      Http11Silent(added, held, http11, sent);
  }

  lemma GnySilent(added: Msg, held: Msg, p: GnySink.Printer, sent: Bytes)
    requires GnySink.Faithful(added, held, p, sent) && !GnySink.Ready(held)
    ensures p.data == [] && sent == []
  {
    hide G.Run, Backlog, Taken, GnySink.Ready, GnySink.Decoded;
    assert |sent + p.data| == |sent| + |p.data|;
  }

  lemma Http11Silent(added: Msg, held: Msg, p: Http11Sink.Printer, sent: Bytes)
    requires Http11Sink.Faithful(added, held, p, sent) && !StartKnown(held)
    ensures p.data == [] && sent == []
  {
    hide Http11Sink.Tells, Backlog, Taken;
  }

  /** A printer at the end of its message prints nothing more. */
  lemma EndedIsIdle(p: Printer, m: Msg)
    requires p.Stage() == DONE
    ensures Updated(p, m) == (p, m)
  {}

  /** When the printer has nothing left to send after a look and its message has left the mailbox,
      the message has gone out. */
  lemma LookSends(added: Msg, held: Msg, p: Printer, sent: Bytes)
    requires Faithful(added, held, p, sent) && Safe(p.Codec(), added)
    ensures var (p', held') := Updated(p, held);
      p'.Data() == [] && Sent(held') ==> SentAs(p.Codec(), added, sent)
  {
    hide GnySink.Updated, Http11Sink.Updated, GnySink.Faithful, Http11Sink.Faithful, SentAs;
    hide GnySink.Safe, Http11Sink.Safe;
    match p
    case GnyPrinter(gny) => GnyLookSends(added, held, gny, sent);
    case Http11Printer(http11) => Http11LookSends(added, held, http11, sent);
  }

  lemma GnyLookSends(added: Msg, held: Msg, p: GnySink.Printer, sent: Bytes)
    requires GnySink.Faithful(added, held, p, sent) && GnySink.Safe(added)
    ensures var (p', held') := GnySink.Updated(p, held);
      p'.data == [] && Sent(held') ==> SentAs(GNY, added, sent)
  {
    hide GnySink.Updated, GnySink.Faithful, GnySink.Ready, GnySink.Safe, SentAs;
    var (p', held') := GnySink.Updated(p, held);
    GnySink.UpdateFaithful(added, held, p, sent);
    GnySink.UpdateLevels(added, held, p, sent);
    GnySink.SameLevel(GnySink.Channel(added, held, p, sent));
    if p'.data == [] && Sent(held') {
      GnySent(GnySink.Channel(added, held', p', sent));
    }
  }

  lemma GnySent(c: GnySink.Channel)
    requires GnySink.Faithful(c.added, c.held, c.printer, c.sent)
    requires c.printer.data == [] && Sent(c.held)
    requires c.printer.init <==> GnySink.Ready(c.added)
    requires c.printer.init ==> c.printer.stage == c.held.stage
    ensures SentAs(GNY, c.added, c.sent)
  {
    hide G.Run, GnySink.Decoded, G.Initial, Taken, Backlog, Understood;
    assert c.sent + [] == c.sent;
    GnySink.SameLevel(c);
    if c.printer.init {
      GnySink.AllDecoded(c);
      GnySink.CompleteOnlyAtEnd(c);
      assert Understood(GNY, c.added) == GnySink.Decoded(c.added) by { UnderstoodIs(c.added); }
    }
  }

  lemma UnderstoodIs(m: Msg)
    ensures Understood(GNY, m) == GnySink.Decoded(m)
    ensures Understood(HTTP11, m) == Http11Sink.ReadBack(m)
  {
    hide GnySink.Decoded, Http11Sink.ReadBack;
  }

  lemma Http11LookSends(added: Msg, held: Msg, p: Http11Sink.Printer, sent: Bytes)
    requires Http11Sink.Faithful(added, held, p, sent) && Http11Sink.Safe(added)
    ensures var (p', held') := Http11Sink.Updated(p, held);
      p'.data == [] && Sent(held') ==> SentAs(HTTP11, added, sent)
  {
    hide Http11Sink.Updated, Http11Sink.Faithful, StartKnown, Http11Sink.Safe, SentAs;
    var (p', held') := Http11Sink.Updated(p, held);
    Http11Sink.UpdateFaithful(added, held, p, sent);
    Http11Sink.UpdateLevels(added, held, p, sent);
    Http11Sink.SameLevel(added, held, p, sent);
    if p'.data == [] && Sent(held') {
      Http11Sent(Http11Sink.Channel(added, held', p', sent));
    }
  }

  lemma Http11Sent(c: Http11Sink.Channel)
    requires Http11Sink.Faithful(c.added, c.held, c.printer, c.sent) && Http11Sink.Safe(c.added)
    requires c.printer.data == [] && Sent(c.held)
    requires c.printer.init <==> StartKnown(c.added)
    requires c.printer.init ==> c.printer.stage == c.held.stage
    ensures SentAs(HTTP11, c.added, c.sent)
  {
    hide H.Run, Http11Sink.ReadBack, H.Initial, Taken, Backlog, Http11Sink.Safe, Http11Sink.Tells, Understood;
    assert c.sent + [] == c.sent;
    Http11Sink.SameLevel(c.added, c.held, c.printer, c.sent);
    if c.printer.init {
      Http11Sink.AllTold(c);
      Http11Sink.CompleteParses(c.added, c.printer.mode, c.sent);
      UnderstoodIs(c.added);
    } else {
      assert c.sent == [];
    }
  }

  // ----- printers at work -----

  /** Some interleaving of filling, looking and sending has brought a new printer and its message
      here. */
  ghost predicate AtWork(added: Msg, held: Msg, p: Printer, sent: Bytes) {
    match p
    case GnyPrinter(gny) =>
      exists events ::
        GnySink.Reaches(GnySink.Opened(added.isRequest), events, GnySink.Channel(added, held, gny, sent))
    case Http11Printer(http11) =>
      exists events ::
        Http11Sink.Reaches(Http11Sink.Opened(added.isRequest), events, Http11Sink.Channel(added, held, http11, sent))
  }

  lemma NewAtWork(codec: Codec, m: Msg)
    requires Backlog(m, m)
    ensures AtWork(m, m, NewPrinter(codec), [])
  {
    var blank := Blank(m.isRequest);
    assert Fills(blank, m);
    assert [] + m.headers == m.headers && [] + m.entity == m.entity && [] + m.footers == m.footers;
    match codec
    case GNY =>
      var c := GnySink.Opened(m.isRequest);
      GnySink.RunExtended(c, [], c, GnySink.Fill(m));
    case HTTP11 =>
      var c := Http11Sink.Opened(m.isRequest);
      Http11Sink.RunExtended(c, [], c, Http11Sink.Fill(m));
  }

  lemma LookAtWork(added: Msg, held: Msg, p: Printer, sent: Bytes)
    requires AtWork(added, held, p, sent)
    ensures var (p', held') := Updated(p, held); AtWork(added, held', p', sent)
  {
    hide GnySink.Reaches, Http11Sink.Reaches, GnySink.Updated, Http11Sink.Updated;
    match p
    case GnyPrinter(gny) =>
      var c, o := GnySink.Channel(added, held, gny, sent), GnySink.Opened(added.isRequest);
      var events :| GnySink.Reaches(o, events, c);
      GnySink.RunExtended(o, events, c, GnySink.Look);
    case Http11Printer(http11) =>
      var c, o := Http11Sink.Channel(added, held, http11, sent), Http11Sink.Opened(added.isRequest);
      var events :| Http11Sink.Reaches(o, events, c);
      Http11Sink.RunExtended(o, events, c, Http11Sink.Look);
  }

  lemma FillAtWork(added: Msg, held: Msg, p: Printer, sent: Bytes, d: Msg)
    requires AtWork(added, held, p, sent) && Fills(held, d) && held.isRequest == added.isRequest
    ensures AtWork(Grown(added, d), Grown(held, d), p, sent)
  {
    hide GnySink.Reaches, Http11Sink.Reaches;
    FillSameKind(held, d);
    hide Fills;
    match p
    case GnyPrinter(gny) =>
      var c, o := GnySink.Channel(added, held, gny, sent), GnySink.Opened(added.isRequest);
      var events :| GnySink.Reaches(o, events, c);
      GnySink.RunExtended(o, events, c, GnySink.Fill(d));
    case Http11Printer(http11) =>
      var c, o := Http11Sink.Channel(added, held, http11, sent), Http11Sink.Opened(added.isRequest);
      var events :| Http11Sink.Reaches(o, events, c);
      Http11Sink.RunExtended(o, events, c, Http11Sink.Fill(d));
  }

  lemma SendAtWork(added: Msg, held: Msg, p: Printer, sent: Bytes, n: nat)
    requires AtWork(added, held, p, sent) && n <= |p.Data()|
    ensures AtWork(added, held, Dropped(p, n), sent + p.Data()[..n])
  {
    hide GnySink.Reaches, Http11Sink.Reaches;
    match p
    case GnyPrinter(gny) =>
      var c, o := GnySink.Channel(added, held, gny, sent), GnySink.Opened(added.isRequest);
      var events :| GnySink.Reaches(o, events, c);
      GnySink.RunExtended(o, events, c, GnySink.Send(n));
    case Http11Printer(http11) =>
      var c, o := Http11Sink.Channel(added, held, http11, sent), Http11Sink.Opened(added.isRequest);
      var events :| Http11Sink.Reaches(o, events, c);
      Http11Sink.RunExtended(o, events, c, Http11Sink.Send(n));
  }

  /** A printer at work is faithful, as long as its message is one that the format can carry. */
  lemma AtWorkFaithful(added: Msg, held: Msg, p: Printer, sent: Bytes)
    requires AtWork(added, held, p, sent) && Safe(p.Codec(), added)
    ensures Faithful(added, held, p, sent)
  {
    hide GnySink.Reaches, Http11Sink.Reaches, GnySink.Safe, Http11Sink.Safe, GnySink.Faithful, Http11Sink.Faithful;
    match p
    case GnyPrinter(gny) =>
      var c, o := GnySink.Channel(added, held, gny, sent), GnySink.Opened(added.isRequest);
      var events :| GnySink.Reaches(o, events, c);
      GnySink.OpenedSound(added.isRequest);
      GnySink.RunSound(o, events, c);
    case Http11Printer(http11) =>
      var c, o := Http11Sink.Channel(added, held, http11, sent), Http11Sink.Opened(added.isRequest);
      var events :| Http11Sink.Reaches(o, events, c);
      Http11Sink.OpenedSound(added.isRequest);
      Http11Sink.RunSound(o, events, c);
  }

  // ----- reading -----

  lemma FedAppend(r: Reader, a: Bytes, b: Bytes)
    ensures Fed(r, a + b) == Fed(Fed(r, a), b)
  {
    hide G.Run, H.Run;
    if r.GnyReader? {
      G.RunAppend(r.gny.g, a, b);
    } else {
      H.RunAppend(r.p, a, b);
    }
  }

  lemma FedNothing(codec: Codec, isRequest: bool)
    ensures Fed(NewReader(codec, isRequest), []) == NewReader(codec, isRequest)
  {
    hide G.Step, H.Step;
  }

  lemma FedProper(r: Reader, bs: Bytes)
    requires r.Proper()
    ensures Fed(r, bs).Proper()
  {
    hide G.Run, H.Run;
    if r.GnyReader? {
      G.RunProper(r.gny.g, bs);
    } else {
      Http11RunProper(r.p, bs);
    }
  }

  lemma {:induction false} Http11RunProper(p: H.Parser, bs: Bytes)
    requires Http11Source.Proper(p)
    ensures Http11Source.Proper(H.Run(p, bs))
    decreases |bs|
  {
    hide H.StartLine, H.HeaderLine, H.FooterLine;
    if bs != [] {
      Http11RunProper(H.Step(p, bs[0]), bs[1..]);
    }
  }

  lemma NewReaderProper(codec: Codec, isRequest: bool)
    ensures NewReader(codec, isRequest).Proper() && !NewReader(codec, isRequest).Stopped()
  {}

  lemma FinishedIsDone(r: Reader)
    requires r.Proper() && !r.Lost()
    ensures r.Finished() <==> r.Message().stage == DONE
    ensures r.Finished() <==> r.Stopped()
  {}

  /** Whatever a reader is given, it only adds to its message. */
  lemma FedExtends(r: Reader, bs: Bytes)
    requires r.Proper()
    ensures var m, m' := r.Message(), Fed(r, bs).Message();
      m.headers <= m'.headers && m.entity <= m'.entity && m.footers <= m'.footers
  {
    hide G.Run, H.Run;
    if r.GnyReader? {
      G.RunExtends(r.gny.g, bs);
    } else {
      Http11RunExtends(r.p, bs);
    }
  }

  lemma {:induction false} Http11RunExtends(p: H.Parser, bs: Bytes)
    ensures var m, m' := p.msg, H.Run(p, bs).msg;
      m.headers <= m'.headers && m.entity <= m'.entity && m.footers <= m'.footers
    decreases |bs|
  {
    hide H.Step;
    if bs != [] {
      Http11StepExtends(p, bs[0]);
      Http11RunExtends(H.Step(p, bs[0]), bs[1..]);
    }
  }

  lemma Http11StepExtends(p: H.Parser, ch: Octet)
    ensures var m, m' := p.msg, H.Step(p, ch).msg;
      m.headers <= m'.headers && m.entity <= m'.entity && m.footers <= m'.footers
  {
    hide Http.AToVerb, Common.Token, Common.UrlDecoded, Common.StrToLL, H.FindColon, H.Field, H.IsDropped;
    hide Common.IsHex, Common.ShiftOr, Common.HexToI, H.ParsedMode;
  }

  lemma AlreadyThere(r: Reader)
    ensures SamePlace(r, r)
  {}

  lemma SamePlaceMeans(a: Reader, b: Reader)
    requires SamePlace(a, b)
    ensures a.Codec() == b.Codec() && a.Stopped() == b.Stopped() && a.Finished() == b.Finished()
    ensures a.Lost() == b.Lost() && Alike(a.Codec(), a.Message(), b.Message())
    ensures var m, m' := a.Message(), b.Message();
      && m.stage == m'.stage && m.entity == m'.entity
      && |m.headers| == |m'.headers| && |m.footers| == |m'.footers|
  {}

  /** A read, wherever it is cut, goes as far as the one-byte parser and consumes the bytes up to the
      end of the message, if that is in the chunk; unless it gets lost. */
  lemma ReadFollows(r: Reader, parsed: Reader, chunk: Bytes)
    requires SamePlace(r, parsed)
    ensures var (r', n) := AfterRead(r, chunk);
      !r'.Lost() ==>
        && SamePlace(r', Fed(parsed, chunk)) && Fed(parsed, chunk) == Fed(parsed, chunk[..n])
        && (n < |chunk| ==> r'.Stopped())
        && (forall k :: 0 <= k < n ==> !Fed(parsed, chunk[..k]).Stopped())
  {
    hide G.Run, H.Run, G.Stopped, H.Step, GnySource.SameShape, GnySource.Scan;
    match r
    case GnyReader(gny) =>
      var g := parsed.gny.g;
      GnySource.ScanKeepsPlace(gny, g, chunk);
      var n := GnySource.Scan(gny, chunk).1;
      assert chunk[..|chunk|] == chunk;
      assert n < |chunk| ==> G.Stopped(G.Run(g, chunk[..n])) || GnySource.Scan(gny, chunk).0.g.phase.Undefined?;
      SameStop();
    case Http11Reader(p) =>
      Http11Source.NeedStops(p, chunk);
  }

  lemma SameStop()
    ensures forall a, b :: GnySource.SamePlace(a, b) ==> G.Stopped(a) == G.Stopped(b)
  {}

  /** A read in step with the one-byte parser stays in step with it if and only if it does not cut a
      value that it began. */
  lemma ReadExactIff(r: Reader, chunk: Bytes)
    requires r.Proper() && (r.GnyReader? ==> r.gny.skew == 0)
    ensures AfterRead(r, chunk).0 == Fed(r, chunk) <==> !CutsValue(r, chunk)
  {
    hide G.Run, H.Run, G.Proper, GnySource.CutsFreshValue, GnySource.AfterRead;
    if r.GnyReader? {
      GnySource.ReadAgreesIff(r.gny.g, chunk);
      assert r.gny == GnySource.Reader(r.gny.g, 0);
    }
  }

  // ----- several messages one after the other -----

  /** A fresh reader for each message, one after the other on the same stream. */
  function Sessions(codec: Codec, isRequest: bool, wire: Bytes, sizes: seq<seq<nat>>): (res: (seq<Msg>, Bytes)) {
    if codec == GNY then GnySource.Sessions(isRequest, wire, sizes)
    else Http11Source.Sessions(isRequest, wire, sizes)
  }

  /** The reads of each message together reach its end. */
  ghost predicate ReadsReach(messages: seq<Bytes>, sizes: seq<seq<nat>>)
    requires |messages| == |sizes|
  {
    forall i :: 0 <= i < |messages| ==> Sockets.Total(sizes[i]) >= |messages[i]|
  }

  /** No reader gets lost; in HTTP/1.1 none can. */
  predicate Intact(codec: Codec, isRequest: bool, wire: Bytes, sizes: seq<seq<nat>>) {
    codec == GNY ==> GnySource.NoneLost(isRequest, wire, sizes)
  }

  /** No read cuts a value that it began; in HTTP/1.1 none can. */
  ghost predicate CutClean(
    codec: Codec, isRequest: bool, messages: seq<Bytes>, sizes: seq<seq<nat>>, rest: Bytes)
    requires |messages| == |sizes|
  {
    codec == GNY ==> GnySource.AllClean(isRequest, messages, sizes, rest)
  }

  /** Successive fresh readers divide a stream into its messages, wherever it is cut: nothing is lost
      and nothing is read twice. The messages are as they were sent if no value is cut. */
  lemma SessionsRecoverAll(
    codec: Codec, isRequest: bool, messages: seq<Bytes>, sizes: seq<seq<nat>>, rest: Bytes)
    requires |messages| == |sizes| && ReadsReach(messages, sizes)
    requires forall i :: 0 <= i < |messages| ==> Complete(NewReader(codec, isRequest), messages[i])
    requires CutClean(codec, isRequest, messages, sizes, rest)
      || Intact(codec, isRequest, Sockets.Concat(messages) + rest, sizes)
    ensures var (ms, left) := Sessions(codec, isRequest, Sockets.Concat(messages) + rest, sizes);
      && left == rest
      && |ms| == |messages|
      && forall i :: 0 <= i < |ms| ==>
        var m := Fed(NewReader(codec, isRequest), messages[i]).Message();
        Alike(codec, ms[i], m) && (CutClean(codec, isRequest, messages, sizes, rest) ==> ms[i] == m)
  {
    hide G.Run, H.Run, G.Initial, H.Initial, GnySource.AllClean, Sockets.Total, Sockets.Concat, Complete;
    hide GnySource.Sessions, Http11Source.Sessions, Http11Source.Complete, GnySource.Complete, GnySource.NoneLost;
    if codec == GNY {
      GnySessions(isRequest, messages, sizes, rest);
    } else {
      forall i | 0 <= i < |messages| ensures Http11Source.Complete(H.Initial(isRequest), messages[i]) {
        Http11Complete(isRequest, messages[i]);
      }
      Http11Source.SessionsRecoverAll(isRequest, messages, sizes, rest);
    }
  }

  lemma GnySessions(isRequest: bool, messages: seq<Bytes>, sizes: seq<seq<nat>>, rest: Bytes)
    requires |messages| == |sizes| && ReadsReach(messages, sizes)
    requires forall i :: 0 <= i < |messages| ==> Complete(NewReader(GNY, isRequest), messages[i])
    requires GnySource.AllClean(isRequest, messages, sizes, rest)
      || GnySource.NoneLost(isRequest, Sockets.Concat(messages) + rest, sizes)
    ensures var (ms, left) := GnySource.Sessions(isRequest, Sockets.Concat(messages) + rest, sizes);
      && left == rest
      && |ms| == |messages|
      && forall i :: 0 <= i < |ms| ==>
        var m := G.Run(G.Initial(isRequest), messages[i]).msg;
        GnySource.SameShape(ms[i], m) && (GnySource.AllClean(isRequest, messages, sizes, rest) ==> ms[i] == m)
  {
    hide G.Run, G.Initial, GnySource.AllClean, Sockets.Total, Sockets.Concat, Complete;
    hide GnySource.Sessions, GnySource.Complete, GnySource.NoneLost;
    if GnySource.AllClean(isRequest, messages, sizes, rest) {
      GnySource.SessionsRecoverAll(isRequest, messages, sizes, rest);
    } else {
      forall i | 0 <= i < |messages| ensures GnySource.Complete(G.Initial(isRequest), messages[i]) {
        GnyComplete(isRequest, messages[i]);
      }
      GnySource.SessionsKeepPlace(isRequest, messages, sizes, rest);
    }
  }

  lemma GnyComplete(isRequest: bool, message: Bytes)
    requires Complete(NewReader(GNY, isRequest), message)
    ensures GnySource.Complete(G.Initial(isRequest), message)
  {
    hide G.Run, G.Initial;
    forall k | 0 <= k < |message| ensures !G.Stopped(G.Run(G.Initial(isRequest), message[..k])) {
      assert !Fed(NewReader(GNY, isRequest), message[..k]).Stopped();
    }
  }

  lemma Http11Complete(isRequest: bool, message: Bytes)
    requires Complete(NewReader(HTTP11, isRequest), message)
    ensures Http11Source.Complete(H.Initial(isRequest), message)
  {
    hide H.Run, H.Initial;
    forall k | 0 <= k < |message| ensures !H.Stopped(H.Run(H.Initial(isRequest), message[..k])) {
      assert !Fed(NewReader(HTTP11, isRequest), message[..k]).Stopped();
    }
  }

  /** A stream divides into complete messages in one way only. */
  lemma {:induction false} OneDivision(
    codec: Codec, isRequest: bool, a: seq<Bytes>, b: seq<Bytes>, stream: Bytes)
    requires forall k :: 0 <= k < |a| ==> Complete(NewReader(codec, isRequest), a[k])
    requires forall k :: 0 <= k < |b| ==> Complete(NewReader(codec, isRequest), b[k])
    requires Sockets.Concat(a) <= stream && Sockets.Concat(b) <= stream
    ensures forall k :: 0 <= k < |a| && k < |b| ==> a[k] == b[k]
    decreases |a|
  {
    hide Complete;
    if a != [] && b != [] {
      SameHead(NewReader(codec, isRequest), a[0], b[0], stream);
      OneDivision(codec, isRequest, a[1..], b[1..], stream[|a[0]|..]);
      assert forall k :: 0 < k < |a| && k < |b| ==> a[k] == a[1..][k-1] && b[k] == b[1..][k-1];
    }
  }

  lemma SameHead(r: Reader, x: Bytes, y: Bytes, stream: Bytes)
    requires Complete(r, x) && Complete(r, y) && x <= stream && y <= stream
    ensures x == y
  {
    hide G.Run, H.Run;
    var n := if |x| < |y| then |x| else |y|;
    assert x[..n] == y[..n];
    assert x[..|x|] == x && y[..|y|] == y;
  }

  // ----- messages some of which were never ready -----

  /** Which of the messages are ready, in order. */
  function ReadyAt(codec: Codec, ms: seq<Msg>): (at: seq<nat>)
    ensures |at| <= |ms|
    ensures forall j :: 0 <= j < |at| ==> at[j] < |ms| && Ready(codec, ms[at[j]])
    ensures forall i, j :: 0 <= i < j < |at| ==> at[i] < at[j]
    ensures forall k :: 0 <= k < |ms| && Ready(codec, ms[k]) ==> k in at
    decreases |ms|
  {
    if ms == [] then []
    else
      var n := |ms| - 1;
      ReadyAt(codec, ms[..n]) + (if Ready(codec, ms[n]) then [n] else [])
  }

  /** The k-th of these places is k, for each of n. */
  predicate InPlace(at: seq<nat>, n: nat) {
    |at| == n && forall k :: 0 <= k < n ==> at[k] == k
  }

  lemma {:induction false} AllReady(codec: Codec, ms: seq<Msg>)
    requires forall k :: 0 <= k < |ms| ==> Ready(codec, ms[k])
    ensures InPlace(ReadyAt(codec, ms), |ms|)
    decreases |ms|
  {
    hide Ready;
    if ms != [] {
      var most := ms[..|ms|-1];
      assert forall k :: 0 <= k < |most| ==> most[k] == ms[k];
      AllReady(codec, most);
    }
  }

  /** The k-th ready message is the k-th message, for every k, if and only if all are ready. */
  lemma AllReadyIff(codec: Codec, ms: seq<Msg>)
    ensures InPlace(ReadyAt(codec, ms), |ms|) <==> forall k :: 0 <= k < |ms| ==> Ready(codec, ms[k])
  {
    hide Ready;
    var at := ReadyAt(codec, ms);
    if forall k :: 0 <= k < |ms| ==> Ready(codec, ms[k]) {
      AllReady(codec, ms);
    }
    if InPlace(at, |ms|) {
      forall k | 0 <= k < |ms| ensures Ready(codec, ms[k]) {
        assert at[k] == k;
      }
    }
  }

  function Pick<T>(s: seq<T>, at: seq<nat>): (r: seq<T>)
    requires forall j :: 0 <= j < |at| ==> at[j] < |s|
    ensures |r| == |at| && forall j :: 0 <= j < |at| ==> r[j] == s[at[j]]
  {
    seq(|at|, j requires 0 <= j < |at| => s[at[j]])
  }

  /** Messages of one kind and the bytes that went out for each. */
  ghost predicate AllSentAs(codec: Codec, isRequest: bool, ms: seq<Msg>, sent: seq<Bytes>) {
    && |sent| == |ms|
    && forall k :: 0 <= k < |ms| ==> ms[k].isRequest == isRequest && SentAs(codec, ms[k], sent[k])
  }

  /** A piece of a stream that a reader takes for this message, and for no more. */
  ghost predicate Means(codec: Codec, isRequest: bool, piece: Bytes, m: Msg) {
    && Complete(NewReader(codec, isRequest), piece)
    && Fed(NewReader(codec, isRequest), piece).Message() == Understood(codec, m)
  }

  /** What went out is one whole message for each that was ready and nothing for the others. */
  lemma {:induction false} ReadyPieces(codec: Codec, isRequest: bool, ms: seq<Msg>, sent: seq<Bytes>)
    requires AllSentAs(codec, isRequest, ms, sent)
    ensures var at := ReadyAt(codec, ms);
      && Sockets.Concat(Pick(sent, at)) == Sockets.Concat(sent)
      && forall j :: 0 <= j < |at| ==> Means(codec, isRequest, sent[at[j]], ms[at[j]])
    decreases |ms|
  {
    hide Ready, SentAs, Means, Sockets.Concat;
    if ms != [] {
      var n := |ms| - 1;
      SentBefore(codec, isRequest, ms, sent);
      ReadyPieces(codec, isRequest, ms[..n], sent[..n]);
      hide AllSentAs;
      PickedPieces(codec, ms, sent);
      assert sent == sent[..n] + [sent[n]];
      Sockets.ConcatAppend(sent[..n], sent[n]);
      assert Sockets.Concat(sent[..n]) + [] == Sockets.Concat(sent[..n]);
    }
  }

  lemma SentBefore(codec: Codec, isRequest: bool, ms: seq<Msg>, sent: seq<Bytes>)
    requires AllSentAs(codec, isRequest, ms, sent) && ms != []
    ensures var n := |ms| - 1;
      && AllSentAs(codec, isRequest, ms[..n], sent[..n])
      && if Ready(codec, ms[n]) then Means(codec, isRequest, sent[n], ms[n]) else sent[n] == []
  {
    hide Ready, SentAs, Means;
    LastPiece(codec, isRequest, ms[|ms|-1], sent[|ms|-1]);
  }

  lemma PickedPieces(codec: Codec, ms: seq<Msg>, sent: seq<Bytes>)
    requires |sent| == |ms| > 0
    ensures var n := |ms| - 1;
      var most, at := ReadyAt(codec, ms[..n]), ReadyAt(codec, ms);
      && (forall j :: 0 <= j < |most| ==> at[j] == most[j])
      && Sockets.Concat(Pick(sent, at))
         == Sockets.Concat(Pick(sent[..n], most)) + (if Ready(codec, ms[n]) then sent[n] else [])
  {
    hide Ready, Sockets.Concat;
    var n := |ms| - 1;
    var most, at := ReadyAt(codec, ms[..n]), ReadyAt(codec, ms);
    assert at == if Ready(codec, ms[n]) then most + [n] else most;
    hide ReadyAt;
    PickedOf(sent, most);
    if Ready(codec, ms[n]) {
      assert Pick(sent, at) == Pick(sent, most) + [sent[n]];
      Sockets.ConcatAppend(Pick(sent, most), sent[n]);
    } else {
      assert Sockets.Concat(Pick(sent, most)) + [] == Sockets.Concat(Pick(sent, most));
    }
  }

  lemma PickedOf(sent: seq<Bytes>, at: seq<nat>)
    requires sent != [] && forall j :: 0 <= j < |at| ==> at[j] < |sent| - 1
    ensures Pick(sent[..|sent|-1], at) == Pick(sent, at)
  {}

  lemma LastPiece(codec: Codec, isRequest: bool, m: Msg, bytes: Bytes)
    requires m.isRequest == isRequest && SentAs(codec, m, bytes)
    ensures if Ready(codec, m) then Means(codec, isRequest, bytes, m) else bytes == []
  {
    hide Ready, Complete, Fed, Understood, NewReader;
  }

  /** The stream is one whole message for each of these, in order. */
  ghost predicate Spells(codec: Codec, isRequest: bool, ms: seq<Msg>, pieces: seq<Bytes>) {
    |pieces| == |ms| && forall k :: 0 <= k < |ms| ==> Means(codec, isRequest, pieces[k], ms[k])
  }

  /** What went out for a row of messages can be taken apart into one message for each of them if and
      only if all of them were ready; if one was not, a reader takes the next for it. */
  lemma InOrderIff(codec: Codec, isRequest: bool, ms: seq<Msg>, sent: seq<Bytes>)
    requires AllSentAs(codec, isRequest, ms, sent)
    ensures (exists pieces :: Spells(codec, isRequest, ms, pieces) && Sockets.Concat(pieces) == Sockets.Concat(sent))
      <==> forall k :: 0 <= k < |ms| ==> Ready(codec, ms[k])
  {
    hide Ready, Means, SentAs, Sockets.Concat;
    if forall k :: 0 <= k < |ms| ==> Ready(codec, ms[k]) {
      AllReady(codec, ms);
      ReadyPieces(codec, isRequest, ms, sent);
      assert Spells(codec, isRequest, ms, sent);
    }
    if pieces :| Spells(codec, isRequest, ms, pieces) && Sockets.Concat(pieces) == Sockets.Concat(sent) {
      SpelledIsReady(codec, isRequest, ms, sent, pieces);
    }
  }

  lemma SpelledIsReady(codec: Codec, isRequest: bool, ms: seq<Msg>, sent: seq<Bytes>, pieces: seq<Bytes>)
    requires AllSentAs(codec, isRequest, ms, sent) && Spells(codec, isRequest, ms, pieces)
    requires Sockets.Concat(pieces) == Sockets.Concat(sent)
    ensures forall k :: 0 <= k < |ms| ==> Ready(codec, ms[k])
  {
    hide Ready, SentAs, Sockets.Concat, Complete, Fed, NewReader, Understood;
    var at := ReadyAt(codec, ms);
    ReadyPieces(codec, isRequest, ms, sent);
    assert forall k :: 0 <= k < |pieces| ==> Means(codec, isRequest, pieces[k], ms[k]);
    SameNumber(codec, isRequest, pieces, Pick(sent, at));
    Increasing(at, |ms|);
    AllReadyIff(codec, ms);
  }

  lemma {:induction false} Increasing(at: seq<nat>, n: nat)
    requires |at| == n && forall j :: 0 <= j < n ==> at[j] < n
    requires forall i, j :: 0 <= i < j < n ==> at[i] < at[j]
    ensures InPlace(at, n)
    decreases n
  {
    if n > 0 {
      assert forall j :: 0 <= j < n - 1 ==> at[j] < at[n-1];
      Increasing(at[..n-1], n - 1);
      assert forall k :: 0 <= k < n - 1 ==> at[..n-1][k] == at[k];
      assert n > 1 ==> at[n-2] == n - 2;
    }
  }

  lemma NoneIsEmpty(codec: Codec, isRequest: bool)
    ensures !Complete(NewReader(codec, isRequest), [])
  {
    hide Fed;
    FedNothing(codec, isRequest);
    NewReaderProper(codec, isRequest);
    assert NewReader(codec, isRequest).Finished() ==> NewReader(codec, isRequest).Stopped();
  }

  lemma NothingIsNone(codec: Codec, isRequest: bool, a: seq<Bytes>)
    requires forall k :: 0 <= k < |a| ==> Complete(NewReader(codec, isRequest), a[k])
    requires Sockets.Concat(a) == []
    ensures a == []
  {
    hide Complete, NewReader;
    NoneIsEmpty(codec, isRequest);
  }

  /** If one division of a stream into complete messages begins like another, it is the same. */
  lemma NothingBehind(codec: Codec, isRequest: bool, a: seq<Bytes>, b: seq<Bytes>)
    requires forall k :: 0 <= k < |b| ==> Complete(NewReader(codec, isRequest), b[k])
    requires Sockets.Concat(a) == Sockets.Concat(b)
    requires |a| <= |b| && forall k :: 0 <= k < |a| ==> a[k] == b[k]
    ensures |a| == |b|
  {
    hide Complete, NewReader, Sockets.Concat;
    var rest := b[|a|..];
    assert b == a + rest;
    Sockets.ConcatJoin(a, rest);
    assert |Sockets.Concat(rest)| == 0;
    NothingIsNone(codec, isRequest, rest);
  }

  /** Two divisions of a stream into complete messages have as many. */
  lemma SameNumber(codec: Codec, isRequest: bool, a: seq<Bytes>, b: seq<Bytes>)
    requires forall k :: 0 <= k < |a| ==> Complete(NewReader(codec, isRequest), a[k])
    requires forall k :: 0 <= k < |b| ==> Complete(NewReader(codec, isRequest), b[k])
    requires Sockets.Concat(a) == Sockets.Concat(b)
    ensures |a| == |b|
  {
    hide Complete, NewReader, Sockets.Concat;
    OneDivision(codec, isRequest, a, b, Sockets.Concat(a));
    if |a| <= |b| {
      NothingBehind(codec, isRequest, a, b);
    } else {
      NothingBehind(codec, isRequest, b, a);
    }
  }
}
