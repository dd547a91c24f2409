/** What becomes of a message whose headers announce a length: the printer sends exactly the
    headers and the entity it was given, so the announcement must be right. */
module Http11Lengths {
  import opened Http11Format
  import opened Http11Sink
  import opened Http11Wire
  import opened Messages
  import opened Octets
  import Http
  import Http11Source
  import Sockets

  /** The headers announce the length n to both sides, a length below zero included, and all else
      about them is fit to be sent. */
  predicate Announces(m: Msg, n: int) {
    && (n >= 0 || n < ENTITY_CHUNKED)
    && Printable(m) && StartKnown(m)
    && (!m.isRequest ==> -0x8000_0000 <= m.status < 0x8000_0000)
    && LinesSafe(m.headers)
    && PrintedModes(ENTITY_UNKNOWN, m.headers) == ParsedModes(ENTITY_UNKNOWN, m.headers) == n
  }

  /** Behind headers that announce a length the entity goes out as it is, or not at all if the length
      is below zero. */
  function PlainText(m: Msg, n: int): (b: Bytes) {
    HeadText(m) + CRLF + (if n >= 0 then m.entity else [])
  }

  lemma {:induction false} BatchesPlain(n: int, batches: seq<Bytes>)
    requires n >= 0 || n < ENTITY_CHUNKED
    ensures BatchesText(n, batches) == if n >= 0 then Sockets.Concat(batches) else []
    decreases |batches|
  {
    if batches != [] {
      var most, last := batches[..|batches|-1], batches[|batches|-1];
      BatchesPlain(n, most);
      Sockets.ConcatAppend(most, last);
      assert batches == most + [last];
    }
  }

  /** However it is filled, drained and sent, a message that announces a length goes out as its
      headers and its entity, whatever the length of that. */
  lemma SentPlain(isRequest: bool, events: seq<Event>, c: Channel, n: int)
    requires Reaches(Opened(isRequest), events + [Look], c)
    requires c.added.stage == DONE && Announces(c.added, n)
    ensures c.sent + c.printer.data == PlainText(c.added, n)
    ensures c.added.isRequest == isRequest
  {
    hide Reaches, HeadText, PrintedModes, ParsedModes, LinesSafe, BatchesText, Suffix;
    var batches := SentIsSpelled(isRequest, events, c);
    OpenedRegular(isRequest);
    TakenBefore(Opened(isRequest), []);
    KindStays(Opened(isRequest), events + [Look], c);
    AllTaken(c.added, c.held);
    BatchesPlain(n, batches);
    var head := HeadText(c.added) + CRLF;
    assert forall body :: head + body + [] + [] == head + body;
  }

  lemma {:induction false} KindStays(c: Channel, events: seq<Event>, c': Channel)
    requires Reaches(c, events, c') && c.held.isRequest == c.added.isRequest && Backlog(c.added, c.held)
    ensures c'.added.isRequest == c.added.isRequest
    decreases |events|
  {
    hide Updated, Fills, Backlog;
    if events != [] {
      match events[0] {
        case Fill(d) =>
          FillSameKind(c.held, d);
          FillKeepsBacklog(c.added, c.held, d);
        case Look => UpdateDrains(c.added, c.held, c.printer);
        case Send(n) =>
      }
      KindStays(Next(c, events[0]), events[1..], c');
    }
  }

  /** What the parser makes of the headers and the blank line. */
  lemma HeadRuns(m: Msg, n: int)
    requires Announces(m, n)
    ensures Run(Initial(m.isRequest), HeadText(m) + CRLF)
      == EndOfHeaders(n, ReadStart(m).(headers := Kept(m.headers)))
  {
    hide Run, StartText, PairsText, Initial, PrintedModes, ParsedModes, Kept, LinesSafe, Http.AToVerb, VerbName;
    var start := ReadStart(m);
    RunStartText(m);
    RunAppend(Initial(m.isRequest), StartText(m), PairsText(m.headers));
    RunHeaders(ENTITY_UNKNOWN, start, m.headers);
    assert [] + Kept(m.headers) == Kept(m.headers);
    RunAppend(Initial(m.isRequest), HeadText(m), CRLF);
    RunEndOfHeaders(n, start.(headers := Kept(m.headers)));
  }

  lemma AnnouncedBelow(m: Msg, n: int)
    requires Announces(m, n) && n < 0
    ensures n < ENTITY_CHUNKED
  {}

  /** A reader takes the headers and an entity for one whole message if and only if the entity is
      as long as announced. */
  lemma PlainCompleteIff(m: Msg, n: int)
    requires Announces(m, n)
    ensures Http11Source.Complete(Initial(m.isRequest), PlainText(m, n)) <==> |m.entity| == n
  {
    hide Run, HeadText, Initial, Announces, Kept, ReadStart;
    var p, head, e := Initial(m.isRequest), HeadText(m) + CRLF, m.entity;
    var q := ReadStart(m).(headers := Kept(m.headers));
    HeadRuns(m, n);
    RunAppend(p, head, e);
    if n < 0 {
      AnnouncedBelow(m, n);
      assert PlainText(m, n) == head && !Stopped(Run(p, head));
    } else if |e| < n {
      if e != [] {
        RunFixed(q.(stage := ENTITY), n, e);
      } else {
        assert head + e == head;
      }
      assert !Stopped(Run(p, head + e));
    } else if |e| > n {
      RunAppend(p, head, e[..n]);
      if n > 0 {
        RunFixed(q.(stage := ENTITY), n, e[..n]);
      } else {
        assert head + e[..n] == head;
      }
      assert (head + e)[..|head| + n] == head + e[..n];
      assert Stopped(Run(p, (head + e)[..|head| + n]));
    } else {
      RightLength(m, n);
    }
  }

  lemma RightLength(m: Msg, n: nat)
    requires Announces(m, n) && |m.entity| == n
    ensures Http11Source.Complete(Initial(m.isRequest), HeadText(m) + CRLF + m.entity)
  {
    hide Run, HeadText, Initial, Announces, Kept, ReadStart;
    var p, head, e := Initial(m.isRequest), HeadText(m) + CRLF, m.entity;
    var q := ReadStart(m).(headers := Kept(m.headers));
    HeadRuns(m, n);
    RunAppend(p, head, e);
    if n > 0 {
      RunFixed(q.(stage := ENTITY), n, e);
      FixedStopsLast(m.isRequest, head, q.(stage := ENTITY), n, e);
    } else {
      assert head + e == head;
      HeadEndsLast(m);
    }
    EarlierRuns(p, head + e);
  }

  /** The headers of a message without an entity end it at their last byte. */
  lemma HeadEndsLast(m: Msg)
    requires Announces(m, 0)
    ensures HeadText(m) + CRLF != [] && !Stopped(Run(Initial(m.isRequest), (HeadText(m) + CRLF)[..|HeadText(m)| + 1]))
  {
    hide Run, StartText, PairsText, Initial, PrintedModes, ParsedModes, Kept, LinesSafe, Http.AToVerb, VerbName;
    var start, p := ReadStart(m), Initial(m.isRequest);
    RunStartText(m);
    RunAppend(p, StartText(m), PairsText(m.headers));
    RunHeaders(ENTITY_UNKNOWN, start, m.headers);
    RunAppend(p, HeadText(m), [CR]);
    assert (HeadText(m) + CRLF)[..|HeadText(m)| + 1] == HeadText(m) + [CR];
    RunLine(Headers(0, []), start.(headers := [] + Kept(m.headers)), [], [CR]);
  }

  /** A parser that has not stopped before the last byte has not stopped earlier either. */
  lemma EarlierRuns(p: Parser, text: Bytes)
    requires text != [] && !Stopped(Run(p, text[..|text|-1]))
    ensures forall k :: 0 <= k < |text| ==> !Stopped(Run(p, text[..k]))
  {
    hide Run;
    var most := text[..|text|-1];
    forall k | 0 <= k < |text| ensures !Stopped(Run(p, text[..k])) {
      assert most == text[..k] + most[k..];
      RunAppend(p, text[..k], most[k..]);
      if Stopped(Run(p, text[..k])) {
        RunStopped(Run(p, text[..k]), most[k..]);
      }
    }
  }

  /** A message that announces a length is read back as one whole message if and only if its entity
      is that long, whatever the schedule; with a length below zero it never is. */
  lemma LengthMustBeRight(isRequest: bool, events: seq<Event>, c: Channel, n: int)
    requires Reaches(Opened(isRequest), events + [Look], c)
    requires c.added.stage == DONE && Announces(c.added, n)
    ensures Http11Source.Complete(Initial(isRequest), c.sent + c.printer.data) <==> |c.added.entity| == n
  {
    hide Reaches, Announces, PlainText, Http11Source.Complete;
    SentPlain(isRequest, events, c, n);
    PlainCompleteIff(c.added, n);
  }
}
