/** The server: each request has a processor that takes it in and makes its response, and the
    responses leave in the order of the requests. A processor's response may start while its
    request is still coming in. */
module HttpServer {
  import opened Basics
  import opened Codecs
  import opened Messages
  import opened Octets
  import opened Pipeline
  import Http
  import Sockets

  /** The fields, and the history: every request begun and the pair made for each. */
  datatype Server = Server(line: Line, readerMsg: nat, arrived: seq<nat>, pairs: seq<Pair>)

  function Start(codec: Codec): (s: Server) {
    var l := Line(codec, [NewCell(true), NewCell(false)], [Pair(0, 1)], Some(NewWriter(codec)), [], []);
    Server(l, 0, [0], [Pair(0, 1)])
  }

  /** Every request begun has a pair, so the last pair is that of the current request. */
  ghost predicate Core(s: Server) {
    && Arrivals(s.line, s.arrived, s.readerMsg)
    && PairsInOrder(s.line, s.pairs, s.arrived)
    && |s.pairs| == |s.arrived|
    && Sound(s.line)
  }

  predicate Reading(s: Server) {
    s.readerMsg < |s.line.messages| && InRange(s.line) && s.line.queue != [] && s.line.writer.Some?
  }

  predicate Incomplete(s: Server)
    requires s.readerMsg < |s.line.messages|
  {
    s.line.messages[s.readerMsg].held.stage != DONE
  }

  /** Between calls there is a printer and the current request is not complete. */
  ghost predicate Ok(s: Server) {
    Core(s) && Reading(s) && Incomplete(s)
  }

  // ----- what each call does -----

  /** What a processor may do in one call: take parts of its request and add to its response. */
  predicate CanProcess(l: Line, at: nat, left: Msg, d: Msg) {
    && InRange(l) && at < |l.queue|
    && TakenFrom(l.messages[l.queue[at].req].held, left)
    && Fills(l.messages[l.queue[at].res].held, d)
  }

  function Processed(l: Line, at: nat, left: Msg, d: Msg): (l': Line)
    requires InRange(l) && at < |l.queue|
    ensures InRange(l') && l'.queue == l.queue && l'.writer == l.writer && l'.codec == l.codec
  {
    FilledAt(TakenAt(l, l.queue[at].req, left), l.queue[at].res, d)
  }

  /** The first part of `get_write_size`: at most one response that is over makes room for the
      next. */
  function Popped(l: Line): (l': Line)
    requires InRange(l) && l.writer.Some?
    ensures InRange(l')
  {
    var l1 := LookedFor(l);
    if IsOver(l1) then Retired(l1) else l1
  }

  /** `get_write_size`, as far as the processor's turn. */
  function Turned(l: Line): (l': Line)
    requires InRange(l) && l.writer.Some?
    ensures Popped(l).queue != [] ==> InRange(l') && l'.writer.Some?
  {
    WithWriter(Popped(l))
  }

  /** `get_write_size`: the processor of the first pair works, and the printer looks again. */
  function Polled(l: Line, left: Msg, d: Msg): (l': Line)
    requires InRange(l) && l.writer.Some? && Popped(l).queue != []
    ensures InRange(l') && l'.writer.Some? && l'.codec == l.codec
  {
    LookedFor(Processed(Turned(l), 0, left, d))
  }

  function NextRequest(s: Server): (s': Server)
    requires Reading(s)
    ensures Reading(s') && s'.line.codec == s.line.codec
  {
    var p := Pair(|s.line.messages|, |s.line.messages| + 1);
    Server(WithPair(WithCell(WithCell(s.line, NewCell(true)), NewCell(false)), p),
           p.req, s.arrived + [p.req], s.pairs + [p])
  }

  /** `read`: the reader adds d to the current request, and its processor works. */
  function ReadMore(s: Server, d: Msg, left: Msg, more: Msg): (s': Server)
    requires Reading(s)
    ensures Reading(s') && s'.line.codec == s.line.codec
  {
    var l := FilledAt(s.line, s.readerMsg, d);
    var s1 := s.(line := Processed(l, |l.queue| - 1, left, more));
    if Incomplete(s1) then s1 else NextRequest(s1)
  }

  // ----- every call keeps everything in order -----

  /** A change of the line that keeps the requests and the queue keeps everything in order. */
  lemma SameOrder(s: Server, line: Line)
    requires Core(s) && Reading(s) && Sound(line) && RequestsKept(s.line, line, s.readerMsg)
    requires line.queue == s.line.queue && line.finished == s.line.finished && line.writer.Some?
    requires s.readerMsg < |line.messages|
    ensures Core(s.(line := line)) && Reading(s.(line := line))
  {
    hide Sound, Arrivals, RequestsKept, PairsInOrder;
    ArrivalsKept(s.line, line, s.arrived, s.readerMsg);
    SamePairs(s.line, line, s.pairs, s.arrived);
    SoundInRange(line);
  }

  /** The current request is that of the last pair. */
  lemma LastPair(s: Server)
    requires Core(s)
    ensures s.line.queue != [] && s.line.queue[|s.line.queue|-1].req == s.readerMsg
    ensures forall k :: 0 <= k < |s.line.queue| - 1 ==>
      s.line.queue[k].req < |s.line.messages|
      && s.line.messages[s.line.queue[k].req].held.stage == DONE
  {
    hide Sound, Kept;
    assert forall k :: 0 <= k < |s.line.queue| ==>
      s.line.queue[k] == s.pairs[|s.line.finished| + k] && s.line.queue[k].req == s.arrived[|s.line.finished| + k];
    assert forall k :: 0 <= k < |s.arrived| ==> CellAt(s.line, s.arrived[k], true);
  }

  lemma LookedOk(s: Server)
    requires Ok(s)
    ensures var line := LookedFor(s.line);
      Ok(s.(line := line)) && (IsOver(line) ==> SentWhole(line))
  {
    hide Queued, Writing, Accounted, Arrivals, PairsInOrder, LookedFor, IsOver, SentWhole, CellAt;
    LookedForSound(s.line);
    SameOrder(s, LookedFor(s.line));
  }

  /** A transaction that is over is never the current one, so there is one behind it. */
  lemma OverIsNotLast(s: Server)
    requires Ok(s) && IsOver(s.line)
    ensures |s.line.queue| > 1
  {
    hide Core;
    LastPair(s);
  }

  lemma RetiredOk(s: Server)
    requires Ok(s) && IsOver(s.line) && SentWhole(s.line)
    ensures Ok(s.(line := WithWriter(Retired(s.line))))
  {
    hide Queued, Writing, Accounted, SentWhole, Kept;
    OverIsNotLast(s);
    RetiredSound(s.line);
    WithWriterSound(Retired(s.line));
  }

  /** One call pops at most one pair: exactly when the first pair is over, after the printer has
      looked, which is to say that its response has gone out whole. There is always a pair left. */
  lemma PopsIff(s: Server)
    requires Ok(s)
    ensures Ok(s.(line := Turned(s.line))) && Popped(s.line).queue != []
    ensures var over := IsOver(LookedFor(s.line));
      && |Turned(s.line).finished| == |s.line.finished| + (if over then 1 else 0)
      && s.line.finished <= Turned(s.line).finished
      && (over ==> Sent(s.line.messages[s.line.queue[0].req].held) && SentWhole(LookedFor(s.line)))
    ensures Turned(s.line).written == s.line.written
  {
    hide Core, LookedFor, Sent, SentWhole;
    LookedOk(s);
    var s1 := s.(line := LookedFor(s.line));
    if IsOver(s1.line) {
      HeadRequestKept(s);
      OverIsNotLast(s1);
      RetiredOk(s1);
    }
  }

  lemma HeadRequestKept(s: Server)
    requires Ok(s)
    ensures var req := s.line.queue[0].req;
      LookedFor(s.line).messages[req] == s.line.messages[req]
  {
    hide Kept, Looked, Arrivals;
    assert CellAt(s.line, s.line.queue[0].req, true) && CellAt(s.line, s.line.queue[0].res, false);
  }

  lemma ProcessedSound(l: Line, at: nat, left: Msg, d: Msg)
    requires Sound(l) && CanProcess(l, at, left, d)
    ensures var l' := Processed(l, at, left, d);
      && Sound(l') && l' == l.(messages := l'.messages) && |l'.messages| == |l.messages|
      && (forall changed :: RequestsKept(l, l', changed))
  {
    hide Writing, Accounted, Kept, TakenFrom, Fills, Filled, RequestsKept;
    var req, res := l.queue[at].req, l.queue[at].res;
    assert CellAt(l, req, true) && CellAt(l, res, false);
    var l1 := TakenAt(l, req, left);
    TakenAtSound(l, req, left);
    FillResponseSound(l1, at, d);
    forall changed ensures RequestsKept(l, Processed(l, at, left, d), changed) {
      KeptTwice(l, l1, Processed(l, at, left, d), changed);
    }
  }

  lemma KeptTwice(a: Line, b: Line, c: Line, changed: nat)
    requires RequestsKept(a, b, changed) && RequestsKept(b, c, changed)
    ensures RequestsKept(a, c, changed)
  {
    hide CellAt;
  }

  lemma ProcessedOk(s: Server, at: nat, left: Msg, d: Msg)
    requires Core(s) && Reading(s) && CanProcess(s.line, at, left, d)
    ensures var s' := s.(line := Processed(s.line, at, left, d));
      Core(s') && Reading(s') && (Incomplete(s') <==> Incomplete(s))
  {
    hide Sound, PairsInOrder, Processed, Kept, TakenFrom, Fills;
    ProcessedSound(s.line, at, left, d);
    SameOrder(s, Processed(s.line, at, left, d));
    assert CellAt(s.line, s.readerMsg, true);
    assert RequestsKept(s.line, Processed(s.line, at, left, d), s.readerMsg + 1);
  }

  lemma PolledOk(s: Server, left: Msg, d: Msg)
    requires Ok(s) && CanProcess(Turned(s.line), 0, left, d)
    ensures Popped(s.line).queue != [] && Ok(s.(line := Polled(s.line, left, d)))
    ensures Polled(s.line, left, d).finished == Turned(s.line).finished
  {
    hide Core, CanProcess, Processed, LookedFor, Turned, Popped;
    PopsIff(s);
    var s1 := s.(line := Turned(s.line));
    ProcessedOk(s1, 0, left, d);
    ProcessedKeeps(s1.line, 0, left, d);
    LookedOk(s1.(line := Processed(s1.line, 0, left, d)));
  }

  lemma ProcessedKeeps(l: Line, at: nat, left: Msg, d: Msg)
    requires InRange(l) && at < |l.queue|
    ensures Processed(l, at, left, d).finished == l.finished && Processed(l, at, left, d).written == l.written
  {}

  lemma WrittenOk(s: Server, n: nat, left: Msg, d: Msg)
    requires Ok(s) && n <= |LookedFor(s.line).writer.value.printer.Data()|
    requires CanProcess(Written(s.line, n), 0, left, d)
    ensures var line := Processed(Written(s.line, n), 0, left, d);
      && Ok(s.(line := line)) && line.finished == s.line.finished
      && s.line.written <= line.written && |line.written| == |s.line.written| + n
  {
    hide Queued, Writing, Accounted, Arrivals, PairsInOrder, LookedFor, CanProcess, SentWhole, CellAt, Processed;
    WrittenSound(s.line, n);
    LookedForSound(s.line);
    SameOrder(s, Written(s.line, n));
    ProcessedOk(s.(line := Written(s.line, n)), 0, left, d);
    ProcessedSound(Written(s.line, n), 0, left, d);
  }

  lemma FilledOk(s: Server, d: Msg)
    requires Ok(s) && Fills(s.line.messages[s.readerMsg].held, d)
    ensures var s' := s.(line := FilledAt(s.line, s.readerMsg, d));
      Core(s') && Reading(s') && s'.line.messages[s.readerMsg].held.stage == d.stage
  {
    hide Queued, Writing, Accounted, PairsInOrder, Kept, Fills, Filled;
    FillRequestSound(s.line, s.readerMsg, d);
    FilledCell(s.line, s.readerMsg, true, d);
    SameOrder(s, FilledAt(s.line, s.readerMsg, d));
  }

  lemma NextRequestOk(s: Server)
    requires Core(s) && Reading(s) && !Incomplete(s)
    ensures Ok(NextRequest(s))
  {
    hide Queued, Writing, Accounted, Kept;
    var p := Pair(|s.line.messages|, |s.line.messages| + 1);
    var l1 := WithCell(s.line, NewCell(true));
    var l2 := WithCell(l1, NewCell(false));
    NewCellSound(true);
    NewCellSound(false);
    WithCellSound(s.line, NewCell(true));
    NextArrival(s.line, s.arrived, s.readerMsg);
    WithCellSound(l1, NewCell(false));
    ArrivalsKept(l1, l2, s.arrived + [p.req], p.req);
    QueueInRange(s.line);
    WithPairSound(l2, p);
    assert (s.pairs + [p])[|s.line.finished|..] == s.pairs[|s.line.finished|..] + [p];
  }

  lemma QueueInRange(l: Line)
    requires Sound(l)
    ensures forall k :: 0 <= k < |l.queue| ==> l.queue[k].res < |l.messages|
  {
    hide Kept, Writing, Accounted;
  }

  /** Reading pops nothing and writes nothing, and a request that completes is followed by a new
      one with its pair. */
  lemma ReadMoreOk(s: Server, d: Msg, left: Msg, more: Msg)
    requires Ok(s) && Fills(s.line.messages[s.readerMsg].held, d)
    requires CanProcess(FilledAt(s.line, s.readerMsg, d), |s.line.queue| - 1, left, more)
    ensures var s' := ReadMore(s, d, left, more);
      && Ok(s')
      && s'.line.finished == s.line.finished && s'.line.written == s.line.written
      && s.pairs <= s'.pairs && |s'.pairs| == |s.pairs| + (if d.stage == DONE then 1 else 0)
  {
    hide Core, CanProcess, FilledAt, Fills, Processed;
    FilledOk(s, d);
    FillKeepsHistory(s.line, s.readerMsg, d);
    var s1 := s.(line := FilledAt(s.line, s.readerMsg, d));
    ProcessedOk(s1, |s.line.queue| - 1, left, more);
    var s2 := s1.(line := Processed(s1.line, |s.line.queue| - 1, left, more));
    ProcessedKeeps(s1.line, |s.line.queue| - 1, left, more);
    if d.stage == DONE {
      NextRequestOk(s2);
    }
  }

  /** What a read leaves in memory: the reader and the processor of the current request have worked on
      that request and its response, which are those of the last pair, and on nothing else. */
  lemma ReadServesCurrent(s: Server, d: Msg, left: Msg, more: Msg)
    requires Ok(s) && Fills(s.line.messages[s.readerMsg].held, d)
    requires CanProcess(FilledAt(s.line, s.readerMsg, d), |s.line.queue| - 1, left, more)
    ensures var s', p, n := ReadMore(s, d, left, more), s.line.queue[|s.line.queue|-1], |s.line.messages|;
      && p.req == s.readerMsg < n && p.res < n <= |s'.line.messages|
      && s'.line.messages[p.req] == Cell(Grown(s.line.messages[p.req].added, d), left)
      && s'.line.messages[p.res] == Filled(s.line.messages[p.res], more)
      && forall i :: 0 <= i < n && i != p.req && i != p.res ==> s'.line.messages[i] == s.line.messages[i]
  {
    hide Core, Grown, Fills, TakenFrom;
    LastPair(s);
    RequestIsNotResponse(s);
  }

  lemma RequestIsNotResponse(s: Server)
    requires Ok(s)
    ensures forall k :: 0 <= k < |s.line.queue| ==>
      && s.line.queue[k].req < |s.line.messages| && s.line.queue[k].res < |s.line.messages|
      && s.line.queue[k].req != s.line.queue[k].res
  {
    hide Kept, Arrivals, PairsInOrder;
  }

  /** What `get_write_size` leaves in memory: the processor of the first pair that is not over has
      worked, before the printer looked, and on that pair only. */
  lemma PollServesFirst(s: Server, left: Msg, d: Msg)
    requires Ok(s) && CanProcess(Turned(s.line), 0, left, d)
    ensures var l', over := Polled(s.line, left, d), IsOver(LookedFor(s.line));
      && (if over then 1 else 0) < |s.line.queue|
      && var p := s.line.queue[if over then 1 else 0];
         && l'.queue != [] && l'.queue[0] == p && p.req < |l'.messages| && p.res < |l'.messages|
         && l'.messages[p.req] == s.line.messages[p.req].(held := left)
         && l'.messages[p.res].added == Grown(s.line.messages[p.res].added, d)
         && (Safe(s.line.codec, l'.messages[p.res].added) && Ready(s.line.codec, l'.messages[p.res].added) ==>
              Emptied(l'.messages[p.res].held))
  {
    hide Core, CanProcess, Fills, TakenFrom, Looked;
    PopsIff(s);
    var l := Turned(s.line);
    TurnedFirst(s);
    var s1 := s.(line := l);
    RequestIsNotResponse(s1);
    ProcessedOk(s1, 0, left, d);
    LookEmpties(s1.(line := Processed(l, 0, left, d)));
  }

  /** What a write leaves in memory: the bytes have gone out before the processor of the first pair has
      worked, on that pair only. */
  lemma WriteServesFirst(s: Server, n: nat, left: Msg, d: Msg)
    requires Ok(s) && n <= |LookedFor(s.line).writer.value.printer.Data()|
    requires CanProcess(Written(s.line, n), 0, left, d)
    ensures var l', p := Processed(Written(s.line, n), 0, left, d), s.line.queue[0];
      && l'.queue == s.line.queue && p.req < |l'.messages| && p.res < |l'.messages|
      && l'.messages[p.req] == s.line.messages[p.req].(held := left)
      && l'.messages[p.res].added == Grown(s.line.messages[p.res].added, d)
      && l'.written == s.line.written + LookedFor(s.line).writer.value.printer.Data()[..n]
  {
    hide Core, CanProcess, LookedFor, Grown;
    LookKeepsPairs(s);
    RequestIsNotResponse(s);
    LookWritesNothing(s.line);
  }

  lemma LookWritesNothing(l: Line)
    requires InRange(l) && l.writer.Some?
    ensures LookedFor(l).written == l.written
  {}

  lemma TurnedFirst(s: Server)
    requires Ok(s)
    ensures var l, over := Turned(s.line), IsOver(LookedFor(s.line));
      && (if over then 1 else 0) < |s.line.queue| && l.queue != []
      && var p := s.line.queue[if over then 1 else 0];
         && l.queue[0] == p && |l.messages| == |s.line.messages|
         && p.req < |l.messages| && p.res < |l.messages|
         && l.messages[p.req] == s.line.messages[p.req] && l.messages[p.res].added == s.line.messages[p.res].added
  {
    hide Core, LookedFor, IsOver, WithWriter;
    PopsIff(s);
    LookKeepsPairs(s);
    RequestIsNotResponse(s);
    if IsOver(LookedFor(s.line)) {
      SameAfterRetiring(LookedFor(s.line));
    } else {
      SameWithWriter(LookedFor(s.line));
    }
  }

  lemma SameAfterRetiring(l: Line)
    requires InRange(l) && l.writer.Some?
    ensures var l' := WithWriter(Retired(l)); l'.queue == l.queue[1..] && l'.messages == l.messages
  {}

  lemma SameWithWriter(l: Line)
    ensures WithWriter(l).queue == l.queue && WithWriter(l).messages == l.messages
  {}

  lemma LookKeepsPairs(s: Server)
    requires Ok(s)
    ensures var l := LookedFor(s.line);
      && l.queue == s.line.queue && |l.messages| == |s.line.messages|
      && forall k :: 0 <= k < |l.queue| ==>
        && l.queue[k].req < |l.messages| && l.queue[k].res < |l.messages|
        && l.messages[l.queue[k].req] == s.line.messages[l.queue[k].req]
        && l.messages[l.queue[k].res].added == s.line.messages[l.queue[k].res].added
  {
    hide Kept, Writing, Accounted, Arrivals, PairsInOrder, LookedFor;
    LookedForSound(s.line);
    forall k | 0 <= k < |s.line.queue|
      ensures CellAt(s.line, s.line.queue[k].req, true) && CellAt(s.line, s.line.queue[k].res, false)
    {}
  }

  lemma LookEmpties(s: Server)
    requires Ok(s)
    ensures var l' := LookedFor(s.line);
      var c := l'.messages[s.line.queue[0].res];
      && c.added == s.line.messages[s.line.queue[0].res].added
      && (Safe(s.line.codec, c.added) && Ready(s.line.codec, c.added) ==> Emptied(c.held))
  {
    hide Queued, Accounted, Arrivals, PairsInOrder, Kept, AtWork, Updated, Safe, Ready, Emptied;
    var c, w := s.line.messages[s.line.queue[0].res], s.line.writer.value;
    assert Working(c, w) && w.printer.Codec() == s.line.codec;
    if Safe(s.line.codec, c.added) && Ready(s.line.codec, c.added) {
      Codecs.LookEmpties(c.added, c.held, w.printer, w.sent);
    }
  }

  lemma FillKeepsHistory(l: Line, i: nat, d: Msg)
    requires i < |l.messages|
    ensures var l' := FilledAt(l, i, d);
      l'.finished == l.finished && l'.written == l.written && l'.queue == l.queue
  {}

  // ----- runs -----

  datatype Event =
    | Poll(left: Msg, d: Msg)                 // what the first processor does
    | Write(n: nat, left: Msg, d: Msg)        // the socket takes n bytes, the first processor works
    | Read(d: Msg, left: Msg, more: Msg)      // the reader adds d, the last processor works

  predicate Enabled(s: Server, e: Event) {
    && Reading(s)
    && match e
       case Poll(left, d) => Popped(s.line).queue != [] && CanProcess(Turned(s.line), 0, left, d)
       case Write(n, left, d) =>
         n <= |LookedFor(s.line).writer.value.printer.Data()| && CanProcess(Written(s.line, n), 0, left, d)
       case Read(d, left, more) =>
         && Fills(s.line.messages[s.readerMsg].held, d)
         && CanProcess(FilledAt(s.line, s.readerMsg, d), |s.line.queue| - 1, left, more)
  }

  function Next(s: Server, e: Event): (s': Server)
    requires Enabled(s, e)
  {
    match e
    case Poll(left, d) => s.(line := Polled(s.line, left, d))
    case Write(n, left, d) => s.(line := Processed(Written(s.line, n), 0, left, d))
    case Read(d, left, more) => ReadMore(s, d, left, more)
  }

  ghost predicate Reaches(s: Server, events: seq<Event>, s': Server)
    decreases |events|
  {
    if events == [] then s == s'
    else Enabled(s, events[0]) && Reaches(Next(s, events[0]), events[1..], s')
  }

  lemma StartOk(codec: Codec)
    ensures Ok(Start(codec))
  {
    hide Safe, Kept, Working;
    NewCellSound(true);
    NewCellSound(false);
    NewWriterWorks(NewCell(false), codec);
    assert Sound(Start(codec).line);
  }

  lemma StepOk(s: Server, e: Event)
    requires Ok(s) && Enabled(s, e)
    ensures Ok(Next(s, e)) && Next(s, e).line.codec == s.line.codec
  {
    hide Ok, Polled, Written, ReadMore, CanProcess, Processed;
    match e
    case Poll(left, d) => PolledOk(s, left, d);
    case Write(n, left, d) => WrittenOk(s, n, left, d);
    case Read(d, left, more) => ReadMoreOk(s, d, left, more);
  }

  lemma {:induction false} RunOk(s: Server, events: seq<Event>, s': Server)
    requires Ok(s) && Reaches(s, events, s')
    ensures Ok(s') && s'.line.codec == s.line.codec
    decreases |events|
  {
    hide Ok, Enabled, Next;
    if events != [] {
      StepOk(s, events[0]);
      RunOk(Next(s, events[0]), events[1..], s');
    }
  }

  /** In every reachable state the queue is not empty, its last pair is that of the current request,
      which is not complete while all before it are, the responses that are over are those of the
      first requests in order, and what has been written is their encodings followed by the start
      of the next. */
  lemma ServesInOrder(codec: Codec, events: seq<Event>, s: Server)
    requires Reaches(Start(codec), events, s)
    ensures s.line.codec == codec
    ensures s.line.queue != [] && s.line.queue[|s.line.queue|-1].req == s.readerMsg
    ensures s.readerMsg < |s.line.messages| && Incomplete(s)
    ensures forall k :: 0 <= k < |s.line.queue| - 1 ==>
      s.line.queue[k].req < |s.line.messages| && s.line.messages[s.line.queue[k].req].held.stage == DONE
    ensures PairsInOrder(s.line, s.pairs, s.arrived) && |s.pairs| == |s.arrived|
    ensures AllSent(codec, s.line.finished)
    ensures s.line.writer.Some? && s.line.written == Wire(s.line.finished) + InProgress(s.line)
  {
    StartOk(codec);
    RunOk(Start(codec), events, s);
    LastPair(s);
  }

  /** A client that reads what has been written with a fresh reader for each response that was ready
      gets these in order, however it is cut up. Its k-th message is the response of its k-th request,
      for every response that is over, if and only if every one of them was ready. */
  lemma ClientReadsInOrder(codec: Codec, events: seq<Event>, s: Server, sizes: seq<seq<nat>>)
    requires Reaches(Start(codec), events, s) && AllFit(codec, s.line.finished)
    requires |sizes| == |Spoken(codec, s.line.finished)| && ReadsReach(SpokenBytes(codec, s.line.finished), sizes)
    requires CutClean(codec, false, SpokenBytes(codec, s.line.finished), sizes, InProgress(s.line))
      || Intact(codec, false, s.line.written, sizes)
    ensures |s.line.finished| <= |s.pairs| == |s.arrived|
    ensures var at := Spoken(codec, s.line.finished);
      var (ms, left) := Sessions(codec, false, s.line.written, sizes);
      && left == InProgress(s.line) && |ms| == |at|
      && forall j :: 0 <= j < |ms| ==>
        var f, p := s.line.finished[at[j]], s.pairs[at[j]];
        && Alike(codec, ms[j], Understood(codec, f.msg))
        && (CutClean(codec, false, SpokenBytes(codec, s.line.finished), sizes, InProgress(s.line)) ==>
             ms[j] == Understood(codec, f.msg))
        && f.res == p.res && p.req == s.arrived[at[j]]
    ensures InPlace(Spoken(codec, s.line.finished), |s.line.finished|) <==>
      forall k :: 0 <= k < |s.line.finished| ==> Ready(codec, s.line.finished[k].msg)
  {
    hide Sound, Arrivals, AllSent, Wire, Understood, Reaches, ReadsReach, CutClean, Intact, Safe, Ready, Sessions;
    hide Alike, InProgress;
    ServesInOrder(codec, events, s);
    PeerReadsInOrder(codec, s.line.finished, InProgress(s.line), sizes);
    AnswersInOrderIff(codec, s.line.finished);
  }

  // ----- a response that never was ready -----

  /** The first request has been taken, and its response is complete and empty but not ready. */
  predicate Speechless(s: Server) {
    && Reading(s) && Sent(s.line.messages[s.line.queue[0].req].held)
    && var c := s.line.messages[s.line.queue[0].res];
       Sent(c.held) && !Ready(s.line.codec, c.added) && Safe(s.line.codec, c.added)
  }

  /** Such a response is over at the next call, and nothing is written for it. */
  lemma TurnedUnready(s: Server)
    requires Ok(s) && Speechless(s)
    ensures var l' := Turned(s.line);
      && l'.written == s.line.written && |l'.finished| == |s.line.finished| + 1 && s.line.finished <= l'.finished
      && var f := l'.finished[|s.line.finished|];
         f.res == s.line.queue[0].res && !Ready(s.line.codec, f.msg) && f.bytes == []
  {
    hide Arrivals, PairsInOrder, Accounted, Updated, Ready, Safe, Faithful, AtWork, Kept, Sent;
    var c, w := s.line.messages[s.line.queue[0].res], s.line.writer.value;
    assert Working(c, w);
    AtWorkFaithful(c.added, c.held, w.printer, w.sent);
    UnreadyIsSilent(c.added, c.held, w.printer, w.sent);
    HeadRequestKept(s);
    PopsIff(s);
  }

  /** A request for the root without headers, and a response without a status or anything else. */
  function GetRoot(): (m: Msg) {
    Msg(true, Http.VERB_GET, "/", -1, [], [], [], DONE)
  }

  function NoStatus(): (m: Msg) {
    Blank(false).(stage := DONE)
  }

  /** The request has been read, and its processor has completed the response without a status. */
  function AfterNoStatus(codec: Codec): (s: Server) {
    ReadMore(Start(codec), GetRoot(), GetRoot(), NoStatus())
  }

  lemma NoStatusReached(codec: Codec)
    ensures Enabled(Start(codec), Read(GetRoot(), GetRoot(), NoStatus()))
    ensures var s := AfterNoStatus(codec);
      && s == Next(Start(codec), Read(GetRoot(), GetRoot(), NoStatus()))
      && Ok(s) && Speechless(s) && s.line.codec == codec && s.line.finished == [] && s.line.written == []
  {
    hide Core, Speechless, Start;
    GetIsServed(codec);
    StartOk(codec);
    StepOk(Start(codec), Read(GetRoot(), GetRoot(), NoStatus()));
  }

  lemma GetIsServed(codec: Codec)
    ensures Enabled(Start(codec), Read(GetRoot(), GetRoot(), NoStatus()))
    ensures var s := AfterNoStatus(codec);
      Speechless(s) && s.line.codec == codec && s.line.finished == [] && s.line.written == []
  {
    hide Enabled, ReadMore, Start, Ready, Safe;
    NoStatusUnready(codec);
    WholeAtOnce(codec, GetRoot(), NoStatus());
  }

  /** A request that comes in one read and is answered at once. */
  lemma WholeAtOnce(codec: Codec, req: Msg, res: Msg)
    requires Fills(Blank(true), req) && Grown(Blank(true), req) == req && TakenFrom(req, req)
    requires Fills(Blank(false), res) && Grown(Blank(false), res) == res
    ensures Enabled(Start(codec), Read(req, req, res))
    ensures var l := ReadMore(Start(codec), req, req, res).line;
      && l.messages[..2] == [Cell(req, req), Cell(res, res)] && l.queue[0] == Pair(0, 1) && InRange(l)
      && l.codec == codec && l.finished == [] && l.written == []
  {
    hide Grown, Fills, TakenFrom;
    var l := FilledAt(Start(codec).line, 0, req);
    assert l.messages == [Cell(req, req), NewCell(false)];
    assert Processed(l, 0, req, res).messages == [Cell(req, req), Cell(res, res)];
  }

  lemma NoStatusUnready(codec: Codec)
    ensures !Ready(codec, NoStatus()) && Safe(codec, NoStatus())
  {}

  /** It is over when the server is asked next, nothing has been written for it, and the client that
      has sent the request gets the next response for it. */
  lemma UnreadyExample(codec: Codec)
    ensures var s := AfterNoStatus(codec);
      && Reaches(Start(codec), [Read(GetRoot(), GetRoot(), NoStatus())], s)
      && InRange(s.line) && s.line.writer.Some?
      && var l := Turned(s.line);
         |l.finished| == 1 && l.written == [] && !InPlace(Spoken(codec, l.finished), 1)
  {
    hide Core, Ready, Safe, Speechless, Turned, AfterNoStatus, GetRoot, NoStatus, Enabled, Next, ReadyAt;
    NoStatusReached(codec);
    var s := AfterNoStatus(codec);
    var e := Read(GetRoot(), GetRoot(), NoStatus());
    assert [e][1..] == [];
    assert Reaches(Next(Start(codec), e), [e][1..], s);
    TurnedUnready(s);
    AllReadyIff(codec, MessagesOf(Turned(s.line).finished));
  }

  // ----- the class -----

  class EntityLinker {
    const codec: Codec  // the format of the printer
    var messages: seq<Cell>
    var readerMsg: nat
    var writer: Option<Writer>
    var writerMsgs: seq<Pair>  // the last is the pair of the current request and its processor

    // every request begun, the pair made for each, the responses that are over, what has gone out
    ghost var arrived: seq<nat>
    ghost var pairs: seq<Pair>
    ghost var finished: seq<Finished>
    ghost var written: Bytes

    constructor (codec: Codec)
      ensures Valid() && State() == Start(codec)
    {
      hide Ok;
      this.codec := codec;
      messages := [NewCell(true), NewCell(false)];
      readerMsg := 0;
      writerMsgs := [Pair(0, 1)];
      writer := Some(NewWriter(codec));
      arrived, pairs, finished, written := [0], [Pair(0, 1)], [], [];
      new;
      StartOk(codec);
    }

    ghost function State(): (s: Server)
      reads this
    {
      Server(Line(codec, messages, writerMsgs, writer, finished, written), readerMsg, arrived, pairs)
    }

    ghost predicate Valid()
      reads this
    {
      Ok(State())
    }

    /** What the processor does in the call is `left` and `d`. */
    method GetWriteSize(left: Msg, d: Msg) returns (n: nat)
      requires Valid() && CanProcess(Turned(State().line), 0, left, d)
      modifies this
      ensures Valid() && Popped(old(State()).line).queue != []
      ensures State() == old(State()).(line := Polled(old(State()).line, left, d))
      ensures writer.Some? && n == |writer.value.printer.Data()|
    {
      hide Core, CanProcess, Processed, LookedFor, Sent;
      ghost var s := State();
      PopsIff(s);
      PolledOk(s, left, d);
      if writer.Some? {
        n := Look();
        if n == 0 && Sent(messages[writerMsgs[0].req].held) && Sent(messages[writerMsgs[0].res].held) {
          Pop();
        }
      }
      assert State().line == Popped(s.line);
      if writer.None? && writerMsgs != [] {
        writer := Some(NewWriter(codec));
      }
      n := 0;
      if writer.Some? {
        Process(0, left, d);
        n := Look();
      }
    }

    method Look() returns (n: nat)
      requires InRange(State().line) && writer.Some?
      modifies this`messages, this`writer
      ensures State() == old(State()).(line := LookedFor(old(State()).line))
      ensures writer.Some? && n == |writer.value.printer.Data()|
    {
      hide Looked;
      var msgRes := writerMsgs[0].res;
      var (c, w) := Looked(messages[msgRes], writer.value);
      messages := messages[msgRes := c];
      writer := Some(w);
      n := |w.printer.Data()|;
    }

    method Pop()
      requires InRange(State().line) && writer.Some?
      modifies this`writerMsgs, this`writer, this`finished
      ensures State() == old(State()).(line := Retired(old(State()).line))
    {
      var msgRes := writerMsgs[0].res;
      finished := finished + [Finished(msgRes, messages[msgRes].added, writer.value.sent)];
      writerMsgs := writerMsgs[1..];
      writer := None;
    }

    method Process(at: nat, left: Msg, d: Msg)
      requires InRange(State().line) && at < |writerMsgs|
      modifies this`messages
      ensures State() == old(State()).(line := Processed(old(State()).line, at, left, d))
      ensures |messages| == old(|messages|)
    {
      hide Filled;
      var req, res := writerMsgs[at].req, writerMsgs[at].res;
      messages := messages[req := messages[req].(held := left)];
      messages := messages[res := Filled(messages[res], d)];
    }

    method Write(s: Sockets.Socket, max: nat, left: Msg, d: Msg) returns (amt: nat)
      requires Valid()
      requires forall n: nat :: n <= |LookedFor(State().line).writer.value.printer.Data()| ==>
        CanProcess(Written(State().line, n), 0, left, d)
      modifies this, s`outgoing
      ensures Valid() && amt <= max
      ensures amt <= |LookedFor(old(State()).line).writer.value.printer.Data()|
      ensures State() == old(State()).(line := Processed(Written(old(State()).line, amt), 0, left, d))
      ensures s.outgoing == old(s.outgoing) + LookedFor(old(State()).line).writer.value.printer.Data()[..amt]
    {
      hide Core, CanProcess, Processed, LookedFor;
      ghost var server := State();
      var size := Look();
      var data := writer.value.printer.Data();
      amt := s.Send(data[..Sockets.Min(size, max)]);
      assert data[..Sockets.Min(size, max)][..amt] == data[..amt];
      WrittenOk(server, amt, left, d);
      writer := Some(SentOn(writer.value, amt));
      written := written + data[..amt];
      Process(0, left, d);
    }

    /** One readiness event: the reader adds `d` to the current request, and its processor does
        `left` and `more`. */
    method Read(d: Msg, left: Msg, more: Msg)
      requires Valid() && Fills(messages[readerMsg].held, d)
      requires CanProcess(FilledAt(State().line, readerMsg, d), |writerMsgs| - 1, left, more)
      modifies this
      ensures Valid() && State() == ReadMore(old(State()), d, left, more)
    {
      hide Core, CanProcess, Processed, Fills, Filled, NextRequest;
      ghost var s := State();
      ReadMoreOk(s, d, left, more);
      messages := messages[readerMsg := Filled(messages[readerMsg], d)];
      Process(|writerMsgs| - 1, left, more);
      if messages[readerMsg].held.stage == DONE {
        BeginNext();
      }
    }

    method BeginNext()
      requires Reading(State())
      modifies this
      ensures State() == NextRequest(old(State()))
    {
      readerMsg := |messages|;
      messages := messages + [NewCell(true)] + [NewCell(false)];
      writerMsgs := writerMsgs + [Pair(readerMsg, readerMsg + 1)];
      arrived := arrived + [readerMsg];
      pairs := pairs + [Pair(readerMsg, readerMsg + 1)];
    }
  }
}
