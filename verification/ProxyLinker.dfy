/** The client side of the proxy: requests are read one after the other and each is answered by
    exactly one response, in the order of the requests. */
module ProxyLinker {
  import opened Basics
  import opened Codecs
  import opened Messages
  import opened Octets
  import opened Pipeline
  import Common
  import GnySink
  import H = Http11Format
  import Http
  import Http11Sink
  import Sockets

  const PROXY_AGENT: Bytes := "Proxy-Agent"
  const GNY_PROXY: Bytes := "gny-proxy"
  const HOST: Bytes := "host"
  const NO_UPSTREAM: Bytes := "Failed to connect to upstream server"
  const NO_HOST: Bytes := "no host header found"

  /** A complete response made by the proxy itself. */
  function Generated(status: int, info: Bytes): (m: Msg) {
    Msg(false, Http.VERB_UNKNOWN, [], status, [KeyValue(PROXY_AGENT, GNY_PROXY)], info, [], DONE)
  }

  /** The last colon of a host value, or its length. */
  function LastColon(host: Bytes): (i: nat)
    ensures i <= |host|
    decreases |host|
  {
    if host == [] then 0
    else if host[|host|-1] == ':' then |host| - 1
    else
      var i := LastColon(host[..|host|-1]);
      if i == |host| - 1 then |host| else i
  }

  /** The host name in the first host header, if there is one. */
  function HostOf(headers: seq<KeyValue>): (host: Bytes)
    decreases |headers|
  {
    if headers == [] then []
    else if Names(headers[0].key, HOST) then headers[0].value[..LastColon(headers[0].value)]
    else HostOf(headers[1..])
  }

  function GeneratedCell(status: int, info: Bytes): (c: Cell) {
    Cell(Generated(status, info), Generated(status, info))
  }

  // ----- the state and what each call does to it -----

  /** The fields, and the history: every request read, every pair ever queued, and the requests
      that upstream has accepted, so that somebody takes what they hold. */
  datatype Linker = Linker(
    line: Line,
    readerMsg: nat,
    connected: bool,
    arrived: seq<nat>,
    pairs: seq<Pair>,
    accepted: set<nat>)

  function Start(codec: Codec): (l: Linker) {
    Linker(Line(codec, [NewCell(true)], [], None, [], []), 0, false, [0], [], {})
  }

  /** Each request that is complete, and the current one once it is connected, has one pair. */
  ghost predicate Core(l: Linker) {
    && Arrivals(l.line, l.arrived, l.readerMsg)
    && PairsInOrder(l.line, l.pairs, l.arrived)
    && |l.pairs| == |l.arrived| - 1 + (if l.connected then 1 else 0)
    && Sound(l.line)
  }

  predicate Reading(l: Linker) {
    l.readerMsg < |l.line.messages| && InRange(l.line)
  }

  predicate Incomplete(l: Linker)
    requires Reading(l)
  {
    l.line.messages[l.readerMsg].held.stage != DONE
  }

  /** Between calls the current request is never complete. */
  ghost predicate Ok(l: Linker) {
    Core(l) && Reading(l) && Incomplete(l)
  }

  /** `get_write_size`: past every response that is over, to the first that is not. */
  function Polled(l: Line): (l': Line)
    requires InRange(l)
    ensures InRange(l') && |l'.messages| == |l.messages| && l'.codec == l.codec
    decreases |l.queue|
  {
    if l.queue == [] then l
    else
      var l1 := LookedFor(WithWriter(l));
      if IsOver(l1) then Polled(Retired(l1)) else l1
  }

  function Answered(l: Linker, c: Cell): (l': Linker)
    requires Reading(l)
    ensures Reading(l') && l'.line.codec == l.line.codec && l'.readerMsg == l.readerMsg
  {
    var p := Pair(l.readerMsg, |l.line.messages|);
    l.(line := WithPair(WithCell(l.line, c), p), pairs := l.pairs + [p], connected := true)
  }

  function Target(forwardHost: Bytes, headers: seq<KeyValue>): (host: Bytes) {
    if forwardHost != [] then forwardHost else HostOf(headers)
  }

  /** It is known by now where the current request asks to go, and it has not been passed on. */
  predicate Connects(l: Linker, forwardHost: Bytes)
    requires Reading(l)
  {
    var m := l.line.messages[l.readerMsg].held;
    !l.connected && m.verb != Http.VERB_UNKNOWN && m.url != [] && Target(forwardHost, m.headers) != []
  }

  /** The current request goes where it asks to go, if that is known by now. */
  function Connected(l: Linker, forwardHost: Bytes, accepted: bool): (l': Linker)
    requires Reading(l)
    ensures Reading(l') && l'.line.codec == l.line.codec
  {
    if !Connects(l, forwardHost) then l
    else if accepted then Answered(l.(accepted := l.accepted + {l.readerMsg}), NewCell(false))
    else Answered(l, GeneratedCell(504, NO_UPSTREAM))
  }

  function NextRequest(l: Linker): (l': Linker)
    requires Reading(l)
    ensures Reading(l') && l'.line.codec == l.line.codec
  {
    l.(line := WithCell(l.line, NewCell(true)), readerMsg := |l.line.messages|,
       arrived := l.arrived + [|l.line.messages|], connected := false)
  }

  /** A request that completes without having been passed on is refused; either way the next one
      begins. */
  function Completed(l: Linker): (l': Linker)
    requires Reading(l)
    ensures Reading(l') && l'.line.codec == l.line.codec
  {
    if Incomplete(l) then l
    else NextRequest(if l.connected then l else Answered(l, GeneratedCell(400, NO_HOST)))
  }

  /** `read`: the reader adds d to the current request. */
  function ReadMore(l: Linker, forwardHost: Bytes, d: Msg, accepted: bool): (l': Linker)
    requires Reading(l)
    ensures Reading(l') && l'.line.codec == l.line.codec
  {
    Completed(Connected(l.(line := FilledAt(l.line, l.readerMsg, d)), forwardHost, accepted))
  }

  // ----- where a request goes -----

  lemma {:induction false} LastColonIs(name: Bytes, port: Bytes)
    requires ':' !in port
    ensures LastColon(name + [':'] + port) == |name|
    decreases |port|
  {
    var host := name + [':'] + port;
    if port == [] {
      assert host == name + [':'];
    } else {
      var most := port[..|port|-1];
      assert host[..|host|-1] == name + [':'] + most && host[|host|-1] == port[|port|-1];
      LastColonIs(name, most);
    }
  }

  lemma {:induction false} NoColonIs(host: Bytes)
    requires ':' !in host
    ensures LastColon(host) == |host|
    decreases |host|
  {
    if host != [] {
      NoColonIs(host[..|host|-1]);
    }
  }

  /** The host is the value of the first header of that name, wherever it stands among the others, up
      to its last colon: `name` as well as `name:port`. */
  lemma {:induction false} HostFound(headers: seq<KeyValue>, i: nat, name: Bytes, port: Bytes)
    requires i < |headers| && Names(headers[i].key, HOST) && forall j :: 0 <= j < i ==> !Names(headers[j].key, HOST)
    requires ':' !in port
    requires headers[i].value == name + [':'] + port || (headers[i].value == name && ':' !in name)
    ensures HostOf(headers) == name
    decreases |headers|
  {
    hide Names;
    if i > 0 {
      assert headers[1..][i-1] == headers[i];
      assert forall j :: 0 <= j < i - 1 ==> headers[1..][j] == headers[j+1];
      HostFound(headers[1..], i - 1, name, port);
    } else if headers[0].value == name + [':'] + port {
      LastColonIs(name, port);
    } else {
      NoColonIs(name);
    }
  }

  lemma {:induction false} NoHostFound(headers: seq<KeyValue>)
    requires forall j :: 0 <= j < |headers| ==> !Names(headers[j].key, HOST)
    ensures HostOf(headers) == []
    decreases |headers|
  {
    hide Names;
    if headers != [] {
      assert forall j :: 0 <= j < |headers[1..]| ==> headers[1..][j] == headers[j+1];
      NoHostFound(headers[1..]);
    }
  }

  /** The first header named host, wherever it stands among the others, names a host. */
  predicate NamesHost(headers: seq<KeyValue>, i: nat, name: Bytes, port: Bytes) {
    && i < |headers| && Names(headers[i].key, HOST) && (forall j :: 0 <= j < i ==> !Names(headers[j].key, HOST))
    && name != [] && ':' !in port
    && (headers[i].value == name + [':'] + port || (headers[i].value == name && ':' !in name))
  }

  // ----- every call keeps everything in order -----

  lemma GeneratedSound(status: int, info: Bytes)
    ensures Kept(GeneratedCell(status, info))
    ensures !Generated(status, info).isRequest
  {
    KeptIff(GeneratedCell(status, info));
  }

  /** A change of the line that keeps the requests and the queue keeps everything in order. */
  lemma SameOrder(l: Linker, line: Line)
    requires Ok(l) && Sound(line) && RequestsKept(l.line, line, l.readerMsg)
    requires line.queue == l.line.queue && line.finished == l.line.finished
    requires l.readerMsg < |line.messages|
    requires line.messages[l.readerMsg].held.stage == l.line.messages[l.readerMsg].held.stage
    ensures Ok(l.(line := line))
  {
    hide Sound, Arrivals, RequestsKept, PairsInOrder;
    ArrivalsKept(l.line, line, l.arrived, l.readerMsg);
    SamePairs(l.line, line, l.pairs, l.arrived);
    SoundInRange(line);
  }

  lemma LookedOk(l: Linker)
    requires Ok(l) && l.line.queue != []
    ensures var line := LookedFor(WithWriter(l.line));
      && Ok(l.(line := line))
      && (IsOver(line) ==> SentWhole(line))
  {
    hide Queued, Writing, Accounted, Arrivals, PairsInOrder, WithWriter, LookedFor, IsOver, SentWhole, Kept;
    WithWriterSound(l.line);
    SoundInRange(WithWriter(l.line));
    WithWriterKeeps(l.line);
    LookedForSound(WithWriter(l.line));
    SameOrder(l, LookedFor(WithWriter(l.line)));
  }

  lemma WithWriterKeeps(l: Line)
    requires l.queue != []
    ensures var l' := WithWriter(l);
      l' == l.(writer := l'.writer) && l'.writer.Some?
  {}

  lemma RetiredOk(l: Linker)
    requires Ok(l) && l.line.writer.Some? && IsOver(l.line) && SentWhole(l.line)
    ensures Ok(l.(line := Retired(l.line)))
  {
    hide Queued, Writing, Accounted, SentWhole, Kept;
    RetiredSound(l.line);
    assert l.pairs[|l.line.finished|] == l.line.queue[0];
    assert l.arrived[|l.line.finished|] != l.readerMsg;
  }

  /** Looking for something to write pops only responses whose encoding has gone out whole and
      whose request has been passed on, nothing is written by it, and it stops only at a
      transaction that is not over. */
  lemma {:induction false} PolledOk(l: Linker)
    requires Ok(l)
    ensures var line := Polled(l.line);
      && Ok(l.(line := line))
      && l.line.finished <= line.finished && line.written == l.line.written
      && (line.queue != [] ==> line.writer.Some? && !IsOver(line))
      && (l.line.queue != [] && !Sent(l.line.messages[l.line.queue[0].req].held) ==>
           line.finished == l.line.finished)
    decreases |l.line.queue|
  {
    hide Core, LookedFor, IsOver, Sent, WithWriter;
    if l.line.queue != [] {
      WithWriterKeeps(l.line);
      LookedOk(l);
      var l1 := l.(line := LookedFor(WithWriter(l.line)));
      if IsOver(l1.line) {
        HeadRequestKept(l);
        OverIsSent(l1.line);
        RetiredOk(l1);
        PolledOk(l1.(line := Retired(l1.line)));
        assert l.line.finished <= Retired(l1.line).finished;
      }
    }
  }

  lemma HeadRequestKept(l: Linker)
    requires Ok(l) && l.line.queue != []
    ensures var req := l.line.queue[0].req;
      LookedFor(WithWriter(l.line)).messages[req] == l.line.messages[req]
  {
    hide Kept, Looked;
  }

  lemma OverIsSent(l: Line)
    requires InRange(l) && l.writer.Some? && IsOver(l)
    ensures Sent(l.messages[l.queue[0].req].held)
  {}

  lemma WrittenOk(l: Linker, n: nat)
    requires Ok(l) && l.line.writer.Some?
    requires n <= |LookedFor(l.line).writer.value.printer.Data()|
    ensures var line := Written(l.line, n);
      && Ok(l.(line := line)) && line.finished == l.line.finished
      && l.line.written <= line.written && |line.written| == |l.line.written| + n
  {
    hide Queued, Writing, Accounted, Arrivals, PairsInOrder, LookedFor, IsOver, SentWhole, Kept;
    WrittenSound(l.line, n);
    LookedForSound(l.line);
    SameOrder(l, Written(l.line, n));
  }

  lemma AnsweredOk(l: Linker, c: Cell)
    requires Core(l) && Reading(l) && !l.connected
    requires !c.held.isRequest && Kept(c) && c.held == c.added
    ensures var l' := Answered(l, c);
      Core(l') && l'.connected && l'.line.messages[l.readerMsg] == l.line.messages[l.readerMsg]
  {
    hide Queued, Writing, Accounted, Kept;
    var p, line := Pair(l.readerMsg, |l.line.messages|), WithCell(l.line, c);
    WithCellSound(l.line, c);
    ArrivalsKept(l.line, line, l.arrived, l.readerMsg);
    WithPairSound(line, p);
    assert (l.pairs + [p])[|l.line.finished|..] == l.pairs[|l.line.finished|..] + [p];
  }

  lemma ConnectedOk(l: Linker, forwardHost: Bytes, accepted: bool)
    requires Core(l) && Reading(l)
    ensures var l' := Connected(l, forwardHost, accepted);
      && Core(l') && l'.readerMsg == l.readerMsg < |l'.line.messages|
      && l'.line.messages[l.readerMsg] == l.line.messages[l.readerMsg]
  {
    hide Sound, Arrivals, PairsInOrder, HostOf, Kept, Generated, Answered;
    NewCellSound(false);
    GeneratedSound(504, NO_UPSTREAM);
    if Connected(l, forwardHost, accepted) != l {
      if accepted {
        AnsweredOk(l.(accepted := l.accepted + {l.readerMsg}), NewCell(false));
      } else {
        AnsweredOk(l, GeneratedCell(504, NO_UPSTREAM));
      }
    }
  }

  lemma FilledOk(l: Linker, d: Msg)
    requires Ok(l) && Fills(l.line.messages[l.readerMsg].held, d)
    ensures var l' := l.(line := FilledAt(l.line, l.readerMsg, d));
      Core(l') && Reading(l') && l'.line.messages[l.readerMsg].held.stage == d.stage
  {
    hide Queued, Writing, Accounted, PairsInOrder, Kept, Fills, Filled;
    var line := FilledAt(l.line, l.readerMsg, d);
    FillRequestSound(l.line, l.readerMsg, d);
    FilledCell(l.line, l.readerMsg, true, d);
    ArrivalsKept(l.line, line, l.arrived, l.readerMsg);
    SamePairs(l.line, line, l.pairs, l.arrived);
  }

  lemma NextRequestOk(l: Linker)
    requires Core(l) && Reading(l) && l.connected && !Incomplete(l)
    ensures Ok(NextRequest(l))
  {
    hide Queued, Writing, Accounted, Kept;
    WithCellSound(l.line, NewCell(true));
    NextArrival(l.line, l.arrived, l.readerMsg);
  }

  /** Reading keeps the order: a request that completes leaves exactly one pair behind, and pairs
      are only ever added at the end. */
  lemma ReadMoreOk(l: Linker, forwardHost: Bytes, d: Msg, accepted: bool)
    requires Ok(l) && Fills(l.line.messages[l.readerMsg].held, d)
    ensures var l' := ReadMore(l, forwardHost, d, accepted);
      && Ok(l')
      && l'.line.finished == l.line.finished && l'.line.written == l.line.written
      && l.pairs <= l'.pairs && l.arrived <= l'.arrived
      && |l'.arrived| == |l.arrived| + (if d.stage == DONE then 1 else 0)
      && (d.stage == DONE ==> |l'.pairs| == |l.arrived|)
  {
    hide Core, HostOf, Kept, Generated;
    FilledOk(l, d);
    var l1 := l.(line := FilledAt(l.line, l.readerMsg, d));
    ConnectedOk(l1, forwardHost, accepted);
    var l2 := Connected(l1, forwardHost, accepted);
    if d.stage == DONE {
      GeneratedSound(400, NO_HOST);
      if !l2.connected {
        AnsweredOk(l2, GeneratedCell(400, NO_HOST));
      }
      var l3 := if l2.connected then l2 else Answered(l2, GeneratedCell(400, NO_HOST));
      CorePairs(l3);
      NextRequestOk(l3);
    }
  }

  /** Which answer a read queues, if any: upstream's or a 504 as soon as verb, URL and target are
      known, a 400 when the request completes without that, and one answer to a request only. */
  lemma AnswerMeans(l: Linker, forwardHost: Bytes, d: Msg, accepted: bool)
    requires Ok(l) && Fills(l.line.messages[l.readerMsg].held, d)
    ensures var m, n := Filled(l.line.messages[l.readerMsg], d).held, |l.line.messages|;
      var known := m.verb != Http.VERB_UNKNOWN && m.url != [] && Target(forwardHost, m.headers) != [];
      var l' := ReadMore(l, forwardHost, d, accepted);
      && (l.connected || (!known && d.stage != DONE) ==> l'.pairs == l.pairs)
      && (!l.connected && (known || d.stage == DONE) ==>
           && l'.pairs == l.pairs + [Pair(l.readerMsg, n)] && n < |l'.line.messages|
           && l'.line.messages[n] == if !known then GeneratedCell(400, NO_HOST)
                                     else if accepted then NewCell(false) else GeneratedCell(504, NO_UPSTREAM))
      && l'.accepted == l.accepted + (if !l.connected && known && accepted then {l.readerMsg} else {})
  {
    hide Core, Target, GeneratedCell, Fills;
  }

  /** A request with a verb that is found, a URL and a host, if there is no forward host, gets its
      answer from upstream or a 504, and never a 400. */
  lemma HostedIsPassedOn(
    l: Linker, forwardHost: Bytes, d: Msg, accepted: bool, i: nat, name: Bytes, port: Bytes)
    requires Ok(l) && Fills(l.line.messages[l.readerMsg].held, d) && !l.connected
    requires d.verb != Http.VERB_UNKNOWN && d.url != []
    requires forwardHost != [] || NamesHost(Filled(l.line.messages[l.readerMsg], d).held.headers, i, name, port)
    ensures var l', n := ReadMore(l, forwardHost, d, accepted), |l.line.messages|;
      && l'.pairs == l.pairs + [Pair(l.readerMsg, n)] && n < |l'.line.messages|
      && l'.line.messages[n] == (if accepted then NewCell(false) else GeneratedCell(504, NO_UPSTREAM))
      && (accepted ==> l.readerMsg in l'.accepted)
  {
    hide Core, GeneratedCell, Fills, ReadMore, HostOf;
    AnswerMeans(l, forwardHost, d, accepted);
    if forwardHost == [] {
      HostFound(Filled(l.line.messages[l.readerMsg], d).held.headers, i, name, port);
    }
  }

  /** A request that completes without a host, and without a forward host, or whose verb is not found,
      wherever it asks to go, is answered with 400. The names of POST, PUT and OPTIONS are not found. */
  lemma HostlessOrUnfoundRefused(l: Linker, forwardHost: Bytes, d: Msg, accepted: bool)
    requires Ok(l) && Fills(l.line.messages[l.readerMsg].held, d) && !l.connected && d.stage == DONE
    requires var headers := Filled(l.line.messages[l.readerMsg], d).held.headers;
      || d.verb == Http.VERB_UNKNOWN
      || (forwardHost == [] && forall j :: 0 <= j < |headers| ==> !Names(headers[j].key, HOST))
    ensures var l', n := ReadMore(l, forwardHost, d, accepted), |l.line.messages|;
      && l'.pairs == l.pairs + [Pair(l.readerMsg, n)] && n < |l'.line.messages|
      && l'.line.messages[n] == GeneratedCell(400, NO_HOST) && l'.accepted == l.accepted
  {
    hide Core, GeneratedCell, Fills, ReadMore, HostOf;
    AnswerMeans(l, forwardHost, d, accepted);
    if d.verb != Http.VERB_UNKNOWN {
      NoHostFound(Filled(l.line.messages[l.readerMsg], d).held.headers);
    }
  }

  lemma CorePairs(l: Linker)
    requires Core(l)
    ensures |l.pairs| == |l.arrived| - 1 + (if l.connected then 1 else 0)
  {}

  // ----- runs -----

  datatype Event =
    | Poll
    | Write(n: nat)
    | Read(d: Msg, accepted: bool)
    | PassOn(req: nat, left: Msg)      // upstream takes part of a request that it has accepted
    | Respond(at: nat, d: Msg)         // upstream adds to the response at a place in the queue

  predicate Enabled(l: Linker, e: Event) {
    && Reading(l)
    && match e
       case Poll => true
       case Write(n) => l.line.writer.Some? && n <= |LookedFor(l.line).writer.value.printer.Data()|
       case Read(d, accepted) =>
         Fills(l.line.messages[l.readerMsg].held, d) && d.verb != Http.VERB_CONNECT
       case PassOn(req, left) =>
         && req in l.accepted
         && req < |l.line.messages| && l.line.messages[req].held.isRequest
         && TakenFrom(l.line.messages[req].held, left)
       case Respond(at, d) =>
         at < |l.line.queue| && Fills(l.line.messages[l.line.queue[at].res].held, d)
  }

  function Next(l: Linker, forwardHost: Bytes, e: Event): (l': Linker)
    requires Enabled(l, e)
  {
    match e
    case Poll => l.(line := Polled(l.line))
    case Write(n) => l.(line := Written(l.line, n))
    case Read(d, accepted) => ReadMore(l, forwardHost, d, accepted)
    case PassOn(req, left) => l.(line := TakenAt(l.line, req, left))
    case Respond(at, d) => l.(line := FilledAt(l.line, l.line.queue[at].res, d))
  }

  ghost predicate Reaches(l: Linker, forwardHost: Bytes, events: seq<Event>, l': Linker)
    decreases |events|
  {
    if events == [] then l == l'
    else Enabled(l, events[0]) && Reaches(Next(l, forwardHost, events[0]), forwardHost, events[1..], l')
  }

  lemma StartOk(codec: Codec)
    ensures Ok(Start(codec))
  {
    hide Safe, Kept, Working, SentAs;
    NewCellSound(true);
    StartSound(codec);
    hide Sound;
  }

  lemma StartSound(codec: Codec)
    ensures Sound(Start(codec).line)
  {
    hide Safe, SentAs, Working, CellAt;
  }

  lemma PassOnOk(l: Linker, req: nat, left: Msg)
    requires Ok(l) && Enabled(l, PassOn(req, left))
    ensures Ok(Next(l, [], PassOn(req, left)))
  {
    hide Queued, Writing, Accounted, Arrivals, PairsInOrder, Kept, TakenFrom, Polled, Written, ReadMore;
    TakenAtSound(l.line, req, left);
    TakenFromKept(l.line.messages[req], left);
    SameOrder(l, TakenAt(l.line, req, left));
  }

  lemma RespondOk(l: Linker, at: nat, d: Msg)
    requires Ok(l) && Enabled(l, Respond(at, d))
    ensures Ok(Next(l, [], Respond(at, d)))
  {
    hide Writing, Accounted, PairsInOrder, Kept, Fills, Filled, Polled, Written, ReadMore;
    FillResponseSound(l.line, at, d);
    SameOrder(l, FilledAt(l.line, l.line.queue[at].res, d));
  }

  lemma StepOk(l: Linker, forwardHost: Bytes, e: Event)
    requires Ok(l) && Enabled(l, e)
    ensures Ok(Next(l, forwardHost, e)) && Next(l, forwardHost, e).line.codec == l.line.codec
  {
    hide Ok, Polled, Written, ReadMore;
    match e
    case Poll => PolledOk(l);
    case Write(n) => WrittenOk(l, n);
    case Read(d, accepted) => ReadMoreOk(l, forwardHost, d, accepted);
    case PassOn(req, left) => PassOnOk(l, req, left);
    case Respond(at, d) => RespondOk(l, at, d);
  }

  lemma {:induction false} RunOk(l: Linker, forwardHost: Bytes, events: seq<Event>, l': Linker)
    requires Ok(l) && Reaches(l, forwardHost, events, l')
    ensures Ok(l') && l'.line.codec == l.line.codec
    decreases |events|
  {
    hide Ok, Enabled, Next;
    if events != [] {
      StepOk(l, forwardHost, events[0]);
      RunOk(Next(l, forwardHost, events[0]), forwardHost, events[1..], l');
    }
  }

  /** In every reachable state each completed request has exactly one pair, the pairs follow the
      order of the requests, the k-th response that is over is the one of the k-th request, and
      what has been written is the encodings of the responses that are over, one after the other,
      followed by the start of the next. */
  lemma ResponsesInOrder(codec: Codec, forwardHost: Bytes, events: seq<Event>, l: Linker)
    requires Reaches(Start(codec), forwardHost, events, l)
    ensures l.line.codec == codec
    ensures Arrivals(l.line, l.arrived, l.readerMsg) && Reading(l) && Incomplete(l)
    ensures PairsInOrder(l.line, l.pairs, l.arrived)
    ensures |l.pairs| == |l.arrived| - 1 + (if l.connected then 1 else 0)
    ensures AllSent(codec, l.line.finished)
    ensures l.line.written == Wire(l.line.finished) + InProgress(l.line)
  {
    StartOk(codec);
    RunOk(Start(codec), forwardHost, events, l);
  }

  /** A client that reads what has been written with a fresh reader for each response that was ready
      gets these in order, however it is cut up. Its k-th message is the response of its k-th request,
      for every response that is over, if and only if every one of them was ready. */
  lemma ClientReadsInOrder(
    codec: Codec, forwardHost: Bytes, events: seq<Event>, l: Linker, sizes: seq<seq<nat>>)
    requires Reaches(Start(codec), forwardHost, events, l) && AllFit(codec, l.line.finished)
    requires |sizes| == |Spoken(codec, l.line.finished)| && ReadsReach(SpokenBytes(codec, l.line.finished), sizes)
    requires CutClean(codec, false, SpokenBytes(codec, l.line.finished), sizes, InProgress(l.line))
      || Intact(codec, false, l.line.written, sizes)
    ensures |l.line.finished| <= |l.pairs| <= |l.arrived|
    ensures var at := Spoken(codec, l.line.finished);
      var (ms, left) := Sessions(codec, false, l.line.written, sizes);
      && left == InProgress(l.line) && |ms| == |at|
      && forall j :: 0 <= j < |ms| ==>
        var f, p := l.line.finished[at[j]], l.pairs[at[j]];
        && Alike(codec, ms[j], Understood(codec, f.msg))
        && (CutClean(codec, false, SpokenBytes(codec, l.line.finished), sizes, InProgress(l.line)) ==>
             ms[j] == Understood(codec, f.msg))
        && f.res == p.res && p.req == l.arrived[at[j]]
    ensures InPlace(Spoken(codec, l.line.finished), |l.line.finished|) <==>
      forall k :: 0 <= k < |l.line.finished| ==> Ready(codec, l.line.finished[k].msg)
  {
    hide Sound, Arrivals, AllSent, Wire, Understood, Reaches, ReadsReach, CutClean, Intact, Safe, Ready, Sessions;
    hide Alike, InProgress;
    ResponsesInOrder(codec, forwardHost, events, l);
    PeerReadsInOrder(codec, l.line.finished, InProgress(l.line), sizes);
    AnswersInOrderIff(codec, l.line.finished);
  }

  // ----- a response that never was ready -----

  /** The first request has been taken, and its response is complete and empty but not ready: it has
      no status that could be sent. */
  predicate Speechless(l: Linker) {
    && InRange(l.line) && l.line.queue != [] && Sent(l.line.messages[l.line.queue[0].req].held)
    && var c := l.line.messages[l.line.queue[0].res];
       Sent(c.held) && !Ready(l.line.codec, c.added) && Safe(l.line.codec, c.added)
  }

  /** Such a response is over at once, and nothing is written for it. */
  lemma PolledUnready(l: Linker)
    requires Ok(l) && Speechless(l)
    ensures var l' := Polled(l.line);
      && |l'.finished| > |l.line.finished| && l.line.finished <= l'.finished && l'.written == l.line.written
      && var f := l'.finished[|l.line.finished|];
         f.res == l.line.queue[0].res && !Ready(l.line.codec, f.msg) && f.bytes == []
  {
    hide Core, Ready, Safe, Sent, LookedFor, WithWriter, Retired;
    WithWriterKeeps(l.line);
    LookedOk(l);
    UnreadyLooked(l);
    var line := LookedFor(WithWriter(l.line));
    RetiredOk(l.(line := line));
    RetiredAdds(line);
    PolledOk(l.(line := Retired(line)));
  }

  lemma RetiredAdds(line: Line)
    requires InRange(line) && line.writer.Some?
    ensures var res := line.queue[0].res;
      Retired(line).finished == line.finished + [Finished(res, line.messages[res].added, line.writer.value.sent)]
    ensures Retired(line).written == line.written
  {}

  lemma UnreadyLooked(l: Linker)
    requires Ok(l) && Speechless(l)
    ensures var line := LookedFor(WithWriter(l.line));
      && IsOver(line) && line.queue == l.line.queue && line.writer.value.sent == []
      && line.messages[line.queue[0].res].added == l.line.messages[l.line.queue[0].res].added
      && line.finished == l.line.finished && line.written == l.line.written
  {
    hide Arrivals, PairsInOrder, Accounted, Updated, Ready, Safe, Faithful, AtWork, Kept, Sent;
    WithWriterSound(l.line);
    var line := WithWriter(l.line);
    var c, w := line.messages[line.queue[0].res], line.writer.value;
    assert Working(c, w);
    AtWorkFaithful(c.added, c.held, w.printer, w.sent);
    UnreadyIsSilent(c.added, c.held, w.printer, w.sent);
    HeadRequestKept(l);
  }

  // ----- a refused request that nobody takes -----

  predicate HoldsSomething(m: Msg) {
    m.headers != [] || m.entity != [] || m.footers != []
  }

  /** The k-th request has its response but upstream has not accepted it, and it holds something. */
  ghost predicate Blocked(l: Linker, k: nat) {
    && |l.line.finished| <= k < |l.pairs| && l.pairs[k].req !in l.accepted
    && CellAt(l.line, l.pairs[k].req, true)
    && HoldsSomething(l.line.messages[l.pairs[k].req].held)
  }

  lemma StepBlocked(l: Linker, forwardHost: Bytes, e: Event, k: nat)
    requires Ok(l) && Enabled(l, e) && Blocked(l, k)
    ensures Blocked(Next(l, forwardHost, e), k)
  {
    hide Ok, Blocked, Polled, Written, ReadMore, TakenAt, FilledAt, Reading, LookedFor;
    match e
    case Poll => PolledBlocked(l, k);
    case Write(n) => WrittenBlocked(l, n, k);
    case Read(d, accepted) => ReadBlocked(l, forwardHost, d, accepted, k);
    case PassOn(req, left) => TakenBlocked(l, req, left, k);
    case Respond(at, d) => RespondBlocked(l, at, d, k);
  }

  /** A change of the line that keeps the requests and pops nothing frees no request. */
  lemma SameBlocked(l: Linker, line: Line, k: nat)
    requires Blocked(l, k) && line.finished == l.line.finished
    requires CellAt(line, l.pairs[k].req, true)
    requires line.messages[l.pairs[k].req] == l.line.messages[l.pairs[k].req]
    ensures Blocked(l.(line := line), k)
  {
    hide Kept;
  }

  lemma {:induction false} PolledBlocked(l: Linker, k: nat)
    requires Ok(l) && Blocked(l, k)
    ensures Blocked(l.(line := Polled(l.line)), k)
    decreases |l.line.queue|
  {
    hide Core, LookedFor, IsOver, Sent, WithWriter, Kept, HoldsSomething;
    if l.line.queue != [] {
      WithWriterKeeps(l.line);
      LookedOk(l);
      var l1 := l.(line := LookedFor(WithWriter(l.line)));
      LookedBlocked(l, k);
      if IsOver(l1.line) {
        RetiredOk(l1);
        RetiredBlocked(l1, k);
        PolledBlocked(l1.(line := Retired(l1.line)), k);
      }
    }
  }

  lemma LookedBlocked(l: Linker, k: nat)
    requires Ok(l) && Blocked(l, k) && l.line.queue != []
    ensures Blocked(l.(line := LookedFor(WithWriter(l.line))), k)
  {
    hide Arrivals, Queued, Writing, Accounted, WithWriter, LookedFor, IsOver, SentWhole, Kept, HoldsSomething;
    WithWriterSound(l.line);
    SoundInRange(WithWriter(l.line));
    WithWriterKeeps(l.line);
    LookedForSound(WithWriter(l.line));
    var req := l.pairs[k].req;
    assert CellAt(WithWriter(l.line), req, true);
    assert RequestsKept(WithWriter(l.line), LookedFor(WithWriter(l.line)), 0);
    SameBlocked(l, LookedFor(WithWriter(l.line)), k);
  }

  /** A response that is over is not that of a blocked request. */
  lemma RetiredBlocked(l: Linker, k: nat)
    requires Ok(l) && Blocked(l, k) && l.line.writer.Some? && l.line.queue != [] && IsOver(l.line)
    ensures Blocked(l.(line := Retired(l.line)), k)
  {
    hide Arrivals, Sound, Kept;
    assert l.line.queue[0] == l.pairs[|l.line.finished|];
  }

  lemma WrittenBlocked(l: Linker, n: nat, k: nat)
    requires Ok(l) && Enabled(l, Write(n)) && Blocked(l, k)
    ensures Blocked(l.(line := Written(l.line, n)), k)
  {
    hide Arrivals, Queued, Writing, Accounted, LookedFor, IsOver, SentWhole, Kept, HoldsSomething;
    LookedForSound(l.line);
    WrittenSound(l.line, n);
    var req := l.pairs[k].req;
    assert RequestsKept(l.line, Written(l.line, n), 0);
    SameBlocked(l, Written(l.line, n), k);
  }

  lemma TakenBlocked(l: Linker, req: nat, left: Msg, k: nat)
    requires Ok(l) && Enabled(l, PassOn(req, left)) && Blocked(l, k)
    ensures Blocked(l.(line := TakenAt(l.line, req, left)), k)
  {
    hide Core, Kept, TakenFrom, HoldsSomething;
    SameBlocked(l, TakenAt(l.line, req, left), k);
  }

  lemma RespondBlocked(l: Linker, at: nat, d: Msg, k: nat)
    requires Ok(l) && Enabled(l, Respond(at, d)) && Blocked(l, k)
    ensures Blocked(l.(line := FilledAt(l.line, l.line.queue[at].res, d)), k)
  {
    hide Arrivals, Writing, Accounted, Kept, Fills, HoldsSomething, Filled;
    assert CellAt(l.line, l.line.queue[at].res, false);
    SameBlocked(l, FilledAt(l.line, l.line.queue[at].res, d), k);
  }

  /** Reading only adds to what a request holds, and a request that has its response is not passed
      on any more. */
  lemma ReadBlocked(l: Linker, forwardHost: Bytes, d: Msg, accepted: bool, k: nat)
    requires Ok(l) && Enabled(l, Read(d, accepted)) && Blocked(l, k)
    ensures Blocked(ReadMore(l, forwardHost, d, accepted), k)
  {
    hide Sound, HostOf, Generated, Kept, Fills, Connected, Completed;
    var l1 := l.(line := FilledAt(l.line, l.readerMsg, d));
    assert CellAt(l.line, l.readerMsg, true);
    FilledCell(l.line, l.readerMsg, true, d);
    assert l.pairs[k].req == l.arrived[k];
    assert Blocked(l1, k);
    var l2 := Connected(l1, forwardHost, accepted);
    ConnectedBlocked(l1, forwardHost, accepted, k);
    CompletedBlocked(l2, k);
  }

  lemma ConnectedBlocked(l: Linker, forwardHost: Bytes, accepted: bool, k: nat)
    requires Reading(l) && Blocked(l, k)
    requires !l.connected ==> l.pairs[k].req != l.readerMsg
    ensures Blocked(Connected(l, forwardHost, accepted), k)
  {
    hide HostOf, Generated, Kept, HoldsSomething;
  }

  lemma CompletedBlocked(l: Linker, k: nat)
    requires Reading(l) && Blocked(l, k)
    ensures Blocked(Completed(l), k)
  {
    hide Generated, Kept, HoldsSomething;
  }

  /** A request that upstream has refused and that holds something is never over, nor is any behind
      it, in any run: nobody takes what it holds. */
  lemma {:induction false} RefusedBlocks(l: Linker, forwardHost: Bytes, events: seq<Event>, l': Linker, k: nat)
    requires Ok(l) && Blocked(l, k) && Reaches(l, forwardHost, events, l')
    ensures Blocked(l', k) && |l'.line.finished| <= k
    decreases |events|
  {
    hide Ok, Enabled, Next;
    if events != [] {
      StepBlocked(l, forwardHost, events[0], k);
      StepOk(l, forwardHost, events[0]);
      RefusedBlocks(Next(l, forwardHost, events[0]), forwardHost, events[1..], l', k);
    }
  }

  /** A request that completes with something in it without having been accepted blocks the line at
      its place, for good. */
  lemma RefusedSticks(l: Linker, forwardHost: Bytes, d: Msg, accepted: bool, events: seq<Event>, l'': Linker)
    requires Ok(l) && Enabled(l, Read(d, accepted)) && d.stage == DONE
    requires HoldsSomething(l.line.messages[l.readerMsg].held) || HoldsSomething(d)
    requires var l' := ReadMore(l, forwardHost, d, accepted);
      l.readerMsg !in l'.accepted && Reaches(l', forwardHost, events, l'')
    ensures |l''.line.finished| < |l.arrived|
  {
    hide HostOf, Generated, Fills, Reaches, Connected;
    ReadMoreOk(l, forwardHost, d, accepted);
    CompletedHolds(l, forwardHost, d, accepted);
    RefusedBlocks(ReadMore(l, forwardHost, d, accepted), forwardHost, events, l'', |l.arrived| - 1);
  }

  lemma CompletedHolds(l: Linker, forwardHost: Bytes, d: Msg, accepted: bool)
    requires Ok(l) && Enabled(l, Read(d, accepted)) && d.stage == DONE
    requires HoldsSomething(l.line.messages[l.readerMsg].held) || HoldsSomething(d)
    requires l.readerMsg !in ReadMore(l, forwardHost, d, accepted).accepted
    ensures Blocked(ReadMore(l, forwardHost, d, accepted), |l.arrived| - 1)
  {
    hide HostOf, Generated, Fills, Connected, Sound, Kept, Completed;
    var l1 := l.(line := FilledAt(l.line, l.readerMsg, d));
    var l2 := Connected(l1, forwardHost, accepted);
    var l' := Completed(l2);
    ReadMoreOk(l, forwardHost, d, accepted);
    assert l'.pairs[|l.arrived|-1].req == l'.arrived[|l.arrived|-1] == l.readerMsg;
    FilledOk(l, d);
    ConnectedOk(l1, forwardHost, accepted);
    CompletedKeeps(l2, l.readerMsg);
    assert CellAt(l'.line, l.readerMsg, true);
  }

  lemma CompletedKeeps(l: Linker, i: nat)
    requires Reading(l) && i < |l.line.messages|
    ensures i < |Completed(l).line.messages| && Completed(l).line.messages[i] == l.line.messages[i]
  {
    hide Generated;
  }

  // ----- when the first response can get over -----

  /** The first request is complete, and so is its response, which its printer can print. */
  predicate Answerable(l: Linker) {
    && InRange(l.line) && l.line.queue != []
    && l.line.messages[l.line.queue[0].req].held.stage == DONE
    && var c := l.line.messages[l.line.queue[0].res];
       c.held.stage == DONE && Ready(l.line.codec, c.added) && Safe(l.line.codec, c.added)
  }

  function HeadRequest(l: Linker): (m: Msg)
    requires Answerable(l)
  {
    l.line.messages[l.line.queue[0].req].held
  }

  /** The printer has come to the end of the first response, all of which has left its mailbox. */
  predicate Printed(line: Line) {
    && InRange(line) && line.writer.Some? && line.writer.value.printer.Stage() == DONE
    && Sent(line.messages[line.queue[0].req].held) && Sent(line.messages[line.queue[0].res].held)
  }

  lemma LookPrints(l: Linker)
    requires Ok(l) && Answerable(l) && Sent(HeadRequest(l))
    ensures l.line.queue != [] && Printed(LookedFor(WithWriter(l.line)))
  {
    hide Arrivals, PairsInOrder, Accounted, Updated, Ready, Safe, Faithful, AtWork, Kept;
    WithWriterSound(l.line);
    var line := WithWriter(l.line);
    var c, w := line.messages[line.queue[0].res], line.writer.value;
    assert Working(c, w);
    KeptStage(c);
    AtWorkFaithful(c.added, c.held, w.printer, w.sent);
    UpdateEnds(c.added, c.held, w.printer, w.sent);
  }

  lemma KeptStage(c: Cell)
    requires Kept(c)
    ensures c.added.stage == c.held.stage
  {}

  /** From there looking changes nothing. */
  lemma PrintedIsIdle(line: Line)
    requires Printed(line)
    ensures LookedFor(line) == line && WithWriter(line) == line
  {
    EndedIsIdle(line.writer.value.printer, line.messages[line.queue[0].res].held);
  }

  /** A request that holds nothing is over once its response has gone out: polling, writing what
      there is and polling again are enough. */
  lemma Finishes(l: Linker, forwardHost: Bytes) returns (events: seq<Event>, l': Linker)
    requires Ok(l) && Answerable(l) && Sent(HeadRequest(l))
    ensures Reaches(l, forwardHost, events, l') && |l'.line.finished| > |l.line.finished|
  {
    hide Core, Polled, LookedFor, WithWriter, Written, Answerable, Sent;
    PolledOk(l);
    LookPrints(l);
    WithWriterKeeps(l.line);
    var l1 := l.(line := Polled(l.line));
    if |l1.line.finished| > |l.line.finished| {
      OneEvent(l, forwardHost, Poll);
      return [Poll], l1;
    }
    PolledStays(l);
    PrintedIsIdle(l1.line);
    var n := |l1.line.writer.value.printer.Data()|;
    var l2 := l1.(line := Written(l1.line, n));
    WrittenOk(l1, n);
    WrittenAll(l1.line);
    PolledPops(l2);
    var l3 := l2.(line := Polled(l2.line));
    OneEvent(l2, forwardHost, Poll);
    assert Next(l1, forwardHost, Write(n)) == l2;
    MoreEvents(l1, forwardHost, Write(n), [Poll], l3);
    MoreEvents(l, forwardHost, Poll, [Write(n)] + [Poll], l3);
    return [Poll] + ([Write(n)] + [Poll]), l3;
  }

  lemma OneEvent(l: Linker, forwardHost: Bytes, e: Event)
    requires Enabled(l, e)
    ensures Reaches(l, forwardHost, [e], Next(l, forwardHost, e))
  {
    hide Enabled, Next;
    assert Reaches(Next(l, forwardHost, e), forwardHost, [e][1..], Next(l, forwardHost, e));
  }

  lemma MoreEvents(l: Linker, forwardHost: Bytes, e: Event, events: seq<Event>, l': Linker)
    requires Enabled(l, e) && Reaches(Next(l, forwardHost, e), forwardHost, events, l')
    ensures Reaches(l, forwardHost, [e] + events, l')
  {
    hide Enabled, Next;
    assert ([e] + events)[1..] == events;
  }

  lemma PolledStays(l: Linker)
    requires Ok(l) && l.line.queue != [] && |Polled(l.line).finished| == |l.line.finished|
    ensures Polled(l.line) == LookedFor(WithWriter(l.line))
  {
    hide Core, LookedFor, IsOver, WithWriter;
    WithWriterKeeps(l.line);
    LookedOk(l);
    var l1 := l.(line := LookedFor(WithWriter(l.line)));
    if IsOver(l1.line) {
      RetiredOk(l1);
      PolledOk(l1.(line := Retired(l1.line)));
    }
  }

  lemma WrittenAll(line: Line)
    requires Printed(line) && LookedFor(line) == line
    ensures var line' := Written(line, |line.writer.value.printer.Data()|);
      Printed(line') && line'.writer.value.printer.Data() == [] && line'.finished == line.finished
  {
    hide LookedFor;
  }

  lemma PolledPops(l: Linker)
    requires Ok(l) && Printed(l.line) && l.line.writer.value.printer.Data() == []
    ensures |Polled(l.line).finished| > |l.line.finished|
  {
    hide Core, LookedFor, WithWriter;
    PrintedIsIdle(l.line);
    assert l.line.queue != [] && IsOver(l.line);
    LookedOk(l);
    RetiredOk(l);
    PolledOk(l.(line := Retired(l.line)));
  }

  /** Upstream takes all that the first request holds. */
  function AllPassedOn(m: Msg): (left: Msg) {
    m.(headers := [], entity := [], footers := [])
  }

  lemma PassOnAll(l: Linker, forwardHost: Bytes)
    requires Ok(l) && Answerable(l) && l.line.queue[0].req in l.accepted
    ensures var e := PassOn(l.line.queue[0].req, AllPassedOn(HeadRequest(l)));
      && Enabled(l, e)
      && var l' := Next(l, forwardHost, e);
         Ok(l') && Answerable(l') && Sent(HeadRequest(l')) && l'.line.finished == l.line.finished
  {
    hide Arrivals, Writing, Accounted, PairsInOrder, Kept, Ready, Safe;
    var req := l.line.queue[0].req;
    assert CellAt(l.line, req, true) && CellAt(l.line, l.line.queue[0].res, false);
    PassOnOk(l, req, AllPassedOn(HeadRequest(l)));
  }

  /** Once the first request and its response are complete, that response can get over, in some
      run, if and only if upstream has accepted the request or the request holds nothing. */
  lemma CanFinishIff(l: Linker, forwardHost: Bytes)
    requires Ok(l) && Answerable(l)
    ensures (exists events, l' :: Reaches(l, forwardHost, events, l') && |l'.line.finished| > |l.line.finished|)
      <==> l.line.queue[0].req in l.accepted || !HoldsSomething(HeadRequest(l))
  {
    hide Ok, Reaches, Next, Enabled, Answerable;
    var req := HeadRequestAt(l);
    if !HoldsSomething(HeadRequest(l)) {
      var events, l' := Finishes(l, forwardHost);
    } else if req in l.accepted {
      PassOnAll(l, forwardHost);
      var e := PassOn(req, AllPassedOn(HeadRequest(l)));
      var events, l' := Finishes(Next(l, forwardHost, e), forwardHost);
      MoreEvents(l, forwardHost, e, events, l');
    } else {
      HeadBlocked(l);
      forall events, l' | Reaches(l, forwardHost, events, l')
        ensures |l'.line.finished| <= |l.line.finished|
      {
        RefusedBlocks(l, forwardHost, events, l', |l.line.finished|);
      }
    }
  }

  lemma HeadRequestAt(l: Linker) returns (req: nat)
    requires Answerable(l)
    ensures l.line.queue != [] && req == l.line.queue[0].req
    ensures !HoldsSomething(HeadRequest(l)) ==> Sent(HeadRequest(l))
  {
    req := l.line.queue[0].req;
  }

  lemma HeadBlocked(l: Linker)
    requires Ok(l) && Answerable(l) && l.line.queue[0].req !in l.accepted
    requires HoldsSomething(HeadRequest(l))
    ensures Blocked(l, |l.line.finished|)
  {
    hide Arrivals, Writing, Accounted, Kept, Ready, Safe;
    assert l.line.queue[0] == l.pairs[|l.line.finished|];
  }

  /** The proxy's own responses are complete and can be printed in either format. */
  lemma GeneratedFits(codec: Codec, status: nat, info: Bytes)
    requires status <= 65534 && info != [] && |info| < 0x1_0000_0000
    ensures var m := Generated(status, info);
      m.stage == DONE && Ready(codec, m) && Safe(codec, m)
  {
    hide Http11Sink.Safe, GnySink.Safe, Generated;
    GeneratedFitsGny(status, info);
    GeneratedFitsHttp11(status, info);
  }

  lemma GeneratedFitsGny(status: nat, info: Bytes)
    requires status <= 65534
    ensures var m := Generated(status, info);
      m.stage == DONE && GnySink.Ready(m) && StartKnown(m) && GnySink.Safe(m)
  {}

  lemma GeneratedFitsHttp11(status: nat, info: Bytes)
    requires status <= 65534 && info != [] && |info| < 0x1_0000_0000
    ensures Http11Sink.Safe(Generated(status, info))
  {
    hide H.ParsedMode, H.PrintedMode;
    AgentFramesNothing();
    var m := Generated(status, info);
    assert m.headers[1..] == [];
    assert H.LinesSafe(m.headers);
    assert H.PrintedModes(H.ENTITY_UNKNOWN, m.headers) == H.ENTITY_UNKNOWN;
    assert Http11Sink.Frames(m);
  }

  lemma AgentFramesNothing()
    ensures var kv := KeyValue(PROXY_AGENT, GNY_PROXY);
      && H.PrintedMode(H.ENTITY_UNKNOWN, kv) == H.ENTITY_UNKNOWN
      && H.ParsedMode(H.ENTITY_UNKNOWN, kv) == H.ENTITY_UNKNOWN
  {
    hide Common.StrToLL, Common.OutOfRange;
  }

  /** What a client reads of them, in either format: the status, the reason as the entity, and one
      header that says who answers. */
  lemma GeneratedReads(codec: Codec, status: nat, info: Bytes)
    requires status <= 65534
    ensures var m := Understood(codec, Generated(status, info));
      && !m.isRequest && m.status == status && m.entity == info && m.footers == [] && m.stage == DONE
      && |m.headers| == 1 && m.headers[0].value == GNY_PROXY
      && FoldAll(m.headers[0].key) == FoldAll(PROXY_AGENT)
  {
    hide Understood, H.IsDropped, FoldAll;
    AgentIsPassedOn();
    ReadsOneHeader(codec, Generated(status, info), KeyValue(PROXY_AGENT, GNY_PROXY));
  }

  lemma ReadsOneHeader(codec: Codec, m: Msg, kv: KeyValue)
    requires !m.isRequest && 0 <= m.status <= 65534 && m.headers == [kv] && m.footers == []
    requires NulFree(kv.key) && !H.IsDropped(kv.key)
    ensures var u := Understood(codec, m);
      && !u.isRequest && u.status == m.status && u.entity == m.entity && u.footers == [] && u.stage == m.stage
      && |u.headers| == 1 && u.headers[0].value == kv.value && FoldAll(u.headers[0].key) == FoldAll(kv.key)
  {
    hide GnySink.Decoded, GnySink.Ready, Http11Sink.ReadBack, H.IsDropped, FoldAll, NulFree;
    GnySink.StatusSurvivesIff(m);
    OneHeaderInGny(m, kv);
    OneHeaderInHttp11(m, kv);
  }

  lemma OneHeaderInGny(m: Msg, kv: KeyValue)
    requires !m.isRequest && m.headers == [kv] && m.footers == [] && NulFree(kv.key)
    ensures var u := GnySink.Decoded(m);
      && !u.isRequest && u.entity == m.entity && u.footers == [] && u.stage == m.stage
      && |u.headers| == 1 && u.headers[0].value == kv.value && FoldAll(u.headers[0].key) == FoldAll(kv.key)
  {
    hide Http.Canon, FoldAll, NulFree;
    Http.CanonFolds(kv.key);
  }

  lemma OneHeaderInHttp11(m: Msg, kv: KeyValue)
    requires !m.isRequest && m.headers == [kv] && m.footers == [] && !H.IsDropped(kv.key)
    ensures var u := Http11Sink.ReadBack(m);
      && !u.isRequest && u.status == m.status && u.entity == m.entity && u.footers == [] && u.stage == m.stage
      && u.headers == [kv]
  {
    hide H.PrintedModes, H.IsDropped;
    assert m.headers[1..] == [];
    assert H.Kept([]) == [];
  }

  lemma AgentIsPassedOn()
    ensures NulFree(PROXY_AGENT) && !H.IsDropped(PROXY_AGENT)
  {
    assert NulFree(PROXY_AGENT);
    ElevenIsPassedOn(PROXY_AGENT);
  }

  lemma ElevenIsPassedOn(key: Bytes)
    requires NulFree(key) && |key| == 11
    ensures !H.IsDropped(key)
  {
    H.DroppedIff(key);
    CStrIdentity(key);
    hide H.IsDropped, CStr;
    assert |FoldAll(key)| == 11;
  }

  // ----- two requests without a host -----

  const ROOT: Bytes := "/"

  /** A request for the root with these headers and nothing else, as one read delivers it. */
  function GetRoot(headers: seq<KeyValue>): (m: Msg) {
    Msg(true, Http.VERB_GET, ROOT, -1, headers, [], [], DONE)
  }

  /** The proxy after it has read such a request and nothing else. */
  function AfterGet(codec: Codec, headers: seq<KeyValue>): (l: Linker) {
    ReadMore(Start(codec), [], GetRoot(headers), true)
  }

  lemma GetIsAnswered(codec: Codec, headers: seq<KeyValue>)
    requires HostOf(headers) == []
    ensures Enabled(Start(codec), Read(GetRoot(headers), true))
    ensures var l := AfterGet(codec, headers);
      && Ok(l) && Reaches(Start(codec), [], [Read(GetRoot(headers), true)], l)
      && l.line.finished == [] && l.accepted == {} && Answerable(l)
      && HeadRequest(l).headers == headers && HeadRequest(l).entity == [] && HeadRequest(l).footers == []
  {
    hide Core, HostOf, Ready, Safe, Generated;
    StartOk(codec);
    OneEvent(Start(codec), [], Read(GetRoot(headers), true));
    StepOk(Start(codec), [], Read(GetRoot(headers), true));
    GeneratedFits(codec, 400, NO_HOST);
    assert [] + headers == headers;
  }

  /** A GET with one header, and no host in it or on the command line, is answered with 400, and
      that response is never over, whatever happens; without any header it can be. */
  lemma RefusedExample(codec: Codec)
    ensures var l := AfterGet(codec, [KeyValue("accept", "text/html")]);
      && Reaches(Start(codec), [], [Read(GetRoot([KeyValue("accept", "text/html")]), true)], l)
      && |l.line.queue| == 1
      && forall events, l' :: Reaches(l, [], events, l') ==> l'.line.finished == []
    ensures exists events, l' :: Reaches(AfterGet(codec, []), [], events, l') && l'.line.finished != []
  {
    hide Reaches, Ok, Answerable, AfterGet, GetRoot;
    var headers := [KeyValue("accept", "text/html")];
    assert headers[1..] == [];
    GetIsAnswered(codec, headers);
    GetIsAnswered(codec, []);
    var l := AfterGet(codec, headers);
    CanFinishIff(l, []);
    CanFinishIff(AfterGet(codec, []), []);
    OnePair(codec, headers);
  }

  lemma OnePair(codec: Codec, headers: seq<KeyValue>)
    requires HostOf(headers) == []
    ensures |AfterGet(codec, headers).line.queue| == 1
  {
    hide HostOf, Generated;
  }

  // ----- a response without a status -----

  lemma StepGrows(l: Linker, forwardHost: Bytes, e: Event)
    requires Ok(l) && Enabled(l, e)
    ensures l.line.finished <= Next(l, forwardHost, e).line.finished
  {
    hide Core, Polled, ReadMore, LookedFor;
    match e
    case Poll => PolledOk(l);
    case Write(n) => WrittenOk(l, n);
    case Read(d, accepted) => ReadMoreOk(l, forwardHost, d, accepted);
    case PassOn(req, left) =>
    case Respond(at, d) =>
  }

  lemma {:induction false} RunGrows(l: Linker, forwardHost: Bytes, events: seq<Event>, l': Linker)
    requires Ok(l) && Reaches(l, forwardHost, events, l')
    ensures l.line.finished <= l'.line.finished
    decreases |events|
  {
    hide Ok, Enabled, Next;
    if events != [] {
      StepGrows(l, forwardHost, events[0]);
      StepOk(l, forwardHost, events[0]);
      RunGrows(Next(l, forwardHost, events[0]), forwardHost, events[1..], l');
    }
  }

  /** Once a response that was not ready is over, no later state has the client's messages in place. */
  lemma OutOfPlace(l: Linker, forwardHost: Bytes, events: seq<Event>, l': Linker, k: nat)
    requires Ok(l) && Reaches(l, forwardHost, events, l') && k < |l.line.finished|
    requires !Ready(l.line.codec, l.line.finished[k].msg)
    ensures !InPlace(Spoken(l.line.codec, l'.line.finished), |l'.line.finished|)
  {
    hide Ok, Reaches, Ready, ReadyAt;
    RunGrows(l, forwardHost, events, l');
    assert l'.line.finished[k] == l.line.finished[k];
    AllReadyIff(l.line.codec, MessagesOf(l'.line.finished));
  }

  const UPSTREAM: Bytes := "proxy"

  /** The response that the text "HTTP/1.1 -1 X" and a blank line makes: complete, with nothing in it. */
  function NoStatus(): (m: Msg) {
    Blank(false).(stage := DONE)
  }

  /** The proxy has read a GET without headers, upstream has accepted it and has answered so. */
  function AfterNoStatus(codec: Codec): (l: Linker) {
    var l1 := ReadMore(Start(codec), UPSTREAM, GetRoot([]), true);
    l1.(line := FilledAt(l1.line, 1, NoStatus()))
  }

  lemma NoStatusUnready(codec: Codec)
    ensures !Ready(codec, NoStatus()) && Safe(codec, NoStatus())
  {}

  /** The request has been taken whole, and the response to it is to come. */
  lemma GetIsTaken(codec: Codec)
    ensures Enabled(Start(codec), Read(GetRoot([]), true))
    ensures var l := ReadMore(Start(codec), UPSTREAM, GetRoot([]), true);
      && l.line.queue == [Pair(0, 1)] && Sent(l.line.messages[0].held) && l.line.messages[1] == NewCell(false)
      && l.line.codec == codec && l.line.finished == [] && l.line.written == []
  {
    hide Core, Generated;
  }

  lemma SaidNothing(l: Linker)
    requires Ok(l) && l.line.queue == [Pair(0, 1)] && Sent(l.line.messages[0].held)
    requires l.line.messages[1] == NewCell(false)
    ensures Enabled(l, Respond(0, NoStatus()))
    ensures var l' := Next(l, UPSTREAM, Respond(0, NoStatus()));
      && l' == l.(line := FilledAt(l.line, 1, NoStatus())) && Ok(l') && Speechless(l')
      && l'.line == l.line.(messages := l'.line.messages)
  {
    hide Core, Ready, Safe;
    NoStatusUnready(l.line.codec);
    StepOk(l, UPSTREAM, Respond(0, NoStatus()));
  }

  lemma NoStatusReached(codec: Codec)
    ensures var l := AfterNoStatus(codec);
      && Ok(l) && Speechless(l) && l.line.codec == codec && l.line.finished == [] && l.line.written == []
      && Reaches(Start(codec), UPSTREAM, [Read(GetRoot([]), true), Respond(0, NoStatus())], l)
  {
    hide Core, ReadMore, Start, GetRoot, Reaches, Speechless, FilledAt;
    GetIsTaken(codec);
    StartOk(codec);
    StepOk(Start(codec), UPSTREAM, Read(GetRoot([]), true));
    SaidNothing(ReadMore(Start(codec), UPSTREAM, GetRoot([]), true));
    TwoEvents(Start(codec), UPSTREAM, Read(GetRoot([]), true), Respond(0, NoStatus()));
  }

  lemma TwoEvents(l: Linker, forwardHost: Bytes, e: Event, e': Event)
    requires Enabled(l, e) && Enabled(Next(l, forwardHost, e), e')
    ensures Reaches(l, forwardHost, [e, e'], Next(Next(l, forwardHost, e), forwardHost, e'))
  {
    hide Enabled, Next;
    OneEvent(Next(l, forwardHost, e), forwardHost, e');
    MoreEvents(l, forwardHost, e, [e'], Next(Next(l, forwardHost, e), forwardHost, e'));
    assert [e] + [e'] == [e, e'];
  }

  /** A response without a status: it is over as soon as it is polled, nothing has been written for it,
      and whatever happens afterwards the client takes some other response for it. */
  lemma UnreadyExample(codec: Codec)
    ensures exists l ::
      && Reaches(Start(codec), UPSTREAM, [Read(GetRoot([]), true), Respond(0, NoStatus()), Poll], l)
      && |l.line.finished| > 0 && l.line.written == []
      && forall events, l' :: Reaches(l, UPSTREAM, events, l') ==>
           !InPlace(Spoken(codec, l'.line.finished), |l'.line.finished|)
  {
    hide Ok, Ready, Safe, Speechless, Polled, AfterNoStatus, GetRoot, NoStatus, Reaches, Spoken, Reading;
    NoStatusReached(codec);
    var l0 := AfterNoStatus(codec);
    PolledIsStep(l0);
    PolledUnready(l0);
    var l := l0.(line := Polled(l0.line));
    var before := [Read(GetRoot([]), true), Respond(0, NoStatus())];
    RunExtended(Start(codec), UPSTREAM, before, l0, Poll);
    assert before + [Poll] == [Read(GetRoot([]), true), Respond(0, NoStatus()), Poll];
    forall events, l' | Reaches(l, UPSTREAM, events, l')
      ensures !InPlace(Spoken(codec, l'.line.finished), |l'.line.finished|)
    {
      OutOfPlace(l, UPSTREAM, events, l', 0);
    }
  }

  lemma PolledIsStep(l: Linker)
    requires Ok(l)
    ensures InRange(l.line) && Enabled(l, Poll)
    ensures Ok(l.(line := Polled(l.line))) && Polled(l.line).codec == l.line.codec
  {
    hide Core, Polled;
    PolledOk(l);
  }

  lemma {:induction false} RunExtended(l: Linker, forwardHost: Bytes, events: seq<Event>, l': Linker, e: Event)
    requires Reaches(l, forwardHost, events, l') && Enabled(l', e)
    ensures Reaches(l, forwardHost, events + [e], Next(l', forwardHost, e))
    decreases |events|
  {
    hide Enabled, Next;
    if events == [] {
      OneEvent(l, forwardHost, e);
      assert events + [e] == [e];
    } else {
      RunExtended(Next(l, forwardHost, events[0]), forwardHost, events[1..], l', e);
      assert events + [e] == [events[0]] + (events[1..] + [e]);
      MoreEvents(l, forwardHost, events[0], events[1..] + [e], Next(l', forwardHost, e));
    }
  }

  // ----- the class -----

  class ALinker {
    const codec: Codec  // the format of the printer
    const forwardHost: Bytes  // empty when requests go to the host they name
    var messages: seq<Cell>
    var readerMsg: nat
    var connected: bool
    var writer: Option<Writer>
    var responseQueue: seq<Pair>

    // every request read, every pair ever queued, the responses that are over, what has gone out
    ghost var arrived: seq<nat>
    ghost var pairs: seq<Pair>
    ghost var finished: seq<Finished>
    ghost var written: Bytes
    // the requests that upstream has accepted
    ghost var passed: set<nat>

    constructor (codec: Codec, forwardHost: Bytes)
      ensures this.forwardHost == forwardHost && Valid() && State() == Start(codec)
    {
      hide Ok;
      this.codec, this.forwardHost := codec, forwardHost;
      messages := [NewCell(true)];
      readerMsg := 0;
      connected := false;
      writer := None;
      responseQueue := [];
      arrived, pairs, finished, written, passed := [0], [], [], [], {};
      new;
      StartOk(codec);
    }

    ghost function State(): (l: Linker)
      reads this
    {
      Linker(Line(codec, messages, responseQueue, writer, finished, written),
             readerMsg, connected, arrived, pairs, passed)
    }

    ghost predicate Valid()
      reads this
    {
      Ok(State())
    }

    method GetWriteSize() returns (n: nat)
      requires Valid()
      modifies this
      ensures Valid() && State() == old(State()).(line := Polled(old(State()).line))
      ensures n == if writer.Some? then |writer.value.printer.Data()| else 0
      decreases |responseQueue|
    {
      hide Core, LookedFor, WithWriter, Sent, SentWhole;
      ghost var l := State();
      PolledOk(l);
      if responseQueue == [] {
        return 0;
      }
      LookedOk(l);
      n := Look();
      if n == 0 && Sent(messages[responseQueue[0].req].held) && Sent(messages[responseQueue[0].res].held) {
        RetiredOk(State());
        Pop();
        n := GetWriteSize();
      }
    }

    /** The printer of the first response, made if need be, looks for more to print. */
    method Look() returns (n: nat)
      requires InRange(State().line) && responseQueue != []
      modifies this`messages, this`writer
      ensures State() == old(State()).(line := LookedFor(WithWriter(old(State()).line)))
      ensures writer.Some? && n == |writer.value.printer.Data()|
    {
      hide Looked;
      if writer.None? {
        writer := Some(NewWriter(codec));
      }
      var msgRes := responseQueue[0].res;
      var (c, w) := Looked(messages[msgRes], writer.value);
      messages := messages[msgRes := c];
      writer := Some(w);
      n := |w.printer.Data()|;
    }

    method Pop()
      requires InRange(State().line) && writer.Some?
      modifies this`responseQueue, this`writer, this`finished
      ensures State() == old(State()).(line := Retired(old(State()).line))
      ensures |responseQueue| < old(|responseQueue|)
    {
      var msgRes := responseQueue[0].res;
      finished := finished + [Finished(msgRes, messages[msgRes].added, writer.value.sent)];
      responseQueue := responseQueue[1..];
      writer := None;
    }

    method Write(s: Sockets.Socket, max: nat) returns (amt: nat)
      requires Valid() && writer.Some?
      modifies this, s`outgoing
      ensures Valid() && amt <= max
      ensures amt <= |LookedFor(old(State()).line).writer.value.printer.Data()|
      ensures State() == old(State()).(line := Written(old(State()).line, amt))
      ensures s.outgoing == old(s.outgoing) + LookedFor(old(State()).line).writer.value.printer.Data()[..amt]
    {
      hide Core, Looked;
      ghost var l := State();
      var res := responseQueue[0].res;
      var (c, w) := Looked(messages[res], writer.value);
      var data := w.printer.Data();
      var most := Sockets.Min(|data|, max);
      amt := s.Send(data[..most]);
      assert data[..most][..amt] == data[..amt];
      WrittenOk(l, amt);
      messages := messages[res := c];
      writer := Some(SentOn(w, amt));
      written := written + data[..amt];
    }

    method AppendResponse(res: Cell)
      requires Reading(State())
      modifies this
      ensures State() == Answered(old(State()), res)
    {
      messages := messages + [res];
      responseQueue := responseQueue + [Pair(readerMsg, |messages| - 1)];
      pairs := pairs + [Pair(readerMsg, |messages| - 1)];
      connected := true;
    }

    /** The request goes upstream as soon as it is known where to; upstream accepts it or does not. */
    method Connect(accepted: bool)
      requires Reading(State())
      modifies this
      ensures State() == Connected(old(State()), forwardHost, accepted)
    {
      hide HostOf, Generated, Answered;
      var m := messages[readerMsg].held;
      if !connected && m.verb != Http.VERB_UNKNOWN && m.url != [] {
        var endpoint := if forwardHost != [] then forwardHost else HostOf(m.headers);
        if endpoint != [] {
          if accepted {
            passed := passed + {readerMsg};
          }
          AppendResponse(if accepted then NewCell(false) else GeneratedCell(504, NO_UPSTREAM));
        }
      }
    }

    /** One readiness event: the reader adds `d` to the current request, and upstream, if it is
        asked, accepts the request or does not. Tunnels are not modelled. */
    method Read(d: Msg, accepted: bool)
      requires Valid()
      requires Fills(messages[readerMsg].held, d) && d.verb != Http.VERB_CONNECT
      modifies this
      ensures Valid() && State() == ReadMore(old(State()), forwardHost, d, accepted)
    {
      hide Core, Connected, Completed, Fills, Filled;
      ghost var l := State();
      ReadMoreOk(l, forwardHost, d, accepted);
      messages := messages[readerMsg := Filled(messages[readerMsg], d)];
      Connect(accepted);
      Complete();
    }

    method Complete()
      requires Reading(State())
      modifies this
      ensures State() == Completed(old(State()))
    {
      hide Generated, Answered;
      if messages[readerMsg].held.stage == DONE {
        if !connected {
          AppendResponse(GeneratedCell(400, NO_HOST));
        }
        connected := false;
        messages := messages + [NewCell(true)];
        readerMsg := |messages| - 1;
        arrived := arrived + [readerMsg];
      }
    }
  }
}
