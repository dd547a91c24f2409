/** The whole proxy, with one client and the pool of connections upstream: for every request that the
    pool accepts, a copier stands between the client's messages and those of the linker that took it. */
module Relay {
  import opened Basics
  import opened Codecs
  import opened Messages
  import opened Octets
  import opened Pipeline
  import C = MessageCopier
  import G = GnyFormat
  import GnySource
  import H = Http11Format
  import Http
  import L = ReqLinkers
  import P = ProxyLinker
  import R = Requester
  import Sockets

  /** What upstream has said in answer to a request: the message as far as it has been read, the bytes
      that were taken off the stream for it, and whether no read has cut a value. */
  datatype Told = Told(msg: Msg, got: Bytes, clean: bool)

  /** A generator of the pool is the copier of one pair of the client, and goes by the place of that
      pair among all pairs ever queued. */
  datatype Relay = Relay(client: P.Linker, pool: R.Pool, told: map<nat, Told>)

  function Start(codec: Codec, upstream: Codec, mux: bool, max: nat): (r: Relay) {
    Relay(P.Start(codec), R.Empty(upstream, mux, max), map[])
  }

  predicate HasPlace(r: Relay, k: nat) {
    && k < |r.client.pairs|
    && r.client.pairs[k].req < |r.client.line.messages| && r.client.pairs[k].res < |r.client.line.messages|
  }

  function ReqOf(r: Relay, k: nat): (c: Cell)
    requires HasPlace(r, k)
  {
    r.client.line.messages[r.client.pairs[k].req]
  }

  function ResOf(r: Relay, k: nat): (c: Cell)
    requires HasPlace(r, k)
  {
    r.client.line.messages[r.client.pairs[k].res]
  }

  // ----- what each call does -----

  function Beyond<T>(s: seq<T>, n: nat): (r: seq<T>) {
    if n <= |s| then s[n..] else []
  }

  /** What its copier has not yet taken of a response. */
  function Untaken(m: Msg, c: L.Counts): (r: Msg) {
    m.(headers := Beyond(m.headers, c.headers),
       entity := Beyond(m.entity, c.entity),
       footers := Beyond(m.footers, c.footers))
  }

  /** Which parts a copy takes from its source. */
  function Takes(src: Msg, dst: Msg): (take: L.Take) {
    L.Take(
      dst.stage == HEADER,
      dst.stage.AtMost(ENTITY) && ENTITY.AtMost(src.stage),
      dst.stage.AtMost(FOOTER) && FOOTER.AtMost(src.stage))
  }

  /** A live linker, whose copier, if it has one, has its messages in place. */
  predicate Callable(r: Relay, id: nat) {
    && id in r.pool.linkers
    && (r.pool.linkers[id].linker.talk.Some? ==> HasPlace(r, r.pool.linkers[id].linker.talk.value.gen))
  }

  /** `get_write_size` of a linker upstream: its copier brings its request up to date. */
  function Asked(r: Relay, id: nat): (r': Relay)
    requires Callable(r, id)
  {
    var l := r.pool.linkers[id].linker;
    if l.talk.None? then r
    else
      var t := l.talk.value;
      var src, dst := ReqOf(r, t.gen).held, t.out.held;
      r.(client := r.client.(line := TakenAt(r.client.line, r.client.pairs[t.gen].req, C.Left(src, dst))),
         pool := R.Moved(r.pool, id, L.Polled(l, C.Copied(src, dst))))
  }

  /** `read` of a linker upstream: its reader sees a chunk, and its copier brings the client's
      response up to date. */
  function Heard(r: Relay, id: nat, chunk: Bytes): (r': Relay)
    requires Callable(r, id)
  {
    var l := r.pool.linkers[id].linker;
    if l.talk.None? then r
    else
      var t := l.talk.value;
      var (reader, n) := AfterRead(t.reader, chunk);
      var src, dst := Untaken(reader.Message(), t.taken), ResOf(r, t.gen).held;
      Relay(
        r.client.(line := FilledAt(r.client.line, r.client.pairs[t.gen].res, C.Copied(src, dst))),
        R.Moved(r.pool, id, L.ReadMore(l, chunk, Takes(src, dst))),
        r.told[t.gen := Told(reader.Message(), t.got + chunk[..n], t.clean && !CutsValue(t.reader, chunk))])
  }

  datatype Event =
    // calls on the client's connection
    | Poll
    | Write(n: nat)
    | Read(d: Msg, endpoint: R.Endpoint, reachable: bool, ok: bool)
    // calls on a linker upstream, and the end of a connection upstream
    | Ask(id: nat)
    | Send(id: nat, n: nat)
    | Hear(id: nat, chunk: Bytes)
    | Close(conn: nat)

  /** The client's reader adds d to the current request. If it is known by then where the request is to
      go, a copier for it is offered to the pool, which may have to make a connection. */
  ghost predicate ReadStep(
    r: Relay, forwardHost: Bytes, d: Msg, endpoint: R.Endpoint, reachable: bool, ok: bool, r': Relay)
    requires P.Enabled(r.client, P.Event.Read(d, ok))
  {
    var l := r.client.(line := FilledAt(r.client.line, r.client.readerMsg, d));
    var k := |r.client.pairs|;
    && r'.client == P.Next(r.client, forwardHost, P.Event.Read(d, ok))
    && if P.Connects(l, forwardHost) then
         && endpoint.host == P.Target(forwardHost, l.line.messages[l.readerMsg].held.headers)
         && R.AddStep(r.pool, endpoint, k, reachable, ok, r'.pool)
         && r'.told == (if ok then r.told[k := Told(Blank(false), [], true)] else r.told)
       else r'.pool == r.pool && r'.told == r.told
  }

  ghost predicate Step(r: Relay, forwardHost: Bytes, e: Event, r': Relay) {
    match e
    case Poll =>
      P.Enabled(r.client, P.Event.Poll) && r' == r.(client := P.Next(r.client, forwardHost, P.Event.Poll))
    case Write(n) =>
      P.Enabled(r.client, P.Event.Write(n)) && r' == r.(client := P.Next(r.client, forwardHost, P.Event.Write(n)))
    case Read(d, endpoint, reachable, ok) =>
      && P.Enabled(r.client, P.Event.Read(d, ok))
      && ReadStep(r, forwardHost, d, endpoint, reachable, ok, r')
    case Ask(id) => Callable(r, id) && r' == Asked(r, id)
    case Send(id, n) =>
      && id in r.pool.linkers && n <= |L.ToSend(r.pool.linkers[id].linker)|
      && r' == r.(pool := R.Moved(r.pool, id, L.Wrote(r.pool.linkers[id].linker, n)))
    case Hear(id, chunk) =>
      Callable(r, id) && L.CanRead(r.pool.linkers[id].linker, chunk) && r' == Heard(r, id, chunk)
    case Close(conn) => conn in r.pool.conns && r' == r.(pool := R.Closed(r.pool, conn))
  }

  ghost predicate Reaches(r: Relay, forwardHost: Bytes, events: seq<Event>, r': Relay)
    decreases |events|
  {
    if events == [] then r == r'
    else exists q :: Step(r, forwardHost, events[0], q) && Reaches(q, forwardHost, events[1..], r')
  }

  // ----- the invariant -----

  /** The same message: what one of its kind does not have may differ. */
  predicate SameMessage(a: Msg, b: Msg) {
    && C.SameLine(a, b) && a.stage == b.stage
    && a.headers == b.headers && a.entity == b.entity && a.footers == b.footers
  }

  /** What upstream has said is what the bytes taken off its stream mean. */
  ghost predicate ToldRight(codec: Codec, told: Told) {
    && Alike(codec, told.msg, L.Parsed(codec, told.got).Message())
    && (told.clean ==> told.msg == L.Parsed(codec, told.got).Message())
    && (told.msg.stage == DONE ==> Complete(NewReader(codec, false), told.got))
  }

  predicate WellBegun(reader: Reader) {
    match reader
    case GnyReader(gny) => G.WellBegun(gny.g)
    case Http11Reader(p) => H.WellBegun(p)
  }

  /** The copier's two links: the client's request to the linker's, and the linker's response to the
      client's. */
  function Outward(req: Cell, t: L.Talk): (l: C.Link) {
    C.Link(req.added, req.held, t.out.added, t.out.held)
  }

  function Homeward(t: L.Talk, res: Cell): (l: C.Link) {
    C.Link(t.reader.Message(), Untaken(t.reader.Message(), t.taken), res.added, res.held)
  }

  predicate AskedRight(req: Cell, t: L.Talk) {
    && StartKnown(req.held) && C.Conserved(Outward(req, t))
    && (t.out.added == Blank(true) || C.SameLine(req.held, t.out.held))
  }

  predicate AnsweredRight(t: L.Talk, res: Cell, told: Told) {
    && told == Told(t.reader.Message(), t.got, t.clean) && WellBegun(t.reader)
    && C.Conserved(Homeward(t, res)) && C.InStep(Homeward(t, res))
  }

  /** A request that is over has gone upstream whole, and its answer is what its reader has read. */
  predicate ServedRight(req: Cell, x: L.Exchange, told: Told) {
    SameMessage(x.request, req.added) && x.request.stage == DONE && told == Told(x.response, x.got, x.clean)
  }

  /** What a linker does for a generator. */
  predicate Serving(l: L.Linker, k: nat, req: Cell, res: Cell, told: Told) {
    && (l.talk.Some? && l.talk.value.gen == k ==>
         AskedRight(req, l.talk.value) && AnsweredRight(l.talk.value, res, told))
    && (forall j :: 0 <= j < |l.past| && l.past[j].gen == k ==> ServedRight(req, l.past[j], told))
  }

  /** The client's response is what upstream has said, and the linker that took the request serves it. */
  ghost predicate Carried(r: Relay, k: nat) {
    && HasPlace(r, k) && k in r.told && k in r.pool.owner
    && ToldRight(r.pool.codec, r.told[k]) && SameMessage(r.told[k].msg, ResOf(r, k).added)
    && (r.pool.owner[k] in r.pool.linkers ==>
         Serving(r.pool.linkers[r.pool.owner[k]].linker, k, ReqOf(r, k), ResOf(r, k), r.told[k]))
  }

  /** The pairs that the pool has accepted are those with a copier. */
  predicate Matched(r: Relay) {
    && (forall k :: k in r.pool.owner ==> k < |r.client.pairs|)
    && (forall k :: 0 <= k < |r.client.pairs| ==>
         (r.client.pairs[k].req in r.client.accepted <==> k in r.pool.owner))
  }

  /** Each pair has a response of its own. */
  predicate Apart(l: P.Linker) {
    && (forall k :: 0 <= k < |l.pairs| ==>
         l.pairs[k].res < |l.line.messages| && !l.line.messages[l.pairs[k].res].held.isRequest)
    && (forall i, j :: 0 <= i < j < |l.pairs| ==> l.pairs[i].res != l.pairs[j].res)
  }

  /** A response that is over stays as it was. */
  predicate Settled(l: Line) {
    forall k :: 0 <= k < |l.finished| ==>
      && l.finished[k].res < |l.messages| && l.finished[k].msg.stage == DONE
      && l.messages[l.finished[k].res].added == l.finished[k].msg
  }

  /** Nobody has taken anything from a request that has not been passed on. */
  predicate Untouched(l: P.Linker) {
    && l.readerMsg < |l.line.messages| && (forall a :: a in l.accepted ==> a < |l.line.messages|)
    && (!l.connected ==>
         && l.readerMsg !in l.accepted
         && l.line.messages[l.readerMsg].held == l.line.messages[l.readerMsg].added)
  }

  ghost predicate Ok(r: Relay) {
    && P.Ok(r.client) && R.PoolOk(r.pool) && Matched(r) && Apart(r.client) && Settled(r.client.line)
    && Untouched(r.client) && r.told.Keys == r.pool.owner.Keys
    && forall k :: k in r.pool.owner ==> Carried(r, k)
  }

  // ----- what happens to one request and its response -----

  /** A printer has taken something out of a message. */
  predicate Drained(c: Cell, c': Cell) {
    && c'.added == c.added
    && (Backlog(c.added, c.held) ==>
         Backlog(c.added, c'.held) && c'.held.stage == c.held.stage && SameStart(c'.held, c.held))
  }

  lemma LookDrains(c: Cell, w: Writer)
    ensures Drained(c, Looked(c, w).0)
  {
    hide Updated, Backlog;
    if Backlog(c.added, c.held) {
      UpdateDrains(c.added, c.held, w.printer);
    }
  }

  lemma LinkDrained(l: C.Link, c': Cell)
    requires C.Conserved(l) && Drained(Cell(l.dstAdded, l.dst), c')
    ensures C.Conserved(l.(dst := c'.held)) && (C.InStep(l) ==> C.InStep(l.(dst := c'.held)))
  {
    hide Suffix;
  }

  lemma HomewardDrained(t: L.Talk, res: Cell, told: Told, res': Cell)
    requires AnsweredRight(t, res, told) && Drained(res, res')
    ensures AnsweredRight(t, res', told)
  {
    hide C.Conserved, C.InStep, Drained, WellBegun;
    assert Drained(Cell(res.added, res.held), res');
    LinkDrained(Homeward(t, res), res');
    assert res'.added == res.added by { DrainedAdded(res, res'); }
  }

  lemma DrainedAdded(c: Cell, c': Cell)
    requires Drained(c, c')
    ensures c'.added == c.added
  {}

  lemma OutwardDrained(req: Cell, t: L.Talk, t': L.Talk)
    requires AskedRight(req, t) && Drained(t.out, t'.out)
    ensures AskedRight(req, t')
  {
    hide C.Conserved, C.InStep, Drained, StartKnown;
    assert Drained(Cell(t.out.added, t.out.held), t'.out);
    LinkDrained(Outward(req, t), t'.out);
    DrainedAdded(t.out, t'.out);
    LinkStarts(Outward(req, t));
    DrainedStart(t.out, t'.out);
  }

  lemma LinkStarts(l: C.Link)
    requires C.Conserved(l)
    ensures Backlog(l.srcAdded, l.src) && Backlog(l.dstAdded, l.dst)
  {}

  lemma DrainedStart(c: Cell, c': Cell)
    requires Drained(c, c') && Backlog(c.added, c.held)
    ensures SameStart(c'.held, c.held)
  {}

  /** The client adds to a request that has been passed on. */
  lemma OutwardFilled(req: Cell, t: L.Talk, d: Msg)
    requires AskedRight(req, t) && Fills(req.held, d)
    ensures AskedRight(Filled(req, d), t)
  {
    hide C.Conserved;
    C.FillConserves(Outward(req, t), d);
    assert SameStart(req.held, Grown(req.held, d));
  }

  /** The copier brings the linker's request up to date. */
  lemma OutwardCopied(req: Cell, t: L.Talk)
    requires AskedRight(req, t)
    ensures var d, left := C.Copied(req.held, t.out.held), C.Left(req.held, t.out.held);
      && Fills(t.out.held, d) && TakenFrom(req.held, left)
      && AskedRight(req.(held := left), t.(out := Filled(t.out, d)))
  {
    hide Fills, C.InStep, Backlog;
    C.CopyFills(Outward(req, t));
    C.CopyConserves(Outward(req, t));
    StartsMeet(Outward(req, t));
    hide C.Conserved;
  }

  /** After a copy source and destination have the same start line. */
  lemma StartsMeet(l: C.Link)
    requires C.Conserved(l)
    ensures C.SameLine(C.Left(l.src, l.dst), Grown(l.dst, C.Copied(l.src, l.dst)))
  {
    hide Backlog;
  }

  /** Whatever a reader is given, what it does to its message is a legal filling. */
  lemma ReadFills(r: Reader, chunk: Bytes)
    requires WellBegun(r)
    ensures var r' := AfterRead(r, chunk).0; WellBegun(r') && FilledTo(r.Message(), r'.Message())
  {
    hide FilledTo, G.WellBegun, H.WellBegun, H.Run, GnySource.Scan;
    match r
    case GnyReader(gny) => GnySource.ScanFills(gny, chunk);
    case Http11Reader(p) => H.RunFills(p, chunk);
  }

  /** What a reader adds to a message of which everything has been taken is what has not been. */
  lemma NewIsUntaken(m: Msg, m': Msg, c: L.Counts)
    requires FilledTo(m, m') && Backlog(m, Untaken(m, c))
    requires c.headers <= |m.headers| && c.entity <= |m.entity| && c.footers <= |m.footers|
    requires var rest := Untaken(m, c); rest.headers == [] && rest.entity == [] && rest.footers == []
    ensures var d := Added(m, m');
      Fills(Untaken(m, c), d) && Untaken(m', c) == Grown(Untaken(m, c), d) && m' == Grown(m, d)
  {
    hide Suffix;
    FillsHeld(m, Untaken(m, c), Added(m, m'));
    hide Fills;
    assert |m.headers| == c.headers && |m.entity| == c.entity && |m.footers| == c.footers;
  }

  lemma LeftIsUntaken(m: Msg, c: L.Counts, dst: Msg)
    ensures var src := Untaken(m, c);
      Untaken(m, L.AfterTake(c, m, Takes(src, dst))) == C.Left(src, dst)
  {}

  /** Upstream's response goes on, and the copier brings the client's up to date. */
  lemma HomewardRead(t: L.Talk, res: Cell, told: Told, chunk: Bytes)
    requires AnsweredRight(t, res, told)
    requires var m := t.reader.Message();
      t.taken.headers <= |m.headers| && t.taken.entity <= |m.entity| && t.taken.footers <= |m.footers|
    ensures var (reader, n) := AfterRead(t.reader, chunk);
      var src := Untaken(reader.Message(), t.taken);
      var d := C.Copied(src, res.held);
      var t' := t.(reader := reader, got := t.got + chunk[..n],
                   taken := L.AfterTake(t.taken, reader.Message(), Takes(src, res.held)),
                   clean := t.clean && !CutsValue(t.reader, chunk));
      Fills(res.held, d) && AnsweredRight(t', Filled(res, d), Told(reader.Message(), t'.got, t'.clean))
  {
    hide Fills, Backlog, WellBegun, AfterRead, CutsValue, FilledTo;
    var l := Homeward(t, res);
    var reader := AfterRead(t.reader, chunk).0;
    ReadFills(t.reader, chunk);
    LinkStarts(l);
    NewIsUntaken(t.reader.Message(), reader.Message(), t.taken);
    C.FillConserves(l, Added(t.reader.Message(), reader.Message()));
    var l1 := C.Link(reader.Message(), Untaken(reader.Message(), t.taken), res.added, res.held);
    LeftIsUntaken(reader.Message(), t.taken, res.held);
    C.CopyFills(l1);
    C.CopyConserves(l1);
    C.CopyInStep(l1);
    hide C.Conserved, C.InStep;
  }

  // ----- what a linker does for its generators -----

  lemma OverServes(req: Cell, res: Cell, t: L.Talk, told: Told)
    requires AskedRight(req, t) && AnsweredRight(t, res, told) && Sent(t.out.held)
    ensures ServedRight(req, L.Over(t), told)
  {
    hide Suffix, C.InStep, WellBegun;
    var l := Outward(req, t);
    assert l.dstAdded.headers + [] == l.dstAdded.headers;
    assert l.dstAdded.entity + [] == l.dstAdded.entity;
    assert l.dstAdded.footers + [] == l.dstAdded.footers;
  }

  /** However a call ends, its generator has been served as it should. */
  lemma CheckedServes(l: L.Linker, req: Cell, res: Cell, told: Told)
    requires l.talk.Some? && R.OnceEach(l)
    requires AskedRight(req, l.talk.value) && AnsweredRight(l.talk.value, res, told)
    ensures Serving(L.Checked(l), l.talk.value.gen, req, res, told)
  {
    hide AskedRight, ServedRight, Looked, Drained, WellBegun, C.Conserved, C.InStep, L.Everything;
    var t := l.talk.value;
    LookDrains(t.out, t.writer);
    OutwardDrained(req, t, L.TalkLooked(t));
    if L.IsDone(L.TalkLooked(t)) {
      OverServes(req, res, L.TalkLooked(t), told);
    }
  }

  /** A call for one generator does not change what the linker has done for others. */
  lemma OthersServed(l: L.Linker, l': L.Linker, k: nat, req: Cell, res: Cell, told: Told)
    requires Serving(l, k, req, res, told) && L.GoesOn(l, l')
    requires l.talk.Some? && l.talk.value.gen != k
    ensures Serving(l', k, req, res, told)
  {
    hide AskedRight, AnsweredRight, ServedRight;
    assert forall j :: 0 <= j < |l.past| ==> l'.past[j] == l.past[j];
  }

  lemma ToldFollows(l: L.Linker, k: nat, req: Cell, res: Cell, told: Told)
    requires L.LinkerOk(l) && Serving(l, k, req, res, told) && R.Serves(l, k)
    ensures ToldRight(l.codec, told)
  {
    hide AskedRight, C.Conserved, C.InStep, WellBegun, Alike, Complete, L.Parsed, SameMessage, L.TalkOk, Safe, SentAs;
    if l.talk.Some? && l.talk.value.gen == k {
      var t := l.talk.value;
      L.ReadIsAlike(l.codec, t);
      if t.reader.Message().stage == DONE {
        L.WholeResponse(l.codec, t);
      }
    } else {
      var j :| 0 <= j < |l.past| && l.past[j].gen == k;
      assert L.ExchangeOk(l.codec, l.past[j]);
    }
  }

  lemma AskServes(l: L.Linker, req: Cell, res: Cell, told: Told)
    requires l.talk.Some? && R.OnceEach(l) && Serving(l, l.talk.value.gen, req, res, told)
    ensures var dst := l.talk.value.out.held;
      var d, left := C.Copied(req.held, dst), C.Left(req.held, dst);
      && Fills(dst, d) && TakenFrom(req.held, left)
      && Serving(L.Polled(l, d), l.talk.value.gen, req.(held := left), res, told)
  {
    hide AskedRight, ServedRight, L.Checked, Looked, Drained, Fills, TakenFrom, WellBegun, C.Conserved, C.InStep;
    hide C.Copied, C.Left;
    var t := l.talk.value;
    OutwardCopied(req, t);
    var req' := req.(held := C.Left(req.held, t.out.held));
    var t' := t.(out := Filled(t.out, C.Copied(req.held, t.out.held)));
    LookDrains(t'.out, t'.writer);
    OutwardDrained(req', t', L.TalkLooked(t'));
    CheckedServes(l.(talk := Some(L.TalkLooked(t'))), req', res, told);
  }

  lemma SendServes(l: L.Linker, n: nat, req: Cell, res: Cell, told: Told)
    requires l.talk.Some? && R.OnceEach(l) && Serving(l, l.talk.value.gen, req, res, told)
    requires n <= |L.ToSend(l)|
    ensures Serving(L.Wrote(l, n), l.talk.value.gen, req, res, told)
  {
    hide AskedRight, ServedRight, L.Checked, Looked, Drained, WellBegun, C.Conserved, C.InStep;
    LookDrains(l.talk.value.out, l.talk.value.writer);
    var t := L.TalkLooked(l.talk.value);
    OutwardDrained(req, l.talk.value, t);
    var t' := t.(writer := SentOn(t.writer, n));
    SameOut(req, t, t');
    CheckedServes(l.(talk := Some(t'), written := l.written + L.ToSend(l)[..n]), req, res, told);
  }

  lemma SameOut(req: Cell, t: L.Talk, t': L.Talk)
    requires AskedRight(req, t) && t'.out == t.out
    ensures AskedRight(req, t')
  {}

  lemma HearServes(l: L.Linker, chunk: Bytes, req: Cell, res: Cell, told: Told)
    requires l.talk.Some? && R.OnceEach(l) && Serving(l, l.talk.value.gen, req, res, told)
    requires L.TalkOk(l.codec, l.talk.value)
    ensures var t := l.talk.value;
      var (reader, n) := AfterRead(t.reader, chunk);
      var src := Untaken(reader.Message(), t.taken);
      var d := C.Copied(src, res.held);
      && Fills(res.held, d)
      && Serving(L.ReadMore(l, chunk, Takes(src, res.held)), t.gen, req, Filled(res, d),
                 Told(reader.Message(), t.got + chunk[..n], t.clean && !CutsValue(t.reader, chunk)))
      && SameMessage(reader.Message(), Filled(res, d).added)
  {
    hide AskedRight, AnsweredRight, ServedRight, L.Checked, Fills, AfterRead, CutsValue, C.Copied, Untaken, Takes;
    hide L.AfterTake, L.ReadSoFar, Working, Kept, SameMessage, Filled;
    var t := l.talk.value;
    HomewardRead(t, res, told, chunk);
    var (reader, n) := AfterRead(t.reader, chunk);
    var src := Untaken(reader.Message(), t.taken);
    var t' := t.(reader := reader, got := t.got + chunk[..n],
                 taken := L.AfterTake(t.taken, reader.Message(), Takes(src, res.held)),
                 clean := t.clean && !CutsValue(t.reader, chunk));
    SameOut(req, t, t');
    var told' := Told(reader.Message(), t'.got, t'.clean);
    CheckedServes(l.(talk := Some(t'), read := l.read + chunk[..n]), req, Filled(res, C.Copied(src, res.held)), told');
    InStepIsSame(t', Filled(res, C.Copied(src, res.held)), told');
  }

  lemma InStepIsSame(t: L.Talk, res: Cell, told: Told)
    requires AnsweredRight(t, res, told)
    ensures SameMessage(told.msg, res.added)
  {
    hide Suffix, WellBegun;
  }

  // ----- every call keeps the proxy in order -----

  lemma Places(l: P.Linker, k: nat)
    requires P.Ok(l) && Apart(l) && k < |l.pairs|
    ensures l.pairs[k].req < |l.line.messages| && l.pairs[k].res < |l.line.messages|
    ensures l.line.messages[l.pairs[k].req].held.isRequest && !l.line.messages[l.pairs[k].res].held.isRequest
    ensures k < |l.arrived| && l.pairs[k].req == l.arrived[k] <= l.readerMsg
    ensures k < |l.line.finished| ==> l.line.finished[k].res == l.pairs[k].res
    ensures k >= |l.line.finished| ==>
      k - |l.line.finished| < |l.line.queue| && l.line.queue[k-|l.line.finished|] == l.pairs[k]
  {
    hide Sound, Kept;
  }

  /** Different pairs have different messages. */
  lemma PlacesDiffer(l: P.Linker, i: nat, j: nat)
    requires P.Ok(l) && Apart(l) && i < |l.pairs| && j < |l.pairs| && i != j
    ensures l.pairs[i].req != l.pairs[j].req && l.pairs[i].res != l.pairs[j].res
  {
    hide Sound, Kept;
    assert l.arrived[i] != l.arrived[j] by {
      assert i < j ==> l.arrived[i] < l.arrived[j];
      assert j < i ==> l.arrived[j] < l.arrived[i];
    }
  }

  lemma OwnedHere(p: R.Pool, id: nat, k: nat)
    requires R.PoolOk(p) && id in p.linkers && R.Serves(p.linkers[id].linker, k)
    ensures k in p.owner && p.owner[k] == id
  {
    hide L.LinkerOk, R.Serves, R.OnceEach;
  }

  lemma LinkerOf(p: R.Pool, id: nat)
    requires R.PoolOk(p) && id in p.linkers
    ensures var l := p.linkers[id].linker;
      && L.LinkerOk(l) && l.codec == p.codec && R.OnceEach(l)
      && (l.talk.Some? ==> L.TalkOk(l.codec, l.talk.value) && R.Serves(l, l.talk.value.gen))
  {
    hide L.TalkOk, L.ExchangeOk, R.OnceEach;
  }

  /** A linker at work for a generator, which has its place among the pairs of the client. */
  predicate WorksFor(r: Relay, id: nat, g: nat) {
    && id in r.pool.linkers && r.pool.linkers[id].linker.talk.Some?
    && r.pool.linkers[id].linker.talk.value.gen == g && HasPlace(r, g) && g in r.told
  }

  lemma AtWorkFor(r: Relay, id: nat, g: nat)
    requires Ok(r) && id in r.pool.linkers && r.pool.linkers[id].linker.talk.Some?
    requires r.pool.linkers[id].linker.talk.value.gen == g
    ensures WorksFor(r, id, g) && Carried(r, g) && r.pool.owner[g] == id
    ensures r.client.pairs[g].req in r.client.accepted
  {
    hide P.Ok, R.PoolOk, Apart, Settled, Untouched, Serving, ToldRight, SameMessage;
    LinkerOf(r.pool, id);
    OwnedHere(r.pool, id, g);
    assert Carried(r, g);
  }

  /** A call on a linker changes the messages of its generator only. */
  predicate OnlyAt(r: Relay, r': Relay, g: nat)
    requires HasPlace(r, g)
  {
    var l, l' := r.client.line, r'.client.line;
    && r'.client == r.client.(line := l') && |l'.messages| == |l.messages|
    && l'.queue == l.queue && l'.finished == l.finished
    && (forall i :: 0 <= i < |l.messages| ==>
         && l'.messages[i].held.isRequest == l.messages[i].held.isRequest
         && (i != r.client.pairs[g].req && i != r.client.pairs[g].res ==> l'.messages[i] == l.messages[i]))
    && r'.told.Keys == r.told.Keys && forall k :: k in r.told && k != g ==> r'.told[k] == r.told[k]
  }

  /** What a call on a linker has done, but for what it means to its generator. */
  ghost predicate Called(r: Relay, r': Relay, id: nat, g: nat) {
    && WorksFor(r, id, g) && OnlyAt(r, r', g) && id in r'.pool.linkers
    && L.GoesOn(r.pool.linkers[id].linker, r'.pool.linkers[id].linker)
    && r'.pool == R.Moved(r.pool, id, r'.pool.linkers[id].linker)
  }

  lemma OthersCarried(r: Relay, r': Relay, id: nat, g: nat, k: nat)
    requires Called(r, r', id, g) && Carried(r, k) && k != g
    requires P.Ok(r.client) && Apart(r.client)
    ensures Carried(r', k)
  {
    hide P.Ok, Apart, Serving, ToldRight, SameMessage, L.GoesOn, R.At;
    Places(r.client, k);
    Places(r.client, g);
    PlacesDiffer(r.client, k, g);
    if r.pool.owner[k] == id {
      OthersServed(r.pool.linkers[id].linker, r'.pool.linkers[id].linker, k, ReqOf(r, k), ResOf(r, k), r.told[k]);
    }
  }

  lemma CallOk(r: Relay, r': Relay, id: nat, g: nat)
    requires Ok(r) && Called(r, r', id, g) && R.PoolOk(r'.pool)
    requires HasPlace(r', g) && g in r'.told && SameMessage(r'.told[g].msg, ResOf(r', g).added)
    requires Serving(r'.pool.linkers[id].linker, g, ReqOf(r', g), ResOf(r', g), r'.told[g])
    requires P.Ok(r'.client) && Settled(r'.client.line) && Untouched(r'.client)
    ensures Ok(r')
  {
    hide P.Ok, R.PoolOk, Settled, Untouched, Serving, ToldRight, SameMessage, Carried, Called, Matched, Apart;
    CalledKeeps(r, r', id, g);
    forall k | k in r.pool.owner && k != g ensures Carried(r', k) {
      OthersCarried(r, r', id, g, k);
    }
    GeneratorCarried(r, r', id, g);
  }

  lemma CalledKeeps(r: Relay, r': Relay, id: nat, g: nat)
    requires Called(r, r', id, g) && Matched(r) && Apart(r.client)
    ensures Matched(r') && Apart(r'.client) && r'.told.Keys == r.told.Keys && r'.pool.owner == r.pool.owner
  {
    hide L.GoesOn, R.At;
  }

  lemma StillServes(p: R.Pool, id: nat, l: L.Linker)
    requires R.PoolOk(p) && id in p.linkers && p.linkers[id].linker.talk.Some?
    requires L.GoesOn(p.linkers[id].linker, l)
    ensures R.Serves(l, p.linkers[id].linker.talk.value.gen)
  {
    hide L.LinkerOk, R.Serves, R.OnceEach, R.PoolOk, L.TalkOk;
    LinkerOf(p, id);
    R.GoesOnServes(p.linkers[id].linker, l);
  }

  lemma GeneratorCarried(r: Relay, r': Relay, id: nat, g: nat)
    requires R.PoolOk(r.pool) && Called(r, r', id, g) && R.PoolOk(r'.pool)
    requires HasPlace(r', g) && g in r'.told && SameMessage(r'.told[g].msg, ResOf(r', g).added)
    requires Serving(r'.pool.linkers[id].linker, g, ReqOf(r', g), ResOf(r', g), r'.told[g])
    ensures Carried(r', g)
  {
    hide R.PoolOk, ToldRight, SameMessage, Serving, L.GoesOn, R.Moved;
    var l := r'.pool.linkers[id].linker;
    LinkerOf(r'.pool, id);
    StillServes(r.pool, id, l);
    OwnedHere(r'.pool, id, g);
    ToldFollows(l, g, ReqOf(r', g), ResOf(r', g), r'.told[g]);
  }

  lemma ServedHere(r: Relay, id: nat, g: nat)
    requires R.PoolOk(r.pool) && WorksFor(r, id, g) && Carried(r, g)
    ensures var l := r.pool.linkers[id].linker;
      && L.LinkerOk(l) && R.OnceEach(l) && L.TalkOk(l.codec, l.talk.value)
      && Serving(l, g, ReqOf(r, g), ResOf(r, g), r.told[g]) && SameMessage(r.told[g].msg, ResOf(r, g).added)
  {
    hide R.PoolOk, Serving, ToldRight, SameMessage, L.TalkOk, R.OnceEach, L.LinkerOk;
    LinkerOf(r.pool, id);
    OwnedHere(r.pool, id, g);
  }

  /** A call on a linker as the pool sees it. */
  ghost predicate PoolCalled(p: R.Pool, p': R.Pool, id: nat) {
    && id in p.linkers && id in p'.linkers && R.PoolOk(p')
    && L.GoesOn(p.linkers[id].linker, p'.linkers[id].linker)
    && p' == R.Moved(p, id, p'.linkers[id].linker)
  }

  lemma PoolMoved(p: R.Pool, e: R.Event, id: nat, l: L.Linker)
    requires R.PoolOk(p) && id in p.linkers && R.Step(p, e, R.Moved(p, id, l))
    requires L.GoesOn(p.linkers[id].linker, l)
    ensures PoolCalled(p, R.Moved(p, id, l), id) && R.Moved(p, id, l).linkers[id].linker == l
  {
    hide R.PoolOk, R.Step, L.GoesOn, R.At;
    R.StepOk(p, e, R.Moved(p, id, l));
  }

  lemma AskPool(r: Relay, id: nat, g: nat)
    requires R.PoolOk(r.pool) && WorksFor(r, id, g) && Carried(r, g)
    ensures var t, req, p' := r.pool.linkers[id].linker.talk.value, ReqOf(r, g), Asked(r, id).pool;
      && TakenFrom(req.held, C.Left(req.held, t.out.held))
      && PoolCalled(r.pool, p', id)
      && Serving(p'.linkers[id].linker, g, req.(held := C.Left(req.held, t.out.held)), ResOf(r, g), r.told[g])
  {
    hide R.PoolOk, Serving, Carried, L.Polled, L.GoesOn, R.Moved, C.Copied, C.Left, Fills, TakenFrom, L.TalkOk;
    hide R.OnceEach, SameMessage, PoolCalled;
    var l := r.pool.linkers[id].linker;
    ServedHere(r, id, g);
    AskServes(l, ReqOf(r, g), ResOf(r, g), r.told[g]);
    var d := C.Copied(ReqOf(r, g).held, l.talk.value.out.held);
    L.CallsGoOn(l);
    PoolMoved(r.pool, R.Event.Poll(id, d), id, L.Polled(l, d));
  }

  lemma AskClient(r: Relay, id: nat, g: nat)
    requires P.Ok(r.client) && Apart(r.client) && Settled(r.client.line) && Untouched(r.client)
    requires WorksFor(r, id, g) && r.client.pairs[g].req in r.client.accepted
    requires var t, req := r.pool.linkers[id].linker.talk.value, ReqOf(r, g);
      TakenFrom(req.held, C.Left(req.held, t.out.held))
    ensures var t, req, r' := r.pool.linkers[id].linker.talk.value, ReqOf(r, g), Asked(r, id);
      && P.Ok(r'.client) && Settled(r'.client.line) && Untouched(r'.client) && OnlyAt(r, r', g) && HasPlace(r', g)
      && ReqOf(r', g) == req.(held := C.Left(req.held, t.out.held)) && ResOf(r', g) == ResOf(r, g)
  {
    hide P.Core, P.Incomplete, L.Polled, C.Copied, C.Left, TakenFrom, Apart;
    var left := C.Left(ReqOf(r, g).held, r.pool.linkers[id].linker.talk.value.out.held);
    Places(r.client, g);
    TakenFromKept(ReqOf(r, g), left);
    P.StepOk(r.client, [], P.Event.PassOn(r.client.pairs[g].req, left));
  }

  lemma AskOk(r: Relay, id: nat)
    requires Ok(r) && id in r.pool.linkers
    ensures Callable(r, id) && Ok(Asked(r, id))
  {
    hide P.Ok, R.PoolOk, Settled, Untouched, Serving, Matched, Apart, TakenFrom, SameMessage, Carried, OnlyAt;
    hide L.Polled, L.GoesOn, R.Moved, C.Copied, C.Left;
    var l := r.pool.linkers[id].linker;
    if l.talk.Some? {
      var g := l.talk.value.gen;
      AtWorkFor(r, id, g);
      AskPool(r, id, g);
      AskClient(r, id, g);
      ServedHere(r, id, g);
      CallOk(r, Asked(r, id), id, g);
    }
  }

  lemma SendPool(r: Relay, id: nat, g: nat, n: nat)
    requires R.PoolOk(r.pool) && WorksFor(r, id, g) && Carried(r, g) && n <= |L.ToSend(r.pool.linkers[id].linker)|
    ensures var p' := R.Moved(r.pool, id, L.Wrote(r.pool.linkers[id].linker, n));
      PoolCalled(r.pool, p', id) && Serving(p'.linkers[id].linker, g, ReqOf(r, g), ResOf(r, g), r.told[g])
  {
    hide R.PoolOk, Serving, Carried, L.Wrote, L.ToSend, L.GoesOn, R.Moved, L.TalkOk, R.OnceEach, SameMessage;
    hide PoolCalled;
    var l := r.pool.linkers[id].linker;
    ServedHere(r, id, g);
    SendServes(l, n, ReqOf(r, g), ResOf(r, g), r.told[g]);
    L.CallsGoOn(l);
    PoolMoved(r.pool, R.Event.Write(id, n), id, L.Wrote(l, n));
  }

  lemma SendOk(r: Relay, id: nat, n: nat)
    requires Ok(r) && id in r.pool.linkers && n <= |L.ToSend(r.pool.linkers[id].linker)|
    ensures Ok(r.(pool := R.Moved(r.pool, id, L.Wrote(r.pool.linkers[id].linker, n))))
  {
    hide P.Ok, R.PoolOk, Settled, Untouched, Serving, Matched, Apart, SameMessage, Carried;
    hide L.GoesOn, R.Moved, L.ToSend, L.Wrote;
    var l := r.pool.linkers[id].linker;
    if l.talk.Some? {
      var g := l.talk.value.gen;
      AtWorkFor(r, id, g);
      SendPool(r, id, g, n);
      ServedHere(r, id, g);
      CallOk(r, r.(pool := R.Moved(r.pool, id, L.Wrote(l, n))), id, g);
    } else {
      IdleSendsNothing(r.pool, id, n);
    }
  }

  lemma IdleSendsNothing(p: R.Pool, id: nat, n: nat)
    requires id in p.linkers && p.linkers[id].linker.talk.None? && n <= |L.ToSend(p.linkers[id].linker)|
    ensures R.Moved(p, id, L.Wrote(p.linkers[id].linker, n)) == p
  {
    L.NoneGoesOn(p.linkers[id].linker);
    R.NothingMoves(p, id, p.linkers[id].linker);
  }

  lemma HearPool(r: Relay, id: nat, g: nat, chunk: Bytes)
    requires R.PoolOk(r.pool) && WorksFor(r, id, g) && Carried(r, g) && L.CanRead(r.pool.linkers[id].linker, chunk)
    ensures var t, res, r' := r.pool.linkers[id].linker.talk.value, ResOf(r, g), Heard(r, id, chunk);
      var d := C.Copied(Untaken(AfterRead(t.reader, chunk).0.Message(), t.taken), res.held);
      && Fills(res.held, d) && PoolCalled(r.pool, r'.pool, id) && g in r'.told
      && Serving(r'.pool.linkers[id].linker, g, ReqOf(r, g), Filled(res, d), r'.told[g])
      && SameMessage(r'.told[g].msg, Filled(res, d).added)
  {
    hide R.PoolOk, Serving, Carried, L.ReadMore, L.CanRead, L.GoesOn, R.Moved, C.Copied, Untaken, Fills, Filled;
    hide L.TalkOk, R.OnceEach, SameMessage, PoolCalled, AfterRead, CutsValue, Takes;
    var l := r.pool.linkers[id].linker;
    ServedHere(r, id, g);
    HearServes(l, chunk, ReqOf(r, g), ResOf(r, g), r.told[g]);
    var take := Takes(Untaken(AfterRead(l.talk.value.reader, chunk).0.Message(), l.talk.value.taken), ResOf(r, g).held);
    L.CallsGoOn(l);
    PoolMoved(r.pool, R.Event.Read(id, chunk, take), id, L.ReadMore(l, chunk, take));
  }

  /** A reader that has come to the end of its message takes nothing more. */
  lemma DoneReadsNothing(codec: Codec, t: L.Talk, chunk: Bytes)
    requires L.TalkOk(codec, t) && t.reader.Message().stage == DONE
    ensures AfterRead(t.reader, chunk).0.Message() == t.reader.Message()
  {
    hide Kept, Working, Fed, SamePlace, H.Run;
    SamePlaceMeans(t.reader, L.Parsed(codec, t.got));
    FinishedIsDone(L.Parsed(codec, t.got));
    if t.reader.Http11Reader? {
      H.RunStopped(t.reader.p, chunk);
    }
  }

  /** A copy when both sides are at the end changes nothing. */
  lemma DoneCopiesNothing(t: L.Talk, res: Cell, told: Told)
    requires AnsweredRight(t, res, told)
    ensures Filled(res, C.Copied(Untaken(t.reader.Message(), t.taken), res.held)) == res
  {
    hide Suffix, WellBegun;
    C.SecondCopyIdle(Homeward(t, res));
  }

  /** Upstream has nothing to add to a response that is over. */
  lemma OverHearsNothing(r: Relay, id: nat, g: nat, chunk: Bytes)
    requires R.PoolOk(r.pool) && WorksFor(r, id, g) && Carried(r, g) && ResOf(r, g).added.stage == DONE
    ensures Heard(r, id, chunk).client == r.client
  {
    hide R.PoolOk, L.TalkOk, L.ReadMore, R.Moved, C.Copied, Untaken, Filled, AfterRead, AskedRight, AnsweredRight;
    hide ServedRight;
    ServedHere(r, id, g);
    var l := r.pool.linkers[id].linker;
    InStepIsSame(l.talk.value, ResOf(r, g), r.told[g]);
    ToldIsRead(l.talk.value, ResOf(r, g), r.told[g]);
    DoneReadsNothing(l.codec, l.talk.value, chunk);
    DoneCopiesNothing(l.talk.value, ResOf(r, g), r.told[g]);
    assert r.client.line.messages[r.client.pairs[g].res := ResOf(r, g)] == r.client.line.messages;
  }

  lemma ToldIsRead(t: L.Talk, res: Cell, told: Told)
    requires AnsweredRight(t, res, told)
    ensures told == Told(t.reader.Message(), t.got, t.clean)
  {}

  lemma SettledOver(r: Relay, g: nat)
    requires P.Ok(r.client) && Apart(r.client) && Settled(r.client.line) && HasPlace(r, g)
    requires g < |r.client.line.finished|
    ensures ResOf(r, g).added.stage == DONE && ResOf(r, g).added == r.client.line.finished[g].msg
  {
    hide P.Ok, Apart;
    Places(r.client, g);
  }

  lemma ReaderIsRequest(l: P.Linker)
    requires P.Ok(l)
    ensures l.readerMsg < |l.line.messages| && l.line.messages[l.readerMsg].held.isRequest
    ensures Kept(l.line.messages[l.readerMsg])
  {
    hide Sound, Kept;
  }

  lemma HearClient(r: Relay, id: nat, g: nat, d: Msg)
    requires P.Ok(r.client) && Apart(r.client) && Settled(r.client.line) && Untouched(r.client)
    requires HasPlace(r, g) && g >= |r.client.line.finished| && Fills(ResOf(r, g).held, d)
    ensures var l' := r.client.(line := FilledAt(r.client.line, r.client.pairs[g].res, d));
      P.Ok(l') && Settled(l'.line) && Untouched(l')
  {
    hide P.Core, P.Incomplete, Fills, Filled, Apart;
    Places(r.client, g);
    ReaderIsRequest(r.client);
    var at := g - |r.client.line.finished|;
    P.StepOk(r.client, [], P.Event.Respond(at, d));
    forall k | 0 <= k < |r.client.line.finished| ensures r.client.line.finished[k].res != r.client.pairs[g].res {
      Places(r.client, k);
      PlacesDiffer(r.client, k, g);
    }
  }

  lemma HearPlaces(r: Relay, id: nat, g: nat, chunk: Bytes)
    requires P.Ok(r.client) && Apart(r.client) && WorksFor(r, id, g)
    requires var t := r.pool.linkers[id].linker.talk.value;
      Fills(ResOf(r, g).held, C.Copied(Untaken(AfterRead(t.reader, chunk).0.Message(), t.taken), ResOf(r, g).held))
    ensures var t, r' := r.pool.linkers[id].linker.talk.value, Heard(r, id, chunk);
      var d := C.Copied(Untaken(AfterRead(t.reader, chunk).0.Message(), t.taken), ResOf(r, g).held);
      && OnlyAt(r, r', g) && HasPlace(r', g)
      && ReqOf(r', g) == ReqOf(r, g) && ResOf(r', g) == Filled(ResOf(r, g), d)
      && r'.client == r.client.(line := FilledAt(r.client.line, r.client.pairs[g].res, d))
  {
    hide P.Ok, Apart, L.ReadMore, C.Copied, Untaken, Takes, AfterRead, R.Moved, CutsValue, Fills;
    Places(r.client, g);
    var t := r.pool.linkers[id].linker.talk.value;
    var src := Untaken(AfterRead(t.reader, chunk).0.Message(), t.taken);
    FillSameKind(ResOf(r, g).held, C.Copied(src, ResOf(r, g).held));
  }

  lemma HearOk(r: Relay, id: nat, chunk: Bytes)
    requires Ok(r) && id in r.pool.linkers && L.CanRead(r.pool.linkers[id].linker, chunk)
    ensures Callable(r, id) && Ok(Heard(r, id, chunk))
  {
    hide P.Ok, R.PoolOk, Settled, Untouched, Serving, Matched, Apart, SameMessage, Carried, OnlyAt, Fills, Filled;
    hide L.ReadMore, L.CanRead, L.GoesOn, R.Moved, C.Copied, Untaken, Takes, AfterRead, CutsValue;
    var l := r.pool.linkers[id].linker;
    if l.talk.Some? {
      var g := l.talk.value.gen;
      AtWorkFor(r, id, g);
      HearPool(r, id, g, chunk);
      HearPlaces(r, id, g, chunk);
      if g < |r.client.line.finished| {
        SettledOver(r, g);
        OverHearsNothing(r, id, g, chunk);
      } else {
        HearClient(r, id, g, C.Copied(Untaken(AfterRead(l.talk.value.reader, chunk).0.Message(), l.talk.value.taken),
                                      ResOf(r, g).held));
      }
      CallOk(r, Heard(r, id, chunk), id, g);
    }
  }

  lemma CloseOk(r: Relay, c: nat)
    requires Ok(r) && c in r.pool.conns
    ensures Ok(r.(pool := R.Closed(r.pool, c)))
  {
    hide P.Ok, R.PoolOk, Settled, Untouched, Serving, Apart, SameMessage, ToldRight, R.At;
    R.ClosedOk(r.pool, c);
    forall k | k in r.pool.owner ensures Carried(r.(pool := R.Closed(r.pool, c)), k) {
      assert Carried(r, k);
    }
  }

  // ----- calls on the client's connection -----

  /** Printing changes nothing in memory but what responses still hold. */
  predicate OnlyDrained(l: Line, l': Line) {
    && |l'.messages| == |l.messages|
    && forall i :: 0 <= i < |l.messages| ==>
      && Drained(l.messages[i], l'.messages[i]) && l'.messages[i].held.isRequest == l.messages[i].held.isRequest
      && (l.messages[i].held.isRequest ==> l'.messages[i] == l.messages[i])
  }

  lemma DrainedTwice(l: Line, l1: Line, l2: Line)
    requires OnlyDrained(l, l1) && OnlyDrained(l1, l2)
    ensures OnlyDrained(l, l2)
  {
    hide Backlog;
  }

  lemma LookOnlyDrains(l: Line)
    requires Sound(l) && InRange(l) && l.writer.Some?
    ensures OnlyDrained(l, LookedFor(l))
    ensures Settled(l) ==> Settled(LookedFor(l))
  {
    hide Working, AllSent, Wire, Kept, Looked, Backlog;
    var res := l.queue[0].res;
    LookDrains(l.messages[res], l.writer.value);
    LookKeepsRest(l.messages[res], l.writer.value);
    LookedForSound(l);
  }

  lemma RetireSettles(l: Line)
    requires Sound(l) && InRange(l) && l.writer.Some? && IsOver(l) && Settled(l)
    ensures Settled(Retired(l)) && OnlyDrained(l, Retired(l))
  {
    hide Working, AllSent, Wire, Accounted;
    KeptIff(l.messages[l.queue[0].res]);
    hide Kept;
  }

  lemma {:induction false} PollSettles(l: P.Linker)
    requires P.Ok(l) && Settled(l.line)
    ensures OnlyDrained(l.line, P.Polled(l.line)) && Settled(P.Polled(l.line))
    decreases |l.line.queue|
  {
    hide Queued, Writing, Accounted, Arrivals, PairsInOrder, LookedFor, IsOver, Drained, Settled, WithWriter;
    hide OnlyDrained;
    if l.line.queue == [] {
      NothingDrained(l.line, l.line);
    } else {
      P.WithWriterKeeps(l.line);
      P.LookedOk(l);
      WithWriterSound(l.line);
      NothingDrained(l.line, WithWriter(l.line));
      LookOnlyDrains(WithWriter(l.line));
      var l1 := l.(line := LookedFor(WithWriter(l.line)));
      DrainedTwice(l.line, WithWriter(l.line), l1.line);
      if IsOver(l1.line) {
        P.RetiredOk(l1);
        RetireSettles(l1.line);
        PollSettles(l1.(line := Retired(l1.line)));
        DrainedTwice(l.line, l1.line, Retired(l1.line));
        DrainedTwice(l.line, Retired(l1.line), P.Polled(Retired(l1.line)));
      }
    }
  }

  lemma NothingDrained(l: Line, l': Line)
    requires l'.messages == l.messages && l'.finished == l.finished
    ensures OnlyDrained(l, l') && (Settled(l) ==> Settled(l'))
  {}

  lemma ServingDrained(l: L.Linker, k: nat, req: Cell, res: Cell, told: Told, res': Cell)
    requires Serving(l, k, req, res, told) && Drained(res, res')
    ensures Serving(l, k, req, res', told)
  {
    hide AskedRight, AnsweredRight, ServedRight, Drained;
    if l.talk.Some? && l.talk.value.gen == k {
      HomewardDrained(l.talk.value, res, told, res');
    }
  }

  lemma DrainCarries(r: Relay, line: Line, k: nat)
    requires Carried(r, k) && P.Ok(r.client) && Apart(r.client) && OnlyDrained(r.client.line, line)
    ensures Carried(r.(client := r.client.(line := line)), k)
  {
    hide P.Ok, Apart, Serving, ToldRight, SameMessage, Drained;
    Places(r.client, k);
    var r' := r.(client := r.client.(line := line));
    DrainedAdded(ResOf(r, k), ResOf(r', k));
    if r.pool.owner[k] in r.pool.linkers {
      ServingDrained(r.pool.linkers[r.pool.owner[k]].linker, k, ReqOf(r, k), ResOf(r, k), r.told[k], ResOf(r', k));
    }
  }

  lemma DrainOk(r: Relay, line: Line)
    requires Ok(r) && P.Ok(r.client.(line := line)) && OnlyDrained(r.client.line, line) && Settled(line)
    ensures Ok(r.(client := r.client.(line := line)))
  {
    hide P.Ok, R.PoolOk, Carried, OnlyDrained, Settled, Apart, Untouched;
    DrainKeeps(r.client, line);
    forall k | k in r.pool.owner ensures Carried(r.(client := r.client.(line := line)), k) {
      DrainCarries(r, line, k);
    }
  }

  lemma DrainKeeps(l: P.Linker, line: Line)
    requires P.Ok(l) && Apart(l) && Untouched(l) && OnlyDrained(l.line, line)
    ensures Apart(l.(line := line)) && Untouched(l.(line := line))
  {
    ReaderIsRequest(l);
    hide P.Ok, Drained;
  }

  lemma PollOk(r: Relay)
    requires Ok(r)
    ensures Ok(r.(client := r.client.(line := P.Polled(r.client.line))))
  {
    hide P.Core, R.PoolOk, Carried, OnlyDrained, Settled, Apart, Matched, Untouched;
    PollSettles(r.client);
    P.PolledOk(r.client);
    DrainOk(r, P.Polled(r.client.line));
  }

  lemma WriteOk(r: Relay, n: nat)
    requires Ok(r) && P.Enabled(r.client, P.Event.Write(n))
    ensures Ok(r.(client := r.client.(line := Written(r.client.line, n))))
  {
    hide R.PoolOk, Carried, OnlyDrained, Settled, Apart, Matched, Untouched, Sound, LookedFor, Arrivals, PairsInOrder;
    LookOnlyDrains(r.client.line);
    NothingDrained(LookedFor(r.client.line), Written(r.client.line, n));
    DrainedTwice(r.client.line, LookedFor(r.client.line), Written(r.client.line, n));
    P.WrittenOk(r.client, n);
    DrainOk(r, Written(r.client.line, n));
  }

  // ----- the client's request -----

  /** What one read of the client's connection changes. */
  ghost predicate ReadChanges(l: P.Linker, l': P.Linker, d: Msg, connects: bool, accepted: bool) {
    var n, k := |l.line.messages|, |l.pairs|;
    && l.readerMsg < n <= |l'.line.messages| && l'.line.finished == l.line.finished
    && (forall i :: 0 <= i < n && i != l.readerMsg ==> l'.line.messages[i] == l.line.messages[i])
    && l'.line.messages[l.readerMsg] == Filled(l.line.messages[l.readerMsg], d)
    && l'.accepted == l.accepted + (if connects && accepted then {l.readerMsg} else {})
    && l.pairs <= l'.pairs && |l'.pairs| <= k + 1 && (connects ==> |l'.pairs| == k + 1)
    && (|l'.pairs| == k + 1 ==>
         && !l.connected && l'.pairs[k] == Pair(l.readerMsg, n) && n < |l'.line.messages|
         && !l'.line.messages[n].held.isRequest
         && (connects && accepted ==> l'.line.messages[n] == NewCell(false)))
    && if d.stage == DONE then
         && n <= l'.readerMsg < |l'.line.messages| && l'.line.messages[l'.readerMsg] == NewCell(true) && !l'.connected
       else l'.readerMsg == l.readerMsg && (l'.connected <==> l.connected || connects)
  }

  lemma ReadShape(l: P.Linker, forwardHost: Bytes, d: Msg, accepted: bool)
    requires P.Ok(l) && Fills(l.line.messages[l.readerMsg].held, d)
    ensures var filled := l.(line := FilledAt(l.line, l.readerMsg, d));
      ReadChanges(l, P.ReadMore(l, forwardHost, d, accepted), d, P.Connects(filled, forwardHost), accepted)
  {
    hide P.Core, P.Connects, Fills, P.Generated;
    P.ReadMoreOk(l, forwardHost, d, accepted);
    P.GeneratedSound(504, P.NO_UPSTREAM);
    P.GeneratedSound(400, P.NO_HOST);
    NotBoth(l.(line := FilledAt(l.line, l.readerMsg, d)), forwardHost);
  }

  lemma NotBoth(l: P.Linker, forwardHost: Bytes)
    requires P.Reading(l)
    ensures P.Connects(l, forwardHost) ==> !l.connected
  {}

  /** Accepting a request changes one linker, which goes to work for it. */
  ghost predicate Taken(p: R.Pool, gen: nat, p': R.Pool) {
    && gen in p'.owner && p'.owner == p.owner[gen := p'.owner[gen]] && p'.codec == p.codec
    && var id := p'.owner[gen];
       && id in p'.linkers && p'.linkers[id].linker.talk == Some(L.Begun(p.codec, gen))
       && p'.linkers[id].linker.past == (if id in p.linkers then p.linkers[id].linker.past else [])
       && (id in p.linkers ==> p.linkers[id].linker.talk.None?)
       && forall i :: i != id ==>
            (i in p'.linkers <==> i in p.linkers) && (i in p.linkers ==> p'.linkers[i] == p.linkers[i])
  }

  lemma AddTakes(p: R.Pool, e: R.Endpoint, gen: nat, reachable: bool, ok: bool, p': R.Pool)
    requires R.PoolOk(p) && gen !in p.owner && R.AddStep(p, e, gen, reachable, ok, p')
    ensures R.PoolOk(p') && if ok then Taken(p, gen, p') else p' == p
  {
    hide R.PoolOk, R.At, R.Reused, R.Joined, R.Opened, Taken, R.HasRoom;
    R.AddOk(p, e, gen, reachable, ok, p');
    NextIsFree(p);
    CodecHere(p);
    if R.At(p.reqMp, e) != {} {
      var id :| id in R.At(p.reqMp, e) && id in p.linkers && p.linkers[id].linker.talk.None?
                && p' == R.Reused(p, id, gen);
      ReuseTakes(p, id, gen);
    } else if exists c :: R.RoomAt(p, e, c) {
      var c :| R.RoomAt(p, e, c) && p' == R.Joined(p, c, gen);
      JoinTakes(p, c, gen);
    } else {
      OpenTakes(p, e, gen);
    }
  }

  lemma ReuseTakes(p: R.Pool, id: nat, gen: nat)
    requires id in p.linkers && p.linkers[id].linker.talk.None? && p.linkers[id].linker.codec == p.codec
    ensures Taken(p, gen, R.Reused(p, id, gen))
  {
    hide L.Begun, R.At;
  }

  lemma JoinTakes(p: R.Pool, c: nat, gen: nat)
    requires c in p.conns && p.next !in p.linkers
    ensures Taken(p, gen, R.Joined(p, c, gen))
  {
    hide L.Begun, R.At;
  }

  lemma OpenTakes(p: R.Pool, e: R.Endpoint, gen: nat)
    requires p.next + 1 !in p.linkers
    ensures Taken(p, gen, R.Opened(p, e, gen))
  {
    hide L.Begun, R.At;
  }

  lemma NextIsFree(p: R.Pool)
    requires R.PoolOk(p)
    ensures p.next !in p.linkers && p.next + 1 !in p.linkers
  {
    hide L.LinkerOk, R.Serves, R.OnceEach;
  }

  lemma CodecHere(p: R.Pool)
    requires R.PoolOk(p)
    ensures forall id :: id in p.linkers ==> p.linkers[id].linker.codec == p.codec
  {
    hide L.LinkerOk, R.Serves, R.OnceEach;
  }

  lemma ServingFilled(l: L.Linker, k: nat, req: Cell, res: Cell, told: Told, d: Msg)
    requires Serving(l, k, req, res, told) && Fills(req.held, d) && req.added.stage != DONE
    ensures Serving(l, k, Filled(req, d), res, told)
  {
    hide AskedRight, AnsweredRight, Fills, Filled;
    if l.talk.Some? && l.talk.value.gen == k {
      OutwardFilled(req, l.talk.value, d);
    }
  }

  /** A linker that begins with a request nobody has taken anything from. */
  lemma BegunServes(codec: Codec, l: L.Linker, k: nat, req: Cell)
    requires l.talk == Some(L.Begun(codec, k)) && R.OnceEach(l)
    requires StartKnown(req.held) && req.held == req.added && req.held.isRequest && Kept(req)
    ensures Serving(l, k, req, NewCell(false), Told(Blank(false), [], true))
  {
    KeptIff(req);
    hide Kept, Fed;
    var t := L.Begun(codec, k);
    assert [] + req.added.headers == req.added.headers;
    assert [] + req.added.entity == req.added.entity;
    assert [] + req.added.footers == req.added.footers;
    assert C.Conserved(Outward(req, t));
    assert Homeward(t, NewCell(false)) == C.Opened(false);
  }

  /** The pairs that were there before one read of the client's connection. */
  lemma OldCarried(r: Relay, r': Relay, d: Msg, connects: bool, ok: bool, k: nat)
    requires P.Ok(r.client) && Apart(r.client) && Carried(r, k)
    requires ReadChanges(r.client, r'.client, d, connects, ok)
    requires Fills(r.client.line.messages[r.client.readerMsg].held, d)
    requires if connects && ok then Taken(r.pool, |r.client.pairs|, r'.pool) else r'.pool == r.pool
    requires k in r'.told && r'.told[k] == r.told[k]
    ensures Carried(r', k)
  {
    hide P.Ok, Apart, ReadChanges, Serving, ToldRight, SameMessage, Fills, Filled;
    OldCells(r, r', d, connects, ok, k);
    IncompleteStage(r.client);
    var id := r.pool.owner[k];
    if id in r.pool.linkers {
      var l := r.pool.linkers[id].linker;
      if r.client.pairs[k].req == r.client.readerMsg {
        ServingFilled(l, k, ReqOf(r, k), ResOf(r, k), r.told[k], d);
      }
      AgainServing(l, r'.pool.linkers[id].linker, k, |r.client.pairs|, ReqOf(r', k), ResOf(r', k), r'.told[k]);
    } else if id in r'.pool.linkers {
      FreshServing(r'.pool.linkers[id].linker, k, |r.client.pairs|, ReqOf(r', k), ResOf(r', k), r'.told[k]);
    }
  }

  lemma OldCells(r: Relay, r': Relay, d: Msg, connects: bool, ok: bool, k: nat)
    requires P.Ok(r.client) && Apart(r.client) && HasPlace(r, k)
    requires ReadChanges(r.client, r'.client, d, connects, ok)
    ensures HasPlace(r', k) && ResOf(r', k) == ResOf(r, k)
    ensures ReqOf(r', k) ==
      if r.client.pairs[k].req == r.client.readerMsg then Filled(ReqOf(r, k), d) else ReqOf(r, k)
  {
    Places(r.client, k);
    ReaderIsRequest(r.client);
    hide P.Ok, Apart, Filled;
  }

  lemma IncompleteStage(l: P.Linker)
    requires P.Ok(l)
    ensures l.line.messages[l.readerMsg].added.stage != DONE
  {
    ReaderIsRequest(l);
    KeptIff(l.line.messages[l.readerMsg]);
    hide Kept, P.Core;
  }

  lemma AgainServing(l: L.Linker, l': L.Linker, k: nat, g: nat, req: Cell, res: Cell, told: Told)
    requires Serving(l, k, req, res, told) && k != g
    requires l' == l || (l.talk.None? && l'.past == l.past && l'.talk.Some? && l'.talk.value.gen == g)
    ensures Serving(l', k, req, res, told)
  {
    hide AskedRight, AnsweredRight, ServedRight;
  }

  lemma FreshServing(l: L.Linker, k: nat, g: nat, req: Cell, res: Cell, told: Told)
    requires l.past == [] && l.talk.Some? && l.talk.value.gen == g != k
    ensures Serving(l, k, req, res, told)
  {}

  /** The reader's message is none of the responses. */
  lemma ReaderApart(l: P.Linker)
    requires P.Ok(l) && Apart(l)
    ensures l.readerMsg < |l.line.messages| && |l.line.finished| <= |l.pairs|
    ensures forall k :: 0 <= k < |l.pairs| ==> l.pairs[k].res != l.readerMsg
    ensures forall k :: 0 <= k < |l.line.finished| ==> l.line.finished[k].res == l.pairs[k].res
  {
    ReaderIsRequest(l);
    FinishedFirst(l);
    hide P.Ok;
    forall k | 0 <= k < |l.pairs|
      ensures k < |l.line.finished| ==> l.line.finished[k].res == l.pairs[k].res
    {
      hide Apart;
      Places(l, k);
    }
  }

  lemma FinishedFirst(l: P.Linker)
    requires P.Ok(l)
    ensures |l.line.finished| <= |l.pairs|
  {
    hide Sound, Arrivals;
  }

  lemma ReadKeepsApart(l: P.Linker, l': P.Linker, d: Msg, connects: bool, ok: bool)
    requires P.Ok(l) && Apart(l) && ReadChanges(l, l', d, connects, ok)
    ensures Apart(l')
  {
    hide P.Ok, ReadChanges;
    ReaderApart(l);
    PairsGrow(l, l', d, connects, ok);
  }

  lemma PairsGrow(l: P.Linker, l': P.Linker, d: Msg, connects: bool, ok: bool)
    requires ReadChanges(l, l', d, connects, ok)
    ensures |l.line.messages| <= |l'.line.messages| && |l.pairs| <= |l'.pairs| <= |l.pairs| + 1
    ensures forall i :: 0 <= i < |l.line.messages| && i != l.readerMsg ==> l'.line.messages[i] == l.line.messages[i]
    ensures forall k :: 0 <= k < |l.pairs| ==> l'.pairs[k] == l.pairs[k]
    ensures |l'.pairs| == |l.pairs| + 1 ==> var res := l'.pairs[|l.pairs|].res;
      |l.line.messages| == res < |l'.line.messages| && !l'.line.messages[res].held.isRequest
  {
    hide Filled;
  }

  lemma ReadKeepsSettled(l: P.Linker, l': P.Linker, d: Msg, connects: bool, ok: bool)
    requires P.Ok(l) && Apart(l) && Settled(l.line) && ReadChanges(l, l', d, connects, ok)
    ensures Settled(l'.line)
  {
    ReaderApart(l);
    hide P.Ok, Filled;
  }

  lemma ReadKeepsUntouched(l: P.Linker, l': P.Linker, d: Msg, connects: bool, ok: bool)
    requires Untouched(l) && ReadChanges(l, l', d, connects, ok)
    ensures Untouched(l')
  {}

  lemma ReadMatches(r: Relay, r': Relay, d: Msg, connects: bool, ok: bool)
    requires P.Ok(r'.client) && Apart(r'.client) && Matched(r) && Untouched(r.client)
    requires ReadChanges(r.client, r'.client, d, connects, ok)
    requires if connects && ok then Taken(r.pool, |r.client.pairs|, r'.pool) else r'.pool == r.pool
    ensures Matched(r')
  {
    hide P.Ok, Apart, Filled, L.Begun;
    var k := |r.client.pairs|;
    forall j | 0 <= j < |r'.client.pairs|
      ensures r'.client.pairs[j].req in r'.client.accepted <==> j in r'.pool.owner
    {
      if |r'.client.pairs| > k && j < k {
        PlacesDiffer(r'.client, j, k);
      }
    }
  }

  /** The messages of the pair that one read of the client's connection has queued. */
  lemma NewCells(r: Relay, r': Relay, d: Msg)
    requires Untouched(r.client) && ReadChanges(r.client, r'.client, d, true, true)
    ensures var k, c := |r.client.pairs|, r.client.line.messages[r.client.readerMsg];
      && HasPlace(r', k) && ReqOf(r', k) == Filled(c, d) && ResOf(r', k) == NewCell(false)
      && c.held == c.added && Filled(c, d).held == Filled(c, d).added
  {}

  /** The request that the pool has just accepted. */
  lemma NewCarried(r: Relay, r': Relay, d: Msg)
    requires P.Ok(r.client) && Untouched(r.client) && R.PoolOk(r'.pool)
    requires ReadChanges(r.client, r'.client, d, true, true) && Taken(r.pool, |r.client.pairs|, r'.pool)
    requires Fills(r.client.line.messages[r.client.readerMsg].held, d)
    requires StartKnown(Filled(r.client.line.messages[r.client.readerMsg], d).held)
    requires |r.client.pairs| in r'.told && r'.told[|r.client.pairs|] == Told(Blank(false), [], true)
    ensures Carried(r', |r.client.pairs|)
  {
    hide P.Ok, R.PoolOk, Fills, Kept, ToldRight, L.LinkerOk, L.TalkOk, R.OnceEach, Serving, ReadChanges, StartKnown;
    hide Untouched, Filled;
    ReaderIsRequest(r.client);
    var k, c := |r.client.pairs|, r.client.line.messages[r.client.readerMsg];
    NewCells(r, r', d);
    FilledKept(c, d);
    FilledKind(c, d);
    var l := r'.pool.linkers[r'.pool.owner[k]].linker;
    LinkerOf(r'.pool, r'.pool.owner[k]);
    BegunServes(r.pool.codec, l, k, Filled(c, d));
    ToldFollows(l, k, Filled(c, d), NewCell(false), Told(Blank(false), [], true));
  }

  lemma FilledKind(c: Cell, d: Msg)
    requires Fills(c.held, d)
    ensures Filled(c, d).held.isRequest == c.held.isRequest
  {}

  /** Once it is known where to a request goes, its start line is complete. */
  lemma ConnectsKnown(l: P.Linker, forwardHost: Bytes, d: Msg)
    requires P.Ok(l) && Fills(l.line.messages[l.readerMsg].held, d)
    requires P.Connects(l.(line := FilledAt(l.line, l.readerMsg, d)), forwardHost)
    ensures StartKnown(Filled(l.line.messages[l.readerMsg], d).held)
  {
    ReaderIsRequest(l);
    FilledKind(l.line.messages[l.readerMsg], d);
    hide P.Core, Fills;
  }

  /** What one read of the client's connection does, as the client and the pool see it. */
  ghost predicate ReadDone(r: Relay, d: Msg, connects: bool, ok: bool, r': Relay) {
    && ReadChanges(r.client, r'.client, d, connects, ok) && P.Ok(r'.client) && R.PoolOk(r'.pool)
    && (if connects && ok then Taken(r.pool, |r.client.pairs|, r'.pool) else r'.pool == r.pool)
    && r'.told == (if connects && ok then r.told[|r.client.pairs| := Told(Blank(false), [], true)] else r.told)
  }

  lemma ReadIsDone(
    r: Relay, forwardHost: Bytes, d: Msg, endpoint: R.Endpoint, reachable: bool, ok: bool, r': Relay)
    requires P.Ok(r.client) && R.PoolOk(r.pool) && Matched(r) && P.Enabled(r.client, P.Event.Read(d, ok))
    requires ReadStep(r, forwardHost, d, endpoint, reachable, ok, r')
    ensures var connects := P.Connects(r.client.(line := FilledAt(r.client.line, r.client.readerMsg, d)), forwardHost);
      ReadDone(r, d, connects, ok, r')
  {
    hide P.Core, P.Incomplete, R.PoolOk, Fills, Filled, ReadChanges, P.Connects, R.AddStep, Taken;
    ReadShape(r.client, forwardHost, d, ok);
    P.ReadMoreOk(r.client, forwardHost, d, ok);
    if P.Connects(r.client.(line := FilledAt(r.client.line, r.client.readerMsg, d)), forwardHost) {
      AddTakes(r.pool, endpoint, |r.client.pairs|, reachable, ok, r'.pool);
    }
  }

  lemma KeysKept(r: Relay, d: Msg, connects: bool, ok: bool, r': Relay)
    requires r.told.Keys == r.pool.owner.Keys && Matched(r) && ReadDone(r, d, connects, ok, r')
    ensures r'.told.Keys == r'.pool.owner.Keys
    ensures forall k :: k in r.pool.owner ==> k in r'.told && r'.told[k] == r.told[k]
    ensures forall k :: k in r'.pool.owner && k !in r.pool.owner ==> connects && ok && k == |r.client.pairs|
  {
    hide P.Ok, R.PoolOk, ReadChanges;
  }

  lemma ReadOk(
    r: Relay, forwardHost: Bytes, d: Msg, endpoint: R.Endpoint, reachable: bool, ok: bool, r': Relay)
    requires Ok(r) && P.Enabled(r.client, P.Event.Read(d, ok))
    requires ReadStep(r, forwardHost, d, endpoint, reachable, ok, r')
    ensures Ok(r')
  {
    hide P.Ok, R.PoolOk, Carried, Settled, Apart, Fills, Filled, ReadChanges, P.Connects, Taken, ReadStep, Matched;
    hide Untouched, StartKnown;
    ReadIsDone(r, forwardHost, d, endpoint, reachable, ok, r');
    var filled := r.client.(line := FilledAt(r.client.line, r.client.readerMsg, d));
    var connects := P.Connects(filled, forwardHost);
    KeysKept(r, d, connects, ok, r');
    ReadKeepsApart(r.client, r'.client, d, connects, ok);
    ReadKeepsSettled(r.client, r'.client, d, connects, ok);
    ReadKeepsUntouched(r.client, r'.client, d, connects, ok);
    ReadMatches(r, r', d, connects, ok);
    forall k | k in r.pool.owner ensures Carried(r', k) {
      OldCarried(r, r', d, connects, ok, k);
    }
    if connects && ok {
      ConnectsKnown(r.client, forwardHost, d);
      NewCarried(r, r', d);
    }
  }

  // ----- runs -----

  lemma StartOk(codec: Codec, upstream: Codec, mux: bool, max: nat)
    ensures Ok(Start(codec, upstream, mux, max))
  {
    P.StartOk(codec);
    R.EmptyOk(upstream, mux, max);
    hide P.Core, R.PoolOk;
  }

  lemma StepOk(r: Relay, forwardHost: Bytes, e: Event, r': Relay)
    requires Ok(r) && Step(r, forwardHost, e, r')
    ensures Ok(r')
  {
    hide Ok, ReadStep, Asked, Heard, Callable, P.Polled, Written, L.Wrote, R.Moved, R.Closed, L.CanRead, L.ToSend;
    hide P.Reading, LookedFor;
    match e
    case Poll => PollOk(r);
    case Write(n) => WriteOk(r, n);
    case Read(d, endpoint, reachable, ok) => ReadOk(r, forwardHost, d, endpoint, reachable, ok, r');
    case Ask(id) => CallableIsLive(r, id); AskOk(r, id);
    case Send(id, n) => SendOk(r, id, n);
    case Hear(id, chunk) => CallableIsLive(r, id); HearOk(r, id, chunk);
    case Close(conn) => CloseOk(r, conn);
  }

  lemma CallableIsLive(r: Relay, id: nat)
    requires Callable(r, id)
    ensures id in r.pool.linkers
  {}

  lemma {:induction false} RunOk(r: Relay, forwardHost: Bytes, events: seq<Event>, r': Relay)
    requires Ok(r) && Reaches(r, forwardHost, events, r')
    ensures Ok(r')
    decreases |events|
  {
    hide Ok, Step;
    if events != [] {
      var q :| Step(r, forwardHost, events[0], q) && Reaches(q, forwardHost, events[1..], r');
      StepOk(r, forwardHost, events[0], q);
      RunOk(q, forwardHost, events[1..], r');
    }
  }

  // ----- the client's connection by itself -----

  /** Each call is at most one call on the client's connection, as far as that is concerned. */
  ghost predicate ClientMoves(l: P.Linker, forwardHost: Bytes, l': P.Linker) {
    l' == l || exists e :: P.Enabled(l, e) && l' == P.Next(l, forwardHost, e)
  }

  lemma StaysPut(l: P.Linker, forwardHost: Bytes)
    ensures ClientMoves(l, forwardHost, l)
  {}

  lemma AskMoves(r: Relay, forwardHost: Bytes, id: nat)
    requires Ok(r) && Callable(r, id)
    ensures ClientMoves(r.client, forwardHost, Asked(r, id).client)
  {
    hide P.Core, P.Incomplete, R.PoolOk, Carried, L.Polled, C.Copied, C.Left, Apart, Settled, Untouched, Matched;
    hide TakenFrom;
    var l := r.pool.linkers[id].linker;
    if l.talk.Some? {
      var g := l.talk.value.gen;
      AtWorkFor(r, id, g);
      AskPool(r, id, g);
      Places(r.client, g);
      var e := P.Event.PassOn(r.client.pairs[g].req, C.Left(ReqOf(r, g).held, l.talk.value.out.held));
      assert P.Enabled(r.client, e);
    }
  }

  lemma HearMoves(r: Relay, forwardHost: Bytes, id: nat, chunk: Bytes)
    requires Ok(r) && Callable(r, id) && L.CanRead(r.pool.linkers[id].linker, chunk)
    ensures ClientMoves(r.client, forwardHost, Heard(r, id, chunk).client)
  {
    StaysPut(r.client, forwardHost);
    hide P.Ok, R.PoolOk, Carried, L.ReadMore, L.CanRead, C.Copied, Untaken, Takes, AfterRead, CutsValue, ClientMoves;
    hide Apart, Settled, Untouched, Matched, Fills, Filled;
    var l := r.pool.linkers[id].linker;
    if l.talk.Some? {
      var g := l.talk.value.gen;
      AtWorkFor(r, id, g);
      HearPool(r, id, g, chunk);
      HearPlaces(r, id, g, chunk);
      if g < |r.client.line.finished| {
        SettledOver(r, g);
        OverHearsNothing(r, id, g, chunk);
      } else {
        var src := Untaken(AfterRead(l.talk.value.reader, chunk).0.Message(), l.talk.value.taken);
        RespondMoves(r, forwardHost, g, C.Copied(src, ResOf(r, g).held));
      }
    }
  }

  lemma RespondMoves(r: Relay, forwardHost: Bytes, g: nat, d: Msg)
    requires P.Ok(r.client) && Apart(r.client) && HasPlace(r, g) && g >= |r.client.line.finished|
    requires Fills(ResOf(r, g).held, d)
    ensures ClientMoves(r.client, forwardHost, r.client.(line := FilledAt(r.client.line, r.client.pairs[g].res, d)))
  {
    hide P.Core, P.Incomplete, Fills, Filled, Apart;
    Places(r.client, g);
    assert P.Enabled(r.client, P.Event.Respond(g - |r.client.line.finished|, d));
  }

  lemma StepMoves(r: Relay, forwardHost: Bytes, e: Event, r': Relay)
    requires Ok(r) && Step(r, forwardHost, e, r')
    ensures ClientMoves(r.client, forwardHost, r'.client)
  {
    hide Ok, Asked, Heard, P.Enabled, P.Next, L.Wrote, R.Moved, R.Closed, L.CanRead, L.ToSend, R.AddStep, P.Connects;
    match e
    case Poll =>
    case Write(n) =>
    case Read(d, endpoint, reachable, ok) =>
    case Ask(id) => AskMoves(r, forwardHost, id);
    case Send(id, n) =>
    case Hear(id, chunk) => HearMoves(r, forwardHost, id, chunk);
    case Close(conn) =>
  }

  /** Every run of the proxy is a run of the client's connection. */
  lemma {:induction false} ClientRuns(r: Relay, forwardHost: Bytes, events: seq<Event>, r': Relay)
    requires Ok(r) && Reaches(r, forwardHost, events, r')
    ensures exists calls :: P.Reaches(r.client, forwardHost, calls, r'.client)
    decreases |events|
  {
    hide Ok, Step, P.Enabled, P.Next;
    if events == [] {
      assert P.Reaches(r.client, forwardHost, [], r'.client);
    } else {
      var q :| Step(r, forwardHost, events[0], q) && Reaches(q, forwardHost, events[1..], r');
      StepMoves(r, forwardHost, events[0], q);
      StepOk(r, forwardHost, events[0], q);
      ClientRuns(q, forwardHost, events[1..], r');
      var calls :| P.Reaches(q.client, forwardHost, calls, r'.client);
      if q.client != r.client {
        var e :| P.Enabled(r.client, e) && q.client == P.Next(r.client, forwardHost, e);
        P.MoreEvents(r.client, forwardHost, e, calls, r'.client);
      }
    }
  }

  predicate SameCodecs(r: Relay, r': Relay) {
    r'.client.line.codec == r.client.line.codec && r'.pool.codec == r.pool.codec
  }

  lemma StepCodecs(r: Relay, forwardHost: Bytes, e: Event, r': Relay)
    requires Ok(r) && Step(r, forwardHost, e, r')
    ensures SameCodecs(r, r')
  {
    hide P.Ok, R.PoolOk, Carried, Settled, Apart, Untouched, C.Copied, C.Left, Untaken, Takes, AfterRead, R.AddStep;
    hide L.Polled, L.Wrote, L.ReadMore, L.CanRead, L.ToSend, P.Polled, Written, LookedFor, Fills, P.ReadMore;
    hide P.Connects;
    match e
    case Read(d, endpoint, reachable, ok) =>
      if r'.pool != r.pool {
        R.AddKeeps(r.pool, endpoint, |r.client.pairs|, reachable, ok, r'.pool);
      }
    case _ =>
  }

  lemma {:induction false} RunCodecs(r: Relay, forwardHost: Bytes, events: seq<Event>, r': Relay)
    requires Ok(r) && Reaches(r, forwardHost, events, r')
    ensures SameCodecs(r, r')
    decreases |events|
  {
    hide Ok, Step;
    if events != [] {
      var q :| Step(r, forwardHost, events[0], q) && Reaches(q, forwardHost, events[1..], r');
      StepOk(r, forwardHost, events[0], q);
      StepCodecs(r, forwardHost, events[0], q);
      RunCodecs(q, forwardHost, events[1..], r');
    }
  }

  lemma Reached(
    codec: Codec, upstream: Codec, mux: bool, max: nat, forwardHost: Bytes, events: seq<Event>, r: Relay)
    requires Reaches(Start(codec, upstream, mux, max), forwardHost, events, r)
    ensures Ok(r) && r.client.line.codec == codec && r.pool.codec == upstream
  {
    hide Ok, Reaches;
    StartOk(codec, upstream, mux, max);
    RunOk(Start(codec, upstream, mux, max), forwardHost, events, r);
    RunCodecs(Start(codec, upstream, mux, max), forwardHost, events, r);
  }

  /** A response that is over is what upstream has said, which is complete. */
  lemma OverIsTold(r: Relay, k: nat)
    requires Ok(r) && k < |r.client.line.finished| && k in r.pool.owner
    ensures k in r.told && SameMessage(r.told[k].msg, r.client.line.finished[k].msg)
    ensures ToldRight(r.pool.codec, r.told[k]) && r.told[k].msg.stage == DONE
  {
    hide P.Ok, R.PoolOk, Settled, Apart, Untouched, Matched, Serving, ToldRight;
    assert Carried(r, k);
    SettledOver(r, k);
  }

  /** In every reachable state of the proxy the k-th response that is over, if upstream has accepted
      the k-th request, is the message that upstream has sent in answer to that request and nothing
      else: what the bytes taken off that stream for it mean, which are one whole message. */
  lemma AnswersFromUpstream(
    codec: Codec, upstream: Codec, mux: bool, max: nat, forwardHost: Bytes, events: seq<Event>, r: Relay)
    requires Reaches(Start(codec, upstream, mux, max), forwardHost, events, r)
    ensures |r.client.line.finished| <= |r.client.pairs| <= |r.client.arrived|
    ensures forall k :: 0 <= k < |r.client.pairs| ==>
      && r.client.pairs[k].req == r.client.arrived[k]
      && (k in r.pool.owner <==> r.client.arrived[k] in r.client.accepted)
    ensures forall k :: 0 <= k < |r.client.line.finished| && k in r.pool.owner ==>
      && k in r.told && r.told[k].msg.stage == DONE && SameMessage(r.told[k].msg, r.client.line.finished[k].msg)
      && Complete(NewReader(upstream, false), r.told[k].got)
      && Alike(upstream, r.told[k].msg, L.Parsed(upstream, r.told[k].got).Message())
      && (r.told[k].clean ==> r.told[k].msg == L.Parsed(upstream, r.told[k].got).Message())
  {
    hide Reaches, Ok, Alike, Complete, L.Parsed, SameMessage, NewReader;
    Reached(codec, upstream, mux, max, forwardHost, events, r);
    PairsAreRequests(r);
    forall k | 0 <= k < |r.client.line.finished| && k in r.pool.owner
      ensures k in r.told && SameMessage(r.told[k].msg, r.client.line.finished[k].msg)
      ensures ToldRight(upstream, r.told[k]) && r.told[k].msg.stage == DONE
    {
      OverIsTold(r, k);
    }
  }

  lemma PairsAreRequests(r: Relay)
    requires Ok(r)
    ensures |r.client.line.finished| <= |r.client.pairs| <= |r.client.arrived|
    ensures forall k :: 0 <= k < |r.client.pairs| ==>
      && r.client.pairs[k].req == r.client.arrived[k]
      && (k in r.pool.owner <==> r.client.arrived[k] in r.client.accepted)
  {
    hide Sound, Arrivals, R.PoolOk, Carried, Settled, Apart, Untouched;
  }

  ghost predicate AllComplete(upstream: Codec, responses: seq<Bytes>) {
    forall i :: 0 <= i < |responses| ==> Complete(NewReader(upstream, false), responses[i])
  }

  /** In every reachable state each request that a linker upstream has behind it is a request of the
      client, sent upstream just as it came, and what the linker has read for it is what the client
      is told. */
  lemma RequestsToUpstream(
    codec: Codec, upstream: Codec, mux: bool, max: nat, forwardHost: Bytes, events: seq<Event>, r: Relay,
    id: nat, j: nat)
    requires Reaches(Start(codec, upstream, mux, max), forwardHost, events, r)
    requires id in r.pool.linkers && j < |r.pool.linkers[id].linker.past|
    ensures var x := r.pool.linkers[id].linker.past[j];
      && x.gen in r.pool.owner && r.pool.owner[x.gen] == id && HasPlace(r, x.gen) && x.gen in r.told
      && SameMessage(x.request, ReqOf(r, x.gen).added) && r.told[x.gen] == Told(x.response, x.got, x.clean)
  {
    hide Reaches, Ok, SameMessage;
    Reached(codec, upstream, mux, max, forwardHost, events, r);
    PastIsServed(r, id, j);
  }

  /** If the peer of a linker upstream sends complete responses one after the other, then the client's
      response to the j-th request of that linker is the j-th of them. */
  lemma KthAnswer(
    codec: Codec, upstream: Codec, mux: bool, max: nat, forwardHost: Bytes, events: seq<Event>, r: Relay,
    id: nat, responses: seq<Bytes>, stream: Bytes, j: nat)
    requires Reaches(Start(codec, upstream, mux, max), forwardHost, events, r)
    requires id in r.pool.linkers && j < |r.pool.linkers[id].linker.past| && j < |responses|
    requires r.pool.linkers[id].linker.read <= stream && Sockets.Concat(responses) <= stream
    requires AllComplete(upstream, responses)
    ensures var k := r.pool.linkers[id].linker.past[j].gen;
      && k in r.told && r.told[k].got == responses[j]
      && Alike(upstream, r.told[k].msg, L.Parsed(upstream, responses[j]).Message())
      && (r.told[k].clean ==> r.told[k].msg == L.Parsed(upstream, responses[j]).Message())
      && (k < |r.client.line.finished| ==> SameMessage(r.told[k].msg, r.client.line.finished[k].msg))
  {
    hide Reaches, Ok, Complete, SameMessage, NewReader, Sockets.Concat, L.Parsed, Alike;
    Reached(codec, upstream, mux, max, forwardHost, events, r);
    PastIsServed(r, id, j);
    LiveLinker(r, id);
    L.KthResponse(r.pool.linkers[id].linker, responses, stream);
    var k := r.pool.linkers[id].linker.past[j].gen;
    if k < |r.client.line.finished| {
      OverIsTold(r, k);
    }
  }

  lemma LiveLinker(r: Relay, id: nat)
    requires Ok(r) && id in r.pool.linkers
    ensures L.LinkerOk(r.pool.linkers[id].linker) && r.pool.linkers[id].linker.codec == r.pool.codec
  {
    hide R.PoolOk, P.Ok, L.LinkerOk, Carried;
    LinkerOf(r.pool, id);
  }

  lemma PastIsServed(r: Relay, id: nat, j: nat)
    requires Ok(r) && id in r.pool.linkers && j < |r.pool.linkers[id].linker.past|
    ensures var x := r.pool.linkers[id].linker.past[j];
      && x.gen in r.pool.owner && r.pool.owner[x.gen] == id && HasPlace(r, x.gen) && x.gen in r.told
      && SameMessage(x.request, ReqOf(r, x.gen).added) && r.told[x.gen] == Told(x.response, x.got, x.clean)
  {
    hide P.Ok, R.PoolOk, Settled, Apart, Untouched, Matched, ToldRight, AskedRight, AnsweredRight, SameMessage;
    OwnedHere(r.pool, id, r.pool.linkers[id].linker.past[j].gen);
    assert Carried(r, r.pool.linkers[id].linker.past[j].gen);
  }

  /** The client of the proxy, reading with a fresh reader for each message, gets in the place of each
      of its requests that upstream has accepted what upstream has answered to it. */
  lemma ClientGetsAnswers(
    codec: Codec, upstream: Codec, mux: bool, max: nat, forwardHost: Bytes, events: seq<Event>, r: Relay,
    sizes: seq<seq<nat>>)
    requires Reaches(Start(codec, upstream, mux, max), forwardHost, events, r)
    requires AllFit(codec, r.client.line.finished)
    requires |sizes| == |Spoken(codec, r.client.line.finished)|
    requires ReadsReach(SpokenBytes(codec, r.client.line.finished), sizes)
    requires CutClean(codec, false, SpokenBytes(codec, r.client.line.finished), sizes, InProgress(r.client.line))
      || Intact(codec, false, r.client.line.written, sizes)
    ensures var at := Spoken(codec, r.client.line.finished);
      var (ms, left) := Sessions(codec, false, r.client.line.written, sizes);
      && |ms| == |at|
      && forall j :: 0 <= j < |ms| && at[j] in r.pool.owner ==>
        var f := r.client.line.finished[at[j]];
        && Alike(codec, ms[j], Understood(codec, f.msg))
        && at[j] in r.told && r.told[at[j]].msg.stage == DONE && SameMessage(r.told[at[j]].msg, f.msg)
  {
    StartOk(codec, upstream, mux, max);
    hide Ok, Reaches, ReadsReach, CutClean, Intact, Sessions, Alike, Understood, SameMessage, InProgress, AllFit;
    ClientRuns(Start(codec, upstream, mux, max), forwardHost, events, r);
    var calls :| P.Reaches(P.Start(codec), forwardHost, calls, r.client);
    P.ClientReadsInOrder(codec, forwardHost, calls, r.client, sizes);
    AnswersFromUpstream(codec, upstream, mux, max, forwardHost, events, r);
  }
}
