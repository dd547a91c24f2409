/** What a connection that answers requests in order has put on the wire: the encodings of the
    finished responses one after the other, then what the current printer has sent. */
module Pipeline {
  import opened Basics
  import opened Codecs
  import opened Messages
  import opened Octets
  import Sockets

  /** A message in memory: everything ever added to it, and what it still holds. */
  datatype Cell = Cell(added: Msg, held: Msg)

  function NewCell(isRequest: bool): (c: Cell) {
    Cell(Blank(isRequest), Blank(isRequest))
  }

  /** All that was added to the message has been taken from it or is still held. */
  ghost predicate Kept(c: Cell) {
    exists taken :: Divided(c.added, taken, c.held)
  }

  lemma KeptIff(c: Cell)
    ensures Kept(c) <==> Backlog(c.added, c.held)
  {
    hide Divided, Backlog;
    if Kept(c) {
      var taken :| Divided(c.added, taken, c.held);
      DividedIsBacklog(c.added, taken, c.held);
    } else if Backlog(c.added, c.held) {
      TakenDivides(c.added, c.held);
    }
  }

  /** A printer at work on a message, and the bytes it has sent. */
  datatype Writer = Writer(printer: Printer, sent: Bytes)

  function NewWriter(codec: Codec): (w: Writer) {
    Writer(NewPrinter(codec), [])
  }

  /** A response whose printer is done with it: which message it was, everything ever added to it,
      and the bytes sent for it. */
  datatype Finished = Finished(res: nat, msg: Msg, bytes: Bytes)

  /** A printer that has been at work on the message of the cell from its beginning. */
  ghost predicate Working(c: Cell, w: Writer) {
    AtWork(c.added, c.held, w.printer, w.sent)
  }

  lemma NewWriterWorks(c: Cell, codec: Codec)
    requires Kept(c) && c.held == c.added
    ensures Working(c, NewWriter(codec))
  {
    hide AtWork, Kept, Backlog;
    KeptIff(c);
    NewAtWork(codec, c.added);
  }

  /** The printer looks for more to print. */
  function Looked(c: Cell, w: Writer): (r: (Cell, Writer))
    ensures r.1.printer.Codec() == w.printer.Codec()
  {
    var (p, m) := Updated(w.printer, c.held);
    (c.(held := m), w.(printer := p))
  }

  /** The socket takes n bytes of what is printed. */
  function SentOn(w: Writer, n: nat): (w': Writer)
    requires n <= |w.printer.Data()|
    ensures w'.printer.Codec() == w.printer.Codec() && w'.printer.Data() == w.printer.Data()[n..]
  {
    Writer(Dropped(w.printer, n), w.sent + w.printer.Data()[..n])
  }

  function Filled(c: Cell, d: Msg): (c': Cell) {
    Cell(Grown(c.added, d), Grown(c.held, d))
  }

  lemma LookWorks(c: Cell, w: Writer)
    requires Working(c, w) && Kept(c)
    ensures var (c', w') := Looked(c, w);
      && Working(c', w') && Kept(c')
      && c'.held.stage == c.held.stage && c'.held.isRequest == c.held.isRequest
      && (Safe(w.printer.Codec(), c.added) && w'.printer.Data() == [] && Sent(c'.held) ==>
           SentAs(w.printer.Codec(), c.added, w.sent))
  {
    hide Updated, AtWork, Faithful, Safe, Backlog, SentAs, Kept;
    KeptIff(c);
    KeptIff(Looked(c, w).0);
    LookAtWork(c.added, c.held, w.printer, w.sent);
    UpdateDrains(c.added, c.held, w.printer);
    if Safe(w.printer.Codec(), c.added) {
      AtWorkFaithful(c.added, c.held, w.printer, w.sent);
      LookSends(c.added, c.held, w.printer, w.sent);
    }
  }

  lemma SendWorks(c: Cell, w: Writer, n: nat)
    requires Working(c, w) && n <= |w.printer.Data()|
    ensures Working(c, SentOn(w, n))
  {
    hide AtWork;
    SendAtWork(c.added, c.held, w.printer, w.sent, n);
  }

  lemma FilledKept(c: Cell, d: Msg)
    requires Kept(c) && Fills(c.held, d)
    ensures Kept(Filled(c, d))
  {
    hide Fills, Backlog, Kept;
    KeptIff(c);
    FillKeepsBacklog(c.added, c.held, d);
    KeptIff(Filled(c, d));
  }

  lemma FillWorks(c: Cell, w: Writer, d: Msg)
    requires Working(c, w) && Kept(c) && Fills(c.held, d)
    ensures Working(Filled(c, d), w) && Kept(Filled(c, d))
  {
    hide AtWork, Fills, Kept;
    FilledKept(c, d);
    KeptIff(c);
    FillAtWork(c.added, c.held, w.printer, w.sent, d);
  }

  ghost predicate AllSent(codec: Codec, finished: seq<Finished>) {
    forall k :: 0 <= k < |finished| ==>
      && !finished[k].msg.isRequest
      && (Safe(codec, finished[k].msg) ==> SentAs(codec, finished[k].msg, finished[k].bytes))
  }

  function Wire(finished: seq<Finished>): (r: Bytes)
    decreases |finished|
  {
    if finished == [] then [] else Wire(finished[..|finished|-1]) + finished[|finished|-1].bytes
  }

  lemma WireExtended(finished: seq<Finished>, f: Finished)
    ensures Wire(finished + [f]) == Wire(finished) + f.bytes
  {
    assert (finished + [f])[..|finished|] == finished;
  }

  function Encodings(finished: seq<Finished>): (r: seq<Bytes>)
    ensures |r| == |finished|
    ensures forall i :: 0 <= i < |r| ==> r[i] == finished[i].bytes
  {
    seq(|finished|, i requires 0 <= i < |finished| => finished[i].bytes)
  }

  lemma {:induction false} WireIsConcat(finished: seq<Finished>)
    ensures Wire(finished) == Sockets.Concat(Encodings(finished))
    decreases |finished|
  {
    if finished != [] {
      var most := finished[..|finished|-1];
      WireIsConcat(most);
      Sockets.ConcatAppend(Encodings(most), finished[|finished|-1].bytes);
      assert Encodings(finished) == Encodings(most) + [finished[|finished|-1].bytes];
    }
  }

  function MessagesOf(finished: seq<Finished>): (r: seq<Msg>)
    ensures |r| == |finished|
    ensures forall i :: 0 <= i < |r| ==> r[i] == finished[i].msg
  {
    seq(|finished|, i requires 0 <= i < |finished| => finished[i].msg)
  }

  /** Every response that is over could be printed. */
  predicate AllFit(codec: Codec, finished: seq<Finished>) {
    forall k :: 0 <= k < |finished| ==> Safe(codec, finished[k].msg)
  }

  /** Which of the responses that are over have gone out as something. */
  function Spoken(codec: Codec, finished: seq<Finished>): (at: seq<nat>)
    ensures forall j :: 0 <= j < |at| ==> at[j] < |finished|
    ensures |at| <= |finished|
  {
    ReadyAt(codec, MessagesOf(finished))
  }

  function SpokenBytes(codec: Codec, finished: seq<Finished>): (pieces: seq<Bytes>) {
    Pick(Encodings(finished), Spoken(codec, finished))
  }

  lemma FinishedSent(codec: Codec, finished: seq<Finished>)
    requires AllSent(codec, finished) && AllFit(codec, finished)
    ensures AllSentAs(codec, false, MessagesOf(finished), Encodings(finished))
  {
    hide Safe, SentAs;
  }

  /** A peer that reads the wire with a fresh reader for each response that was ready gets these in
      order, whatever is behind them and however the wire is cut; only in GNY the values are right
      only if none is cut. */
  lemma PeerReadsInOrder(codec: Codec, finished: seq<Finished>, behind: Bytes, sizes: seq<seq<nat>>)
    requires AllSent(codec, finished) && AllFit(codec, finished)
    requires |sizes| == |Spoken(codec, finished)| && ReadsReach(SpokenBytes(codec, finished), sizes)
    requires CutClean(codec, false, SpokenBytes(codec, finished), sizes, behind)
      || Intact(codec, false, Wire(finished) + behind, sizes)
    ensures var at := Spoken(codec, finished);
      var (ms, left) := Sessions(codec, false, Wire(finished) + behind, sizes);
      && left == behind
      && |ms| == |at|
      && forall j :: 0 <= j < |ms| ==>
        var m := Understood(codec, finished[at[j]].msg);
        Alike(codec, ms[j], m) && (CutClean(codec, false, SpokenBytes(codec, finished), sizes, behind) ==> ms[j] == m)
  {
    hide Understood, Safe, Ready, ReadsReach, CutClean, Intact, Fed, Complete, Sessions, Wire, Alike, SentAs, AllSent;
    hide ReadyAt, Sockets.Concat, NewReader;
    var pieces := SpokenBytes(codec, finished);
    WireIsConcat(finished);
    FinishedSent(codec, finished);
    ReadyPieces(codec, false, MessagesOf(finished), Encodings(finished));
    SessionsRecoverAll(codec, false, pieces, sizes, behind);
  }

  /** The peer's k-th message is the k-th response for every response that is over, and the wire can
      be taken apart in that way at all, if and only if every response was ready. One that was over
      without having been ready has left nothing on the wire, and the next is taken for it. */
  lemma AnswersInOrderIff(codec: Codec, finished: seq<Finished>)
    requires AllSent(codec, finished) && AllFit(codec, finished)
    ensures InPlace(Spoken(codec, finished), |finished|) <==>
      forall k :: 0 <= k < |finished| ==> Ready(codec, finished[k].msg)
    ensures (exists pieces ::
        Spells(codec, false, MessagesOf(finished), pieces) && Sockets.Concat(pieces) == Wire(finished))
      <==> forall k :: 0 <= k < |finished| ==> Ready(codec, finished[k].msg)
  {
    hide Safe, Ready, Wire, SentAs, AllSent, ReadyAt, Sockets.Concat, Spells;
    WireIsConcat(finished);
    FinishedSent(codec, finished);
    AllReadyIff(codec, MessagesOf(finished));
    InOrderIff(codec, false, MessagesOf(finished), Encodings(finished));
  }

  // ----- the queue of transactions of one connection -----

  /** A request and its response, by their places in memory. */
  datatype Pair = Pair(req: nat, res: nat)

  /** The transactions still to be answered, the printer at work on the first of them, the
      responses that are over and everything handed to the socket. */
  datatype Line = Line(
    codec: Codec,
    messages: seq<Cell>,
    queue: seq<Pair>,
    writer: Option<Writer>,
    finished: seq<Finished>,
    written: Bytes)

  /** What has gone out of the response being sent. */
  function InProgress(l: Line): (b: Bytes) {
    if l.writer.Some? then l.writer.value.sent else []
  }

  ghost predicate CellAt(l: Line, i: nat, isRequest: bool) {
    i < |l.messages| && l.messages[i].held.isRequest == isRequest && Kept(l.messages[i])
  }

  /** The messages of the queue: responses apart from each other, and untouched by any printer
      until it is their turn. */
  ghost predicate Queued(l: Line) {
    && (forall k :: 0 <= k < |l.queue| ==> CellAt(l, l.queue[k].req, true) && CellAt(l, l.queue[k].res, false))
    && (forall i, j :: 0 <= i < j < |l.queue| ==> l.queue[i].res != l.queue[j].res)
    && (forall k :: 0 <= k < |l.queue| && (k > 0 || l.writer.None?) ==>
         l.messages[l.queue[k].res].held == l.messages[l.queue[k].res].added)
  }

  /** The current printer works on the response at the head of the queue. */
  ghost predicate Writing(l: Line) {
    l.writer.Some? ==>
      && l.queue != [] && l.queue[0].res < |l.messages| && l.writer.value.printer.Codec() == l.codec
      && Working(l.messages[l.queue[0].res], l.writer.value)
  }

  /** What has gone out is the responses that are over, in order, and the start of the current one. */
  ghost predicate Accounted(l: Line) {
    AllSent(l.codec, l.finished) && l.written == Wire(l.finished) + InProgress(l)
  }

  ghost predicate Sound(l: Line) {
    Queued(l) && Writing(l) && Accounted(l)
  }

  /** Indices that the functions below rely on. */
  predicate InRange(l: Line) {
    && (forall k :: 0 <= k < |l.queue| ==> l.queue[k].req < |l.messages| && l.queue[k].res < |l.messages|)
    && (l.writer.Some? ==> l.queue != [])
  }

  lemma SoundInRange(l: Line)
    requires Sound(l)
    ensures InRange(l)
  {
    hide Kept, Working;
  }

  function WithWriter(l: Line): (l': Line)
    ensures InRange(l) && l.queue != [] ==> InRange(l')
  {
    if l.writer.Some? then l else l.(writer := Some(NewWriter(l.codec)))
  }

  /** The printer looks for more to print. */
  function LookedFor(l: Line): (l': Line)
    requires InRange(l) && l.writer.Some?
    ensures InRange(l') && l'.writer.Some?
    ensures l' == l.(messages := l'.messages, writer := l'.writer) && |l'.messages| == |l.messages|
  {
    var res := l.queue[0].res;
    var (c, w) := Looked(l.messages[res], l.writer.value);
    l.(messages := l.messages[res := c], writer := Some(w))
  }

  /** Nothing left to print, and request and response both done and drained. */
  predicate IsOver(l: Line)
    requires InRange(l) && l.writer.Some?
  {
    && l.writer.value.printer.Data() == []
    && Sent(l.messages[l.queue[0].req].held) && Sent(l.messages[l.queue[0].res].held)
  }

  function Retired(l: Line): (l': Line)
    requires InRange(l) && l.writer.Some?
    ensures InRange(l')
  {
    var res := l.queue[0].res;
    var f := Finished(res, l.messages[res].added, l.writer.value.sent);
    l.(queue := l.queue[1..], writer := None, finished := l.finished + [f])
  }

  /** The printer looks once more and the socket takes n bytes. */
  function Written(l: Line, n: nat): (l': Line)
    requires InRange(l) && l.writer.Some?
    requires n <= |LookedFor(l).writer.value.printer.Data()|
    ensures InRange(l') && l'.writer.Some? && l'.codec == l.codec
  {
    var l1 := LookedFor(l);
    var w := l1.writer.value;
    l1.(writer := Some(SentOn(w, n)), written := l1.written + w.printer.Data()[..n])
  }

  function WithCell(l: Line, c: Cell): (l': Line)
    ensures InRange(l) ==> InRange(l')
  {
    l.(messages := l.messages + [c])
  }

  function WithPair(l: Line, p: Pair): (l': Line)
    requires p.req < |l.messages| && p.res < |l.messages|
    ensures InRange(l) ==> InRange(l')
  {
    l.(queue := l.queue + [p])
  }

  /** A message receives d. */
  function FilledAt(l: Line, i: nat, d: Msg): (l': Line)
    requires i < |l.messages|
    ensures InRange(l) ==> InRange(l')
  {
    l.(messages := l.messages[i := Filled(l.messages[i], d)])
  }

  /** What is left of a message after something has been taken out of it. */
  predicate TakenFrom(held: Msg, left: Msg) {
    && left == held.(headers := left.headers, entity := left.entity, footers := left.footers)
    && (left.headers == [] || left.headers == held.headers)
    && (left.entity == [] || left.entity == held.entity)
    && (left.footers == [] || left.footers == held.footers)
  }

  function TakenAt(l: Line, i: nat, left: Msg): (l': Line)
    requires i < |l.messages|
    ensures InRange(l) ==> InRange(l')
  {
    l.(messages := l.messages[i := l.messages[i].(held := left)])
  }

  // ----- each of these keeps the line sound -----

  lemma NewCellSound(isRequest: bool)
    ensures Kept(NewCell(isRequest))
  {
    KeptIff(NewCell(isRequest));
  }

  /** No request is lost, and none but one may have changed its stage. */
  ghost predicate RequestsKept(l: Line, l': Line, changed: nat) {
    forall i: nat :: CellAt(l, i, true) ==>
      CellAt(l', i, true) && (i != changed ==> l'.messages[i].held.stage == l.messages[i].held.stage)
  }

  lemma OneChanged(l: Line, l': Line, i: nat)
    requires i < |l.messages| == |l'.messages|
    requires forall j :: 0 <= j < |l.messages| && j != i ==> l'.messages[j] == l.messages[j]
    requires CellAt(l, i, true) ==> CellAt(l', i, true)
    ensures RequestsKept(l, l', i)
    ensures l'.messages[i].held.stage == l.messages[i].held.stage || !l.messages[i].held.isRequest ==>
      forall changed :: RequestsKept(l, l', changed)
  {
    hide Kept;
  }

  lemma WithWriterSound(l: Line)
    requires Sound(l) && l.queue != []
    ensures Sound(WithWriter(l)) && forall i: nat, r :: CellAt(WithWriter(l), i, r) == CellAt(l, i, r)
  {
    hide Working, AllSent, Wire, Kept;
    if l.writer.None? {
      var c := l.messages[l.queue[0].res];
      assert c.held == c.added;
      NewWriterWorks(c, l.codec);
      assert Writing(WithWriter(l));
      assert Accounted(WithWriter(l));
    }
  }

  lemma LookedForSound(l: Line)
    requires Sound(l) && l.writer.Some? && InRange(l)
    ensures var l' := LookedFor(l);
      && Sound(l')
      && (forall i :: 0 <= i < |l.messages| ==>
           && l'.messages[i].added == l.messages[i].added
           && l'.messages[i].held.stage == l.messages[i].held.stage
           && l'.messages[i].held.isRequest == l.messages[i].held.isRequest
           && (CellAt(l, i, true) ==> l'.messages[i] == l.messages[i]))
      && (forall changed :: RequestsKept(l, l', changed))
      && (IsOver(l') ==> SentWhole(l'))
  {
    hide Working, AllSent, Wire, Kept, Looked, Safe, SentAs;
    var res := l.queue[0].res;
    LookWorks(l.messages[res], l.writer.value);
    LookKeepsRest(l.messages[res], l.writer.value);
    OneChanged(l, LookedFor(l), res);
  }

  /** The response at the head of the queue has gone out whole, if it is safe to print. */
  ghost predicate SentWhole(l: Line) {
    l.writer.Some? && l.queue != [] && l.queue[0].res < |l.messages| &&
    var c := l.messages[l.queue[0].res];
    Safe(l.codec, c.added) ==> SentAs(l.codec, c.added, l.writer.value.sent)
  }

  lemma LookKeepsRest(c: Cell, w: Writer)
    ensures var (c', w') := Looked(c, w); c'.added == c.added && w'.sent == w.sent
  {
    hide Updated;
  }

  lemma RetiredSound(l: Line)
    requires Sound(l) && InRange(l) && l.writer.Some? && SentWhole(l)
    ensures Sound(Retired(l))
  {
    hide Working, AllSent, Wire, Kept, Safe, SentAs;
    var res := l.queue[0].res;
    var f := Finished(res, l.messages[res].added, l.writer.value.sent);
    SameKind(l.messages[res]);
    AddFinished(l.codec, l.finished, f);
    assert Wire(l.finished + [f]) + [] == l.written;
  }

  lemma SameKind(c: Cell)
    requires Kept(c)
    ensures c.added.isRequest == c.held.isRequest
  {}

  lemma AddFinished(codec: Codec, finished: seq<Finished>, f: Finished)
    requires AllSent(codec, finished) && !f.msg.isRequest
    requires Safe(codec, f.msg) ==> SentAs(codec, f.msg, f.bytes)
    ensures AllSent(codec, finished + [f])
    ensures Wire(finished + [f]) == Wire(finished) + f.bytes
  {
    hide Safe, SentAs, Wire;
    WireExtended(finished, f);
  }

  lemma WrittenSound(l: Line, n: nat)
    requires Sound(l) && InRange(l) && l.writer.Some?
    requires n <= |LookedFor(l).writer.value.printer.Data()|
    ensures Sound(Written(l, n)) && forall changed :: RequestsKept(l, Written(l, n), changed)
  {
    hide Working, AllSent, Wire, Kept, Looked, Safe, SentAs, LookedFor, IsOver;
    var l1 := LookedFor(l);
    LookedForSound(l);
    var w := l1.writer.value;
    SendWorks(l1.messages[l1.queue[0].res], w, n);
    assert forall i: nat, r :: CellAt(Written(l, n), i, r) == CellAt(l1, i, r);
    assert Wire(l.finished) + (w.sent + w.printer.Data()[..n]) == Wire(l.finished) + w.sent + w.printer.Data()[..n];
  }

  lemma WithCellSound(l: Line, c: Cell)
    requires Sound(l)
    ensures Sound(WithCell(l, c)) && forall changed :: RequestsKept(l, WithCell(l, c), changed)
  {
    hide Working, AllSent, Wire, Kept;
  }

  lemma WithPairSound(l: Line, p: Pair)
    requires Sound(l) && CellAt(l, p.req, true) && CellAt(l, p.res, false)
    requires l.messages[p.res].held == l.messages[p.res].added
    requires forall k :: 0 <= k < |l.queue| ==> l.queue[k].res != p.res
    ensures Sound(WithPair(l, p))
  {
    hide Working, AllSent, Wire, Kept;
  }

  lemma FilledCell(l: Line, i: nat, isRequest: bool, d: Msg)
    requires CellAt(l, i, isRequest) && Fills(l.messages[i].held, d)
    ensures CellAt(FilledAt(l, i, d), i, isRequest)
    ensures FilledAt(l, i, d).messages[i].held.stage == d.stage
  {
    hide Kept, Fills;
    FillSameKind(l.messages[i].held, d);
    FilledKept(l.messages[i], d);
  }

  lemma FillRequestSound(l: Line, i: nat, d: Msg)
    requires Sound(l) && CellAt(l, i, true) && Fills(l.messages[i].held, d)
    ensures Sound(FilledAt(l, i, d)) && RequestsKept(l, FilledAt(l, i, d), i)
  {
    hide Working, AllSent, Wire, Kept, Fills, Filled;
    FilledCell(l, i, true, d);
    OneChanged(l, FilledAt(l, i, d), i);
    assert forall k :: 0 <= k < |l.queue| ==> l.queue[k].res != i;
  }

  lemma FillResponseSound(l: Line, at: nat, d: Msg)
    requires Sound(l) && at < |l.queue| && l.queue[at].res < |l.messages|
    requires Fills(l.messages[l.queue[at].res].held, d)
    ensures Sound(FilledAt(l, l.queue[at].res, d))
    ensures forall changed :: RequestsKept(l, FilledAt(l, l.queue[at].res, d), changed)
  {
    hide Working, AllSent, Wire, Kept, Fills;
    var c := l.messages[l.queue[at].res];
    FilledCell(l, l.queue[at].res, false, d);
    OneChanged(l, FilledAt(l, l.queue[at].res, d), l.queue[at].res);
    if l.writer.Some? && at == 0 {
      FillWorks(c, l.writer.value, d);
    }
  }

  lemma TakenFromKept(c: Cell, left: Msg)
    requires TakenFrom(c.held, left)
    ensures Kept(c) ==> Kept(c.(held := left))
    ensures left.isRequest == c.held.isRequest && left.stage == c.held.stage
  {
    hide Kept;
    KeptIff(c);
    KeptIff(c.(held := left));
  }

  /** Taking something out of a request leaves the queue as it was. */
  lemma TakenAtSound(l: Line, req: nat, left: Msg)
    requires Sound(l) && req < |l.messages|
    requires l.messages[req].held.isRequest && TakenFrom(l.messages[req].held, left)
    ensures Sound(TakenAt(l, req, left))
    ensures forall changed :: RequestsKept(l, TakenAt(l, req, left), changed)
  {
    hide Working, Kept, TakenFrom, AllSent, Wire;
    var c := l.messages[req];
    TakenFromKept(c, left);
    var l' := TakenAt(l, req, left);
    OneChanged(l, l', req);
    assert forall i, isRequest :: CellAt(l, i, isRequest) ==> CellAt(l', i, isRequest);
    assert forall k :: 0 <= k < |l.queue| ==> l.queue[k].res != req;
  }

  // ----- the requests of one connection, in the order they arrive -----

  /** The requests read so far, oldest first: all but the last, which is being read, are complete. */
  ghost predicate Arrivals(l: Line, arrived: seq<nat>, readerMsg: nat) {
    && arrived != [] && arrived[|arrived|-1] == readerMsg
    && (forall k :: 0 <= k < |arrived| ==> CellAt(l, arrived[k], true))
    && (forall i, j :: 0 <= i < j < |arrived| ==> arrived[i] < arrived[j])
    && (forall k :: 0 <= k < |arrived| - 1 ==> l.messages[arrived[k]].held.stage == DONE)
  }

  lemma ArrivalsKept(l: Line, l': Line, arrived: seq<nat>, readerMsg: nat)
    requires Arrivals(l, arrived, readerMsg) && RequestsKept(l, l', readerMsg)
    ensures Arrivals(l', arrived, readerMsg)
  {
    hide CellAt;
    assert forall k :: 0 <= k < |arrived| ==> CellAt(l, arrived[k], true);
  }

  /** The current request is complete and the next one, in a new message, is behind it. */
  lemma NextArrival(l: Line, arrived: seq<nat>, readerMsg: nat)
    requires Arrivals(l, arrived, readerMsg) && l.messages[readerMsg].held.stage == DONE
    ensures Arrivals(WithCell(l, NewCell(true)), arrived + [|l.messages|], |l.messages|)
  {
    hide Kept;
    NewCellSound(true);
    assert forall k :: 0 <= k < |arrived| ==> CellAt(l, arrived[k], true);
  }

  /** The k-th pair is for the k-th request, the responses that are over are those of the first
      pairs, and the others are the queue. */
  ghost predicate PairsInOrder(l: Line, pairs: seq<Pair>, arrived: seq<nat>) {
    && |pairs| <= |arrived| && |l.finished| <= |pairs| && |l.finished| < |arrived|
    && (forall k :: 0 <= k < |pairs| ==> pairs[k].req == arrived[k])
    && l.queue == pairs[|l.finished|..]
    && (forall k :: 0 <= k < |l.finished| ==> l.finished[k].res == pairs[k].res)
  }

  lemma SamePairs(l: Line, l': Line, pairs: seq<Pair>, arrived: seq<nat>)
    requires PairsInOrder(l, pairs, arrived) && l'.queue == l.queue && l'.finished == l.finished
    ensures PairsInOrder(l', pairs, arrived)
  {}
}
