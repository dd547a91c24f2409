/** Up to 256 virtual connections over one socket: framing that can be cut at any byte, and a
    first-come first-served queue of the connections that have something to write. */
module MuxModel {
  import opened Basics
  import opened Octets
  import opened MuxFormat
  import Common

  /** A virtual connection: what it has to write and what has been read for it. */
  datatype Conn = Conn(pending: Bytes, received: Bytes)

  /** The state of one end. */
  datatype Mux = Mux(
    reading: Frame,
    wId: nat, wSz: nat, wState: nat,
    queue: seq<nat>,
    queued: seq<bool>,
    conns: seq<Option<Conn>>)

  function Fresh(): (m: Mux) {
    Mux(Idle, 0, 0, 0, [], seq(IDS, _ => false), seq(IDS, _ => None))
  }

  /** Sizes and ranges: connections named by the queue or being written exist. */
  predicate Proper(m: Mux) {
    && |m.queued| == IDS && |m.conns| == IDS
    && (forall k :: 0 <= k < |m.queue| ==> m.queue[k] < IDS && m.conns[m.queue[k]].Some?)
    && m.wId < IDS && m.wSz <= MAX_SZ && m.wState <= 3
    && (forall i :: 0 <= i < IDS && m.queued[i] ==> m.conns[i].Some?)
    && (m.wSz > 0 ==> m.conns[m.wId].Some?)
    && (m.reading != Idle ==> m.reading.id < IDS)
    && (m.reading.Body? ==> 0 < m.reading.left <= MAX_SZ)
  }

  function PendingOf(m: Mux, i: nat): (r: Bytes)
    requires Proper(m) && i < IDS
  {
    if m.conns[i].Some? then m.conns[i].value.pending else []
  }

  function ReceivedBy(m: Mux, i: nat): (r: Bytes)
    requires Proper(m) && i < IDS
  {
    if m.conns[i].Some? then m.conns[i].value.received else []
  }

  // ----- the queue -----

  predicate HasToWrite(m: Mux, i: nat)
    requires Proper(m) && i < IDS
  {
    PendingOf(m, i) != []
  }

  /** Put a connection at the end of the queue if it is not there and has something to write. */
  function Offered(m: Mux, i: nat): (m': Mux)
    requires Proper(m) && i < IDS
    ensures Proper(m')
  {
    if !m.queued[i] && HasToWrite(m, i) then
      m.(queue := m.queue + [i], queued := m.queued[i := true])
    else m
  }

  /** `update`: offer every connection from the n-th on. */
  function OfferedFrom(m: Mux, n: nat): (m': Mux)
    requires Proper(m) && n <= IDS
    ensures Proper(m')
    decreases IDS - n
  {
    if n == IDS then m else OfferedFrom(Offered(m, n), n + 1)
  }

  predicate PopsNow(m: Mux) {
    m.wSz == 0 && m.queue != []
  }

  /** `get_write_size`: start a frame for the connection at the head of the queue. */
  function Polled(m: Mux): (m': Mux)
    requires Proper(m)
    ensures Proper(m')
  {
    if !PopsNow(m) then m
    else
      var id := m.queue[0];
      var size := |PendingOf(m, id)|;
      m.(wId := id, wSz := if size < MAX_SZ then size else MAX_SZ, wState := 0, queue := m.queue[1..])
  }

  // ----- writing -----

  /** The bytes of the current frame still to go out. */
  function Rest(m: Mux): (r: nat)
    requires Proper(m)
  {
    if m.wSz == 0 then 0 else m.wSz + 3 - m.wState
  }

  /** The bytes that remain of the current frame. */
  function FrameRest(m: Mux): (r: Bytes)
    requires Proper(m) && m.wSz > 0
  {
    var data := PendingOf(m, m.wId);
    Header(m.wId, m.wSz)[m.wState..] + (if |data| < m.wSz then data else data[..m.wSz])
  }

  /** The state after the payload of the current frame has moved on by k bytes. */
  function PayloadWritten(m: Mux, k: nat): (m': Mux)
    requires Proper(m) && m.wSz > 0 && k <= m.wSz && k <= |PendingOf(m, m.wId)|
    ensures Proper(m')
  {
    var c := m.conns[m.wId].value;
    var m1 := m.(conns := m.conns[m.wId := Some(c.(pending := c.pending[k..]))], wSz := m.wSz - k);
    if m1.wSz > 0 then m1
    else
      var m2 := m1.(wId := 0, wState := 0);
      if c.pending[k..] != [] then m2.(queue := m.queue + [m.wId])
      else m2.(queued := m.queued[m.wId := false])
  }

  /** `write`: n more bytes of the current frame have gone out. */
  function Written(m: Mux, n: nat): (m': Mux)
    requires Proper(m) && m.wSz > 0 && n <= |FrameRest(m)|
    ensures Proper(m')
  {
    if n <= 3 - m.wState then m.(wState := m.wState + n)
    else PayloadWritten(m.(wState := 3), n - (3 - m.wState))
  }

  /** k more bytes of the header of the current frame have gone out. */
  function HeadWritten(m: Mux, k: nat): (m': Mux)
    requires Proper(m) && m.wState + k <= 3
    ensures Proper(m')
  {
    m.(wState := m.wState + k)
  }

  // ----- reading -----

  /** A connection is made when its id is first met; `greeting` is what it has to write then. */
  function Opened(m: Mux, i: nat, greeting: Bytes): (m': Mux)
    requires Proper(m) && i < IDS
    ensures Proper(m') && m'.conns[i].Some?
  {
    if m.conns[i].Some? then m else m.(conns := m.conns[i := Some(Conn(greeting, []))])
  }

  /** Header bytes of a frame have come in. */
  function HeaderRead(m: Mux, head: Bytes): (m': Mux) {
    m.(reading := Run(m.reading, head))
  }

  /** Data bytes of a frame have come in; `reply` is what the connection has to write because of
      them. */
  function DataRead(m: Mux, data: Bytes, reply: Bytes): (m': Mux)
    requires Proper(m) && m.reading.Body? && m.conns[m.reading.id].Some?
    requires 0 < |data| <= m.reading.left
    ensures Proper(m')
  {
    var id := m.reading.id;
    var c := m.conns[id].value;
    var c' := Conn(c.pending + reply, c.received + data);
    RunBody(id, m.reading.left, data, id);
    Offered(m.(reading := Run(m.reading, data), conns := m.conns[id := Some(c')]), id)
  }

  /** Data is read although the second size byte has not come in: the first one, taken for the
      size, is counted down, and when it runs out the frame is taken to be over. If no data comes,
      as when the first size byte is zero, nothing happens. */
  function SlippedRead(m: Mux, data: Bytes, reply: Bytes): (m': Mux)
    requires Proper(m) && m.reading.HasHigh? && m.conns[m.reading.id].Some?
    requires |data| <= m.reading.high as int
    ensures Proper(m')
  {
    var id, high := m.reading.id, m.reading.high as int;
    var c := m.conns[id].value;
    var reading := if |data| == high then Idle else HasHigh(id, Byte(high - |data|));
    if data == [] then m
    else Offered(m.(reading := reading,
               conns := m.conns[id := Some(Conn(c.pending + reply, c.received + data))]), id)
  }

  // ----- runs of one end -----

  /** One end with its history: what each connection has produced, what has gone out and what has
      come in. */
  datatype Node = Node(m: Mux, produced: seq<Bytes>, sent: Bytes, taken: Bytes)

  datatype Event =
    | Supply(id: nat, out: Bytes)                      // a connection has more to write
    | Create(id: nat, out: Bytes)                      // a connection is made in a free slot
    | Update
    | Poll
    | Write(n: nat)
    | SlipWrite(n: nat)                                // data goes out before the second size byte
    | Head(head: Bytes)
    | Open(greeting: Bytes)                            // the id just read is met for the first time
    | Data(data: Bytes, reply: Bytes)
    | SlipData(data: Bytes, reply: Bytes)              // data is read before the second size byte

  function Start(): (n: Node) {
    Node(Fresh(), seq(IDS, _ => []), [], [])
  }

  /** Header bytes end where the data begins. */
  predicate HeadFits(f: Frame, head: Bytes)
    decreases |head|
  {
    head == [] || (!f.Body? && HeadFits(Step(f, head[0]), head[1..]))
  }

  lemma {:induction false} RunKeepsProper(m: Mux, head: Bytes)
    requires Proper(m) && HeadFits(m.reading, head)
    ensures Proper(HeaderRead(m, head))
    ensures forall i :: DataFor(m.reading, head, i) == []
    decreases |head|
  {
    if head != [] {
      var m1 := m.(reading := Step(m.reading, head[0]));
      RunKeepsProper(m1, head[1..]);
    }
  }

  predicate Enabled(n: Node, e: Event) {
    && Proper(n.m) && |n.produced| == IDS
    && match e
       case Supply(id, out) => id < IDS && n.m.conns[id].Some?
       case Create(id, out) => id < IDS && n.m.conns[id].None?
       case Update => true
       case Poll => true
       case Write(k) => n.m.wSz > 0 && k <= |FrameRest(n.m)|
       case SlipWrite(k) =>
         n.m.wSz > 0 && n.m.wState == 2 && k <= n.m.wSz && k <= |PendingOf(n.m, n.m.wId)|
       case Head(head) => HeadFits(n.m.reading, head)
       case Open(greeting) =>
         (n.m.reading.Body? || n.m.reading.HasHigh?) && n.m.conns[n.m.reading.id].None?
       case Data(data, reply) =>
         && n.m.reading.Body? && n.m.conns[n.m.reading.id].Some?
         && 0 < |data| <= n.m.reading.left
       case SlipData(data, reply) =>
         && n.m.reading.HasHigh? && n.m.conns[n.m.reading.id].Some?
         && |data| <= n.m.reading.high as int && (data == [] ==> reply == [])
  }

  function Produce(produced: seq<Bytes>, id: nat, out: Bytes): (r: seq<Bytes>)
    requires id < |produced|
  {
    produced[id := produced[id] + out]
  }

  function Next(n: Node, e: Event): (n': Node)
    requires Enabled(n, e)
  {
    var m := n.m;
    match e
    case Supply(id, out) =>
      var c := m.conns[id].value;
      n.(m := m.(conns := m.conns[id := Some(c.(pending := c.pending + out))]),
         produced := Produce(n.produced, id, out))
    case Create(id, out) =>
      n.(m := Offered(Opened(m, id, out), id), produced := Produce(n.produced, id, out))
    case Update => n.(m := OfferedFrom(m, 0))
    case Poll => n.(m := Polled(m))
    case Write(k) => n.(m := Written(m, k), sent := n.sent + FrameRest(m)[..k])
    case SlipWrite(k) =>
      n.(m := PayloadWritten(m, k), sent := n.sent + PendingOf(m, m.wId)[..k])
    case Head(head) => n.(m := HeaderRead(m, head), taken := n.taken + head)
    case Open(greeting) =>
      n.(m := Opened(m, m.reading.id, greeting), produced := Produce(n.produced, m.reading.id, greeting))
    case Data(data, reply) =>
      n.(m := DataRead(m, data, reply),
         produced := Produce(n.produced, m.reading.id, reply),
         taken := n.taken + data)
    case SlipData(data, reply) =>
      n.(m := SlippedRead(m, data, reply),
         produced := Produce(n.produced, m.reading.id, reply),
         taken := n.taken + data)
  }

  predicate IsSlip(e: Event) {
    e.SlipWrite? || e.SlipData?
  }

  predicate NoSlips(events: seq<Event>) {
    forall i :: 0 <= i < |events| ==> !IsSlip(events[i])
  }

  ghost predicate Reaches(n: Node, events: seq<Event>, n': Node)
    decreases |events|
  {
    if events == [] then n == n'
    else Enabled(n, events[0]) && Reaches(Next(n, events[0]), events[1..], n')
  }
}
