/** What holds over every run of the multiplexing layer: each stream arrives in order and whole,
    the queue is exact, and waiting is bounded. */
module MuxRuns {
  import opened Basics
  import opened Octets
  import opened MuxFormat
  import opened MuxModel
  import Common

  // ----- the queue -----

  predicate Distinct(s: seq<nat>) {
    forall i, j :: 0 <= i < j < |s| ==> s[i] != s[j]
  }

  predicate Current(m: Mux, i: nat) {
    m.wSz > 0 && m.wId == i
  }

  /** A connection is marked as queued exactly when it stands in the queue or is being written,
      and no connection is in the queue twice or both in it and being written. */
  predicate MarksExact(m: Mux)
    requires Proper(m)
  {
    && (forall i :: 0 <= i < IDS ==> (m.queued[i] <==> i in m.queue || Current(m, i)))
    && Distinct(m.queue)
    && (m.wSz > 0 ==> m.wId !in m.queue)
  }

  /** Everything in the queue has something to write, and the current frame can be finished. */
  predicate QueueLive(m: Mux)
    requires Proper(m)
  {
    && (forall k :: 0 <= k < |m.queue| ==> HasToWrite(m, m.queue[k]))
    && (m.wSz > 0 ==> m.wSz <= |PendingOf(m, m.wId)|)
  }

  lemma InQueue(m: Mux, k: nat)
    requires Proper(m) && MarksExact(m) && k < |m.queue|
    ensures m.queued[m.queue[k]]
  {
    assert m.queue[k] in m.queue;
  }

  /** The queue never holds more than 256 connections. */
  lemma QueueBounded(m: Mux)
    requires Proper(m) && MarksExact(m)
    ensures |m.queue| <= IDS
  {
    DistinctBelow(m.queue, IDS);
  }

  lemma {:induction false} DistinctBelow(s: seq<nat>, n: nat)
    requires Distinct(s) && forall k :: 0 <= k < |s| ==> s[k] < n
    ensures |s| <= n
    decreases n
  {
    if s != [] {
      assert s[0] < n;
      if k :| 0 <= k < |s| && s[k] == n - 1 {
        var t := s[..k] + s[k+1..];
        forall j | 0 <= j < |t| ensures t[j] < n - 1 {
          assert t[j] == s[if j < k then j else j + 1];
        }
        DistinctBelow(t, n - 1);
      } else {
        DistinctBelow(s, n - 1);
      }
    }
  }

  lemma OfferedExact(m: Mux, i: nat)
    requires Proper(m) && i < IDS && MarksExact(m)
    ensures var m' := Offered(m, i);
      && MarksExact(m')
      && (QueueLive(m) ==> QueueLive(m'))
      && (HasToWrite(m, i) ==> m'.queued[i])
      && (forall j :: 0 <= j < IDS && m.queued[j] ==> m'.queued[j])
  {
    var m' := Offered(m, i);
    if !m.queued[i] && HasToWrite(m, i) {
      assert forall j :: j in m'.queue <==> j in m.queue || j == i;
    }
  }

  /** `update` leaves no connection with something to write outside the queue. */
  lemma {:induction false} UpdateExact(m: Mux, n: nat)
    requires Proper(m) && n <= IDS && MarksExact(m)
    ensures var m' := OfferedFrom(m, n);
      && MarksExact(m')
      && (QueueLive(m) ==> QueueLive(m'))
      && m'.conns == m.conns
      && (forall i :: 0 <= i < IDS && m.queued[i] ==> m'.queued[i])
      && (forall i :: n <= i < IDS && HasToWrite(m, i) ==> m'.queued[i])
    decreases IDS - n
  {
    hide MarksExact, QueueLive;
    if n < IDS {
      OfferedExact(m, n);
      var m1 := Offered(m, n);
      UpdateExact(m1, n + 1);
      assert forall i :: 0 <= i < IDS ==> HasToWrite(m1, i) == HasToWrite(m, i);
    }
  }

  /** Starting a frame keeps the marks exact if and only if the connection at the head of the
      queue still has something to write. */
  lemma PollExactIff(m: Mux)
    requires Proper(m) && MarksExact(m)
    ensures MarksExact(Polled(m)) <==> !PopsNow(m) || HasToWrite(m, m.queue[0])
    ensures QueueLive(m) ==> MarksExact(Polled(m)) && QueueLive(Polled(m))
  {
    if PopsNow(m) {
      var id, m' := m.queue[0], Polled(m);
      InQueue(m, 0);
      assert forall j :: j in m.queue <==> j == id || j in m'.queue;
      assert id !in m'.queue;
      if HasToWrite(m, id) {
        assert m'.wSz > 0;
      }
      assert forall k :: 0 <= k < |m'.queue| ==> m'.queue[k] == m.queue[k+1];
    }
  }

  /** Writing keeps the marks exact, whether or not what is queued still has something to write. */
  lemma WriteExact(m: Mux, n: nat)
    requires Proper(m) && MarksExact(m)
    requires m.wSz > 0 && n <= |FrameRest(m)|
    ensures MarksExact(Written(m, n))
    ensures QueueLive(m) ==> QueueLive(Written(m, n))
  {
    if n > 3 - m.wState {
      var m1 := m.(wState := 3);
      hide PendingOf;
      assert MarksExact(m1) && (QueueLive(m) ==> QueueLive(m1));
      PayloadExact(m1, n - (3 - m.wState));
    }
  }

  lemma PayloadExact(m: Mux, k: nat)
    requires Proper(m) && MarksExact(m)
    requires m.wSz > 0 && k <= m.wSz && k <= |PendingOf(m, m.wId)|
    ensures MarksExact(PayloadWritten(m, k))
    ensures QueueLive(m) ==> QueueLive(PayloadWritten(m, k))
  {
    var m' := PayloadWritten(m, k);
    var c := m.conns[m.wId].value;
    forall i | 0 <= i < IDS && i != m.wId ensures PendingOf(m', i) == PendingOf(m, i) {}
    if k == m.wSz && c.pending[k..] != [] {
      assert forall j :: j in m'.queue <==> j in m.queue || j == m.wId;
    }
  }

  // ----- what has been sent and what has been read -----

  /** Where a reader of everything sent so far stands: inside the current frame. */
  function SendingFrame(m: Mux): (f: Frame)
    requires Proper(m)
  {
    if m.wSz == 0 then Idle else InHeader(m.wId, m.wSz, m.wState)
  }

  /** Everything a connection has produced has been sent in frames of its own or is pending. */
  predicate SentWhole(n: Node)
    requires Proper(n.m)
  {
    && |n.produced| == IDS
    && Run(Idle, n.sent) == SendingFrame(n.m)
    && forall i :: 0 <= i < IDS ==> n.produced[i] == DataFor(Idle, n.sent, i) + PendingOf(n.m, i)
  }

  /** Everything taken from the stream has gone to the connection its frame names. */
  predicate ReadWhole(n: Node)
    requires Proper(n.m)
  {
    && n.m.reading == Run(Idle, n.taken)
    && forall i :: 0 <= i < IDS ==> ReceivedBy(n.m, i) == DataFor(Idle, n.taken, i)
  }

  predicate QueueSound(n: Node) {
    Proper(n.m) && MarksExact(n.m) && QueueLive(n.m) && |n.produced| == IDS
  }

  predicate Sound(n: Node) {
    QueueSound(n) && SentWhole(n) && ReadWhole(n)
  }

  lemma StartSound()
    ensures Sound(Start())
  {}

  lemma HeadSent(m: Mux, k: nat, i: nat)
    requires Proper(m) && m.wSz > 0
    requires m.wState + k <= 3 && i < IDS
    ensures k <= |FrameRest(m)|
    ensures var piece, m' := FrameRest(m)[..k], Written(m, k);
      && piece == Header(m.wId, m.wSz)[m.wState..m.wState+k]
      && Run(SendingFrame(m), piece) == SendingFrame(m')
      && DataFor(SendingFrame(m), piece, i) == []
      && PendingOf(m', i) == PendingOf(m, i)
  {
    hide Run, DataFor;
    var head := Header(m.wId, m.wSz);
    assert FrameRest(m)[..k] == head[m.wState..][..k] == head[m.wState..m.wState+k];
    RunHeader(m.wId, m.wSz, m.wState, k, i);
  }

  lemma BodySent(m: Mux, k: nat, i: nat)
    requires Proper(m) && m.wSz > 0 && m.wState == 3 && k <= m.wSz <= |PendingOf(m, m.wId)|
    requires i < IDS
    ensures var body, m' := PendingOf(m, m.wId)[..k], PayloadWritten(m, k);
      && Run(SendingFrame(m), body) == SendingFrame(m')
      && DataFor(SendingFrame(m), body, i) + PendingOf(m', i) == PendingOf(m, i)
  {
    hide Run, DataFor;
    var data := PendingOf(m, m.wId);
    RunBody(m.wId, m.wSz, data[..k], i);
    assert data == data[..k] + data[k..];
    assert [] + PendingOf(m, i) == PendingOf(m, i);
  }

  /** The next bytes of a frame take the reader of the stream forward and carry exactly the data
      that leaves the pending buffer. */
  lemma PieceSent(m: Mux, k: nat, i: nat)
    requires Proper(m) && m.wSz > 0 && m.wSz <= |PendingOf(m, m.wId)|
    requires k <= |FrameRest(m)| && i < IDS
    ensures var piece, m' := FrameRest(m)[..k], Written(m, k);
      && Run(SendingFrame(m), piece) == SendingFrame(m')
      && DataFor(SendingFrame(m), piece, i) + PendingOf(m', i) == PendingOf(m, i)
  {
    hide Run, DataFor, PayloadWritten;
    var h := 3 - m.wState;
    if k <= h {
      HeadSent(m, k, i);
      assert [] + PendingOf(m, i) == PendingOf(m, i);
    } else {
      var m1 := m.(wState := 3);
      var head, body := FrameRest(m)[..h], PendingOf(m, m.wId)[..k-h];
      HeadSent(m, h, i);
      assert Written(m, h) == m1;
      BodySent(m1, k - h, i);
      assert FrameRest(m)[..k] == head + body;
      RunAppend(SendingFrame(m), head, body);
      DataAppend(SendingFrame(m), head, body, i);
      assert [] + DataFor(SendingFrame(m1), body, i) == DataFor(SendingFrame(m1), body, i);
    }
  }

  lemma WriteSound(n: Node, k: nat)
    requires Sound(n) && Enabled(n, Write(k))
    ensures Sound(Next(n, Write(k)))
  {
    hide FrameRest, SendingFrame, Run, DataFor, MarksExact, QueueLive, Written;
    var n' := Next(n, Write(k));
    var piece := FrameRest(n.m)[..k];
    WriteExact(n.m, k);
    WrittenKeepsReading(n.m, k);
    assert n.m.wSz <= |PendingOf(n.m, n.m.wId)| by {
      LiveFrame(n.m);
    }
    RunAppend(Idle, n.sent, piece);
    PieceSent(n.m, k, 0);
    forall i | 0 <= i < IDS
      ensures n'.produced[i] == DataFor(Idle, n'.sent, i) + PendingOf(n'.m, i)
      ensures ReceivedBy(n'.m, i) == DataFor(Idle, n'.taken, i)
    {
      PieceSent(n.m, k, i);
      DataAppend(Idle, n.sent, piece, i);
      var a, b, c := DataFor(Idle, n.sent, i), DataFor(SendingFrame(n.m), piece, i), PendingOf(n'.m, i);
      assert a + (b + c) == a + b + c;
    }
  }

  lemma LiveFrame(m: Mux)
    requires Proper(m) && QueueLive(m) && m.wSz > 0
    ensures m.wSz <= |PendingOf(m, m.wId)|
  {}

  lemma WrittenKeepsReading(m: Mux, k: nat)
    requires Proper(m) && m.wSz > 0 && k <= |FrameRest(m)|
    ensures Written(m, k).reading == m.reading
    ensures forall i :: 0 <= i < IDS ==> ReceivedBy(Written(m, k), i) == ReceivedBy(m, i)
  {}

  // ----- the other events -----

  lemma HeadSound(n: Node, head: Bytes)
    requires Sound(n) && Enabled(n, Head(head))
    ensures Sound(Next(n, Head(head)))
  {
    hide Run, DataFor;
    var n' := Next(n, Head(head));
    RunKeepsProper(n.m, head);
    RunAppend(Idle, n.taken, head);
    forall i | 0 <= i < IDS
      ensures ReceivedBy(n'.m, i) == DataFor(Idle, n'.taken, i)
    {
      DataAppend(Idle, n.taken, head, i);
      assert DataFor(Idle, n.taken, i) + [] == DataFor(Idle, n.taken, i);
    }
  }

  lemma DataSound(n: Node, data: Bytes, reply: Bytes)
    requires Sound(n) && Enabled(n, Data(data, reply))
    ensures Sound(Next(n, Data(data, reply)))
  {
    hide Run, DataFor, MarksExact, QueueLive, PendingOf, ReceivedBy;
    var n' := Next(n, Data(data, reply));
    forall i | 0 <= i < IDS
      ensures ReceivedBy(n'.m, i) == DataFor(Idle, n'.taken, i)
      ensures n'.produced[i] == DataFor(Idle, n'.sent, i) + PendingOf(n'.m, i)
    {
      DataArrives(n, data, reply, i);
    }
    RunBody(n.m.reading.id, n.m.reading.left, data, n.m.reading.id);
    DataQueue(n.m, Run(n.m.reading, data), data, reply);
    RunAppend(Idle, n.taken, data);
  }

  lemma DataArrives(n: Node, data: Bytes, reply: Bytes, i: nat)
    requires Sound(n) && Enabled(n, Data(data, reply)) && i < IDS
    ensures var n' := Next(n, Data(data, reply));
      && ReceivedBy(n'.m, i) == DataFor(Idle, n'.taken, i)
      && |n'.produced| == IDS && n'.produced[i] == DataFor(Idle, n'.sent, i) + PendingOf(n'.m, i)
  {
    hide Run, DataFor, MarksExact, QueueLive;
    var id := n.m.reading.id;
    DataAppend(Idle, n.taken, data, i);
    RunBody(id, n.m.reading.left, data, i);
    assert DataFor(Idle, n.taken, i) + [] == DataFor(Idle, n.taken, i);
    assert DataFor(Idle, n.sent, i) + (PendingOf(n.m, i) + reply)
        == DataFor(Idle, n.sent, i) + PendingOf(n.m, i) + reply;
  }

  /** A connection gets more to write: by itself, or because it has just been made. */
  lemma SupplySound(n: Node, id: nat, m1: Mux, out: Bytes)
    requires Sound(n) && id < IDS
    requires m1 == n.m.(conns := n.m.conns[id := Some(Conn(PendingOf(n.m, id) + out, ReceivedBy(n.m, id)))])
    ensures Sound(n.(m := m1, produced := Produce(n.produced, id, out)))
  {
    hide Run, DataFor;
    var n' := n.(m := m1, produced := Produce(n.produced, id, out));
    assert Proper(m1);
    forall i | 0 <= i < IDS
      ensures PendingOf(m1, i) == PendingOf(n.m, i) + (if i == id then out else [])
      ensures ReceivedBy(m1, i) == ReceivedBy(n.m, i)
      ensures n'.produced[i] == DataFor(Idle, n.sent, i) + PendingOf(m1, i)
    {
      assert PendingOf(n.m, i) + [] == PendingOf(n.m, i);
      assert DataFor(Idle, n.sent, i) + (PendingOf(n.m, i) + out)
          == DataFor(Idle, n.sent, i) + PendingOf(n.m, i) + out;
    }
  }

  lemma PolledSound(n: Node)
    requires Sound(n)
    ensures Sound(n.(m := Polled(n.m)))
  {
    hide Run, DataFor, MarksExact, QueueLive;
    PollExactIff(n.m);
    var m' := Polled(n.m);
    assert forall i :: 0 <= i < IDS ==> PendingOf(m', i) == PendingOf(n.m, i);
    assert forall i :: 0 <= i < IDS ==> ReceivedBy(m', i) == ReceivedBy(n.m, i);
  }

  /** Changing nothing but the queue and its marks, in an exact way. */
  lemma RequeuedSound(n: Node, m': Mux)
    requires Sound(n) && Proper(m') && MarksExact(m') && QueueLive(m')
    requires m' == n.m.(queue := m'.queue, queued := m'.queued)
    ensures Sound(n.(m := m'))
  {
    hide Run, DataFor, MarksExact, QueueLive;
    assert forall i :: 0 <= i < IDS ==> PendingOf(m', i) == PendingOf(n.m, i);
    assert forall i :: 0 <= i < IDS ==> ReceivedBy(m', i) == ReceivedBy(n.m, i);
  }

  lemma {:induction false} UpdateOnlyQueues(m: Mux, k: nat)
    requires Proper(m) && k <= IDS
    ensures var m' := OfferedFrom(m, k); m' == m.(queue := m'.queue, queued := m'.queued)
    ensures m.queue <= OfferedFrom(m, k).queue
    decreases IDS - k
  {
    if k < IDS {
      UpdateOnlyQueues(Offered(m, k), k + 1);
    }
  }

  predicate Waits(m: Mux, i: nat) {
    Proper(m) && i < IDS && !m.queued[i] && HasToWrite(m, i)
  }

  predicate Ascending(ids: seq<nat>) {
    forall a, b :: 0 <= a < b < |ids| ==> ids[a] < ids[b]
  }

  /** The ids from n on that have something to write and are not marked, in ascending order. */
  ghost predicate WaitingFrom(m: Mux, n: nat, ids: seq<nat>) {
    Ascending(ids) && forall i :: i in ids <==> n <= i && Waits(m, i)
  }

  predicate MarkedToo(m: Mux, m': Mux, ids: seq<nat>) {
    && |m.queued| == |m'.queued| == IDS
    && forall i :: 0 <= i < IDS ==> m'.queued[i] == (m.queued[i] || i in ids)
  }

  /** `update` puts all the connections that wait behind those in the queue, lowest id first, and
      marks just these. */
  lemma {:induction false} UpdateInOrder(m: Mux, n: nat) returns (ids: seq<nat>)
    requires Proper(m) && n <= IDS
    ensures WaitingFrom(m, n, ids)
    ensures var m' := OfferedFrom(m, n); m'.queue == m.queue + ids && MarkedToo(m, m', ids)
    decreases IDS - n
  {
    hide WaitingFrom, Proper, Waits, MarkedToo, Offered;
    if n == IDS {
      ids := [];
      NoneWaits(m);
      assert m.queue + ids == m.queue;
    } else {
      var m1 := Offered(m, n);
      var rest := UpdateInOrder(m1, n + 1);
      ids := if Waits(m, n) then [n] + rest else rest;
      OfferedWaits(m, n);
      WaitingStep(m, m1, n, rest);
      MarkedStep(m, m1, OfferedFrom(m1, n + 1), n, rest);
      Regroup(m.queue, [n], rest);
    }
  }

  lemma NoneWaits(m: Mux)
    requires Proper(m)
    ensures WaitingFrom(m, IDS, []) && MarkedToo(m, m, [])
  {}

  lemma OfferedWaits(m: Mux, n: nat)
    requires Proper(m) && n < IDS
    ensures var m1 := Offered(m, n);
      && m1.queue == (if Waits(m, n) then m.queue + [n] else m.queue)
      && m1.queued == (if Waits(m, n) then m.queued[n := true] else m.queued)
      && (forall i: nat :: n < i ==> Waits(m1, i) == Waits(m, i))
  {}

  lemma WaitingStep(m: Mux, m1: Mux, n: nat, rest: seq<nat>)
    requires WaitingFrom(m1, n + 1, rest) && forall i: nat :: n < i ==> Waits(m1, i) == Waits(m, i)
    ensures WaitingFrom(m, n, if Waits(m, n) then [n] + rest else rest)
  {
    hide Waits;
    assert forall b :: 0 <= b < |rest| ==> rest[b] in rest;
  }

  lemma MarkedStep(m: Mux, m1: Mux, m': Mux, n: nat, rest: seq<nat>)
    requires MarkedToo(m1, m', rest) && Proper(m) && n < IDS
    requires m1.queued == if Waits(m, n) then m.queued[n := true] else m.queued
    ensures MarkedToo(m, m', if Waits(m, n) then [n] + rest else rest)
  {
    hide Waits;
  }

  /** Every event other than a slip keeps both streams whole. */
  lemma StepSound(n: Node, e: Event)
    requires Sound(n) && Enabled(n, e) && !IsSlip(e)
    ensures Sound(Next(n, e))
  {
    hide Sound, Run, DataFor, MarksExact, QueueLive, SendingFrame, FrameRest, Written, Polled, OfferedFrom,
         DataRead;
    SoundParts(n);
    match e {
      case Supply(id, out) =>
        SupplySound(n, id, Next(n, e).m, out);
      case Create(id, out) =>
        var m1 := Opened(n.m, id, out);
        assert [] + out == out;
        SupplySound(n, id, m1, out);
        var n1 := n.(m := m1, produced := Produce(n.produced, id, out));
        SoundParts(n1);
        OfferedExact(m1, id);
        RequeuedSound(n1, Offered(m1, id));
      case Update =>
        UpdateExact(n.m, 0);
        UpdateOnlyQueues(n.m, 0);
        RequeuedSound(n, OfferedFrom(n.m, 0));
      case Poll => PolledSound(n);
      case Write(k) => WriteSound(n, k);
      case Head(head) => HeadSound(n, head);
      case Open(greeting) =>
        assert [] + greeting == greeting;
        SupplySound(n, n.m.reading.id, Next(n, e).m, greeting);
      case Data(data, reply) => DataSound(n, data, reply);
    }
  }

  lemma SoundParts(n: Node)
    requires Sound(n)
    ensures QueueSound(n) && Proper(n.m) && MarksExact(n.m) && QueueLive(n.m) && |n.produced| == IDS
  {}

  /** Every state of every run without slips is sound. */
  lemma {:induction false} RunSound(n: Node, events: seq<Event>, n': Node)
    requires Sound(n) && Reaches(n, events, n') && NoSlips(events)
    ensures Sound(n')
    decreases |events|
  {
    hide Sound, Enabled, Next;
    if events != [] {
      StepSound(n, events[0]);
      RunSound(Next(n, events[0]), events[1..], n');
    }
  }

  /** Over any runs of the two ends without slips, if the one has taken a prefix of what the other
      has sent then each connection has received a prefix of what its counterpart has produced,
      and once the wire is drained everything but what the counterpart still holds. */
  lemma StreamsArrive(events: seq<Event>, sender: Node, events': seq<Event>, receiver: Node, id: nat)
    requires Reaches(Start(), events, sender) && Reaches(Start(), events', receiver)
    requires NoSlips(events) && NoSlips(events')
    requires receiver.taken <= sender.sent && id < IDS
    ensures Proper(sender.m) && Proper(receiver.m) && |sender.produced| == IDS
    ensures ReceivedBy(receiver.m, id) <= sender.produced[id]
    ensures receiver.taken == sender.sent ==>
      ReceivedBy(receiver.m, id) + PendingOf(sender.m, id) == sender.produced[id]
  {
    StartSound();
    RunSound(Start(), events, sender);
    RunSound(Start(), events', receiver);
    DataPrefix(receiver.taken, sender.sent, id);
  }

  // ----- slips: data moved before the second size byte -----

  /** After a wrong start of the data, one byte at least is taken for a size. */
  lemma {:induction false} DataShort(f: Frame, bs: Bytes, id: nat)
    ensures |DataFor(f, bs, id)| <= |bs|
    ensures bs != [] && !f.Body? ==> |DataFor(f, bs, id)| < |bs|
    decreases |bs|
  {
    if bs != [] {
      DataShort(Step(f, bs[0]), bs[1..], id);
    }
  }

  /** The stream sent stays whole through a slip if and only if no data went out in it. */
  lemma SlipWriteIff(n: Node, k: nat)
    requires Sound(n) && Enabled(n, SlipWrite(k))
    ensures SentWhole(Next(n, SlipWrite(k))) <==> k == 0
  {
    hide DataFor, MarksExact, QueueLive;
    var id := n.m.wId;
    var n', piece := Next(n, SlipWrite(k)), PendingOf(n.m, id)[..k];
    DataAppend(Idle, n.sent, piece, id);
    DataShort(SendingFrame(n.m), piece, id);
    if k == 0 {
      assert n'.sent == n.sent;
      assert n'.m.conns == n.m.conns;
    }
  }

  /** After a slip the frame is over if it had no more data, and otherwise the size byte that is sent
      next is that of what is left of it. */
  lemma SlipWriteMeans(n: Node, k: nat)
    requires Enabled(n, SlipWrite(k))
    ensures var m' := Next(n, SlipWrite(k)).m;
      && Proper(m')
      && (k == n.m.wSz ==> m'.wSz == 0)
      && (k < n.m.wSz ==> m'.wSz == n.m.wSz - k && |FrameRest(m')| > 0
                          && FrameRest(m')[0] == Header(n.m.wId, n.m.wSz - k)[2])
  {
    NextProper(n, SlipWrite(k));
  }

  /** After a slip the reader stands where it would stand if the first size byte had been smaller by
      what it has read, or where a frame ends if nothing is left of that. */
  lemma SlipDataMeans(n: Node, data: Bytes, reply: Bytes)
    requires Enabled(n, SlipData(data, reply)) && data != []
    ensures var left := n.m.reading.high as int - |data|;
      Next(n, SlipData(data, reply)).m.reading
        == if left == 0 then Idle else Run(Idle, [Byte(n.m.reading.id), Byte(left)])
  {
    var left := n.m.reading.high as int - |data|;
    if left > 0 {
      var id, low := n.m.reading.id, Byte(left);
      assert [Byte(id), low][1..] == [low] && [low][1..] == [];
      assert Run(HasId(id), [low]) == HasHigh(id, low);
    }
  }

  /** The stream read stays whole through a slip if and only if no data was read in it. */
  lemma SlipDataIff(n: Node, data: Bytes, reply: Bytes)
    requires Sound(n) && Enabled(n, SlipData(data, reply))
    ensures ReadWhole(Next(n, SlipData(data, reply))) <==> data == []
  {
    hide DataFor, MarksExact, QueueLive;
    var id := n.m.reading.id;
    var n' := Next(n, SlipData(data, reply));
    DataAppend(Idle, n.taken, data, id);
    DataShort(n.m.reading, data, id);
    if data == [] {
      assert n'.taken == n.taken;
      assert forall i :: 0 <= i < IDS ==> ReceivedBy(n'.m, i) == ReceivedBy(n.m, i);
    }
  }

  /** Two bytes of connection 0, sent with a slip, reach connection 0 as one. */
  lemma SlipExample()
    ensures exists n: Node ::
      && Reaches(Start(), [Create(0, "ab"), Poll, Write(2), SlipWrite(2)], n)
      && n.sent == [NUL, NUL, 'a', 'b'] && n.m.wSz == 0
      && DataFor(Idle, n.sent, 0) == "b"
  {
    hide Next, Enabled, Header, FrameRest;
    var n2 := FirstFrame();
    var n3, n4 := SlippedFrame(n2);
    SlipBytes();
    assert Reaches(n4, [], n4);
    assert [SlipWrite(2)][1..] == [];
    assert Reaches(n3, [SlipWrite(2)], n4);
    assert [Write(2), SlipWrite(2)][1..] == [SlipWrite(2)];
    assert Reaches(n2, [Write(2), SlipWrite(2)], n4);
    var n1 := Next(Start(), Create(0, "ab"));
    assert [Poll, Write(2), SlipWrite(2)][1..] == [Write(2), SlipWrite(2)];
    assert Reaches(n1, [Poll, Write(2), SlipWrite(2)], n4);
    assert [Create(0, "ab"), Poll, Write(2), SlipWrite(2)][1..] == [Poll, Write(2), SlipWrite(2)];
  }

  /** The start of a frame of 256 bytes for connection 0, read with a slip: its second size byte
      reaches the connection as data. */
  lemma SlipReadExample()
    ensures exists n: Node ::
      && Reaches(Start(), [Head([NUL, '\U{0001}']), Open([]), SlipData([NUL], [])], n)
      && n.taken == [NUL, '\U{0001}', NUL]
      && Proper(n.m) && ReceivedBy(n.m, 0) == [NUL] && DataFor(Idle, n.taken, 0) == []
  {
    var head: Bytes := [NUL, '\U{0001}'];
    var n3 := SlipReadRun();
    SlipReadTook();
    assert n3.taken == head + [NUL];
  }

  /** In what has been taken in nothing is data of connection 0. */
  lemma SlipReadTook()
    ensures DataFor(Idle, [NUL, '\U{0001}'] + [NUL], 0) == []
  {
    var head: Bytes := [NUL, '\U{0001}'];
    assert head[1..] == ['\U{0001}'] && head[1..][1..] == [];
    assert Run(HasId(0), head[1..]) == HasHigh(0, head[1]);
    DataAppend(Idle, head, [NUL], 0);
    assert [NUL][1..] == [];
    assert DataFor(HasHigh(0, head[1]), [NUL], 0) == [];
  }

  lemma SlipReadRun() returns (n3: Node)
    ensures Reaches(Start(), [Head([NUL, '\U{0001}']), Open([]), SlipData([NUL], [])], n3)
    ensures n3.taken == [NUL, '\U{0001}'] + [NUL] && Proper(n3.m) && ReceivedBy(n3.m, 0) == [NUL]
  {
    var head: Bytes := [NUL, '\U{0001}'];
    SlipHead(head);
    var n1 := Next(Start(), Head(head));
    var n2 := Next(n1, Open([]));
    n3 := Next(n2, SlipData([NUL], []));
    assert Proper(n3.m) && ReceivedBy(n3.m, 0) == [NUL];
    hide Enabled, Next;
    assert Reaches(n3, [], n3);
    assert [SlipData([NUL], [])][1..] == [];
    assert Reaches(n2, [SlipData([NUL], [])], n3);
    assert [Open([]), SlipData([NUL], [])][1..] == [SlipData([NUL], [])];
    assert Reaches(n1, [Open([]), SlipData([NUL], [])], n3);
    assert [Head(head), Open([]), SlipData([NUL], [])][1..] == [Open([]), SlipData([NUL], [])];
  }

  /** The id and one size byte. */
  lemma SlipHead(head: Bytes)
    requires head == [NUL, '\U{0001}']
    ensures HeadFits(Idle, head) && Run(Idle, head) == HasHigh(0, head[1]) && Proper(Start().m)
  {
    assert head[1..] == ['\U{0001}'] && head[1..][1..] == [];
    assert Run(HasId(0), head[1..]) == HasHigh(0, head[1]);
    assert HeadFits(HasId(0), head[1..]) by { assert HeadFits(HasHigh(0, head[1]), []); }
    RunKeepsProper(Start().m, head);
  }

  lemma FirstFrame() returns (n2: Node)
    ensures Enabled(Start(), Create(0, "ab")) && Enabled(Next(Start(), Create(0, "ab")), Poll)
    ensures n2 == Next(Next(Start(), Create(0, "ab")), Poll)
    ensures Proper(n2.m) && n2.sent == [] && |n2.produced| == IDS
    ensures n2.m.wId == 0 && n2.m.wSz == 2 && n2.m.wState == 0 && n2.m.queue == []
    ensures PendingOf(n2.m, 0) == "ab"
  {
    var n1 := Next(Start(), Create(0, "ab"));
    assert n1.m.queue == [0];
    n2 := Next(n1, Poll);
  }

  lemma SlippedFrame(n2: Node) returns (n3: Node, n4: Node)
    requires Proper(n2.m) && n2.sent == [] && |n2.produced| == IDS
    requires n2.m.wId == 0 && n2.m.wSz == 2 && n2.m.wState == 0
    requires PendingOf(n2.m, 0) == "ab"
    ensures Enabled(n2, Write(2)) && n3 == Next(n2, Write(2))
    ensures Enabled(n3, SlipWrite(2)) && n4 == Next(n3, SlipWrite(2))
    ensures n4.sent == [NUL, NUL, 'a', 'b'] && n4.m.wSz == 0
  {
    var head := Header(0, 2);
    assert head[0] == NUL && head[1] == NUL;
    var rest := FrameRest(n2.m);
    assert rest[..2] == [NUL, NUL];
    n3 := Next(n2, Write(2));
    n4 := Next(n3, SlipWrite(2));
    assert "ab"[..2] == ['a', 'b'];
  }

  lemma SlipBytes()
    ensures DataFor(Idle, [NUL, NUL, 'a', 'b'], 0) == "b"
  {
    var s: Bytes := [NUL, NUL, 'a', 'b'];
    assert s[1..] == [NUL, 'a', 'b'] && s[1..][1..] == ['a', 'b'] && s[1..][1..][1..] == ['b'];
    var f := Body(0, SizeOf(NUL, 'a'));
    assert Step(Step(Step(Idle, NUL), NUL), 'a') == f;
    assert ['b'][1..] == [];
    assert DataFor(f, ['b'], 0) == ['b'];
    assert DataFor(HasHigh(0, NUL), ['a', 'b'], 0) == ['b'];
  }

  /** Slips or no slips, the queue stays exact in every run. */
  lemma StepQueueSound(n: Node, e: Event)
    requires QueueSound(n) && Enabled(n, e)
    ensures QueueSound(Next(n, e))
  {
    hide Run, MarksExact, QueueLive, PayloadWritten, Polled, Written, Offered, OfferedFrom;
    var m := n.m;
    match e {
      case Supply(id, out) => SupplyQueue(m, id, Conn(PendingOf(m, id) + out, ReceivedBy(m, id)));
      case Create(id, out) =>
        SupplyQueue(m, id, Conn(out, []));
        OfferedExact(Opened(m, id, out), id);
      case Update => UpdateExact(m, 0);
      case Poll => PollExactIff(m);
      case Write(k) => WriteExact(m, k);
      case SlipWrite(k) => PayloadExact(m, k);
      case Head(head) =>
        RunKeepsProper(m, head);
        FrameQueue(m, HeaderRead(m, head));
      case Open(greeting) => SupplyQueue(m, m.reading.id, Conn(greeting, []));
      case Data(data, reply) =>
        RunBody(m.reading.id, m.reading.left, data, 0);
        DataQueue(m, Run(m.reading, data), data, reply);
      case SlipData(data, reply) =>
        assert data == [] ==> Next(n, e).m == m;
        DataQueue(m, if |data| == m.reading.high as int then Idle
                     else HasHigh(m.reading.id, Byte(m.reading.high as int - |data|)), data, reply);
    }
  }

  /** The queue does not depend on the frame that is being read. */
  lemma FrameQueue(m: Mux, m': Mux)
    requires Proper(m) && MarksExact(m) && QueueLive(m)
    requires Proper(m') && m' == m.(reading := m'.reading)
    ensures MarksExact(m') && QueueLive(m')
  {}

  lemma SupplyQueue(m: Mux, id: nat, c: Conn)
    requires Proper(m) && MarksExact(m) && QueueLive(m) && id < IDS
    requires PendingOf(m, id) <= c.pending
    ensures var m' := m.(conns := m.conns[id := Some(c)]);
      Proper(m') && MarksExact(m') && QueueLive(m')
  {
    var m' := m.(conns := m.conns[id := Some(c)]);
    assert Proper(m');
    assert forall i :: 0 <= i < IDS ==> PendingOf(m, i) <= PendingOf(m', i);
  }

  lemma DataQueue(m: Mux, f: Frame, data: Bytes, reply: Bytes)
    requires Proper(m) && MarksExact(m) && QueueLive(m)
    requires m.reading != Idle && m.conns[m.reading.id].Some?
    requires Proper(m.(reading := f))
    ensures var id := m.reading.id;
      var c := m.conns[id].value;
      var m' := m.(reading := f, conns := m.conns[id := Some(Conn(c.pending + reply, c.received + data))]);
      Proper(m') && MarksExact(Offered(m', id)) && QueueLive(Offered(m', id))
  {
    var id := m.reading.id;
    var c := m.conns[id].value;
    SupplyQueue(m.(reading := f), id, Conn(c.pending + reply, c.received + data));
    OfferedExact(m.(reading := f, conns := m.conns[id := Some(Conn(c.pending + reply, c.received + data))]), id);
  }

  lemma {:induction false} RunQueueSound(n: Node, events: seq<Event>, n': Node)
    requires QueueSound(n) && Reaches(n, events, n')
    ensures QueueSound(n')
    decreases |events|
  {
    hide QueueSound, Enabled, Next;
    if events != [] {
      StepQueueSound(n, events[0]);
      RunQueueSound(Next(n, events[0]), events[1..], n');
    }
  }

  /** In every reachable state a connection is marked as queued exactly when it is in the queue or
      being written, none is queued twice, and the queue holds at most 256. After an update every
      connection that has something to write is marked. */
  lemma QueueInEveryRun(events: seq<Event>, n: Node)
    requires Reaches(Start(), events, n)
    ensures Proper(n.m) && MarksExact(n.m) && |n.m.queue| <= IDS
    ensures forall i :: 0 <= i < IDS && HasToWrite(n.m, i) ==> OfferedFrom(n.m, 0).queued[i]
    ensures MarksExact(OfferedFrom(n.m, 0))
  {
    hide Reaches, MarksExact, QueueLive;
    StartQueueSound();
    RunQueueSound(Start(), events, n);
    QueueBounded(n.m);
    UpdateExact(n.m, 0);
  }

  lemma StartQueueSound()
    ensures QueueSound(Start())
  {}

  // ----- whoever is marked stays marked until all its bytes have gone out -----

  /** No call clears the mark of a connection that has something left to write. */
  lemma MarkStays(n: Node, e: Event, i: nat)
    requires Enabled(n, e) && i < IDS && n.m.queued[i]
    ensures Proper(Next(n, e).m)
    ensures HasToWrite(Next(n, e).m, i) ==> Next(n, e).m.queued[i]
  {
    hide Run, FrameRest, OfferedFrom, WaitingFrom;
    NextProper(n, e);
    if e.Update? {
      var ids := UpdateInOrder(n.m, 0);
    }
  }

  /** Only an update, making a connection, or reading data for it marks a connection, and only one
      that has something to write. */
  lemma MarkedWithWork(n: Node, e: Event, i: nat)
    requires Enabled(n, e) && i < IDS && !n.m.queued[i] && Next(n, e).m.queued[i]
    ensures HasToWrite(Next(n, e).m, i)
    ensures e.Update? || (if e.Create? then e.id == i else (e.Data? || e.SlipData?) && n.m.reading.id == i)
  {
    hide Run, FrameRest, OfferedFrom;
    NextProper(n, e);
    if e.Update? {
      UpdateOnlyQueues(n.m, 0);
      var ids := UpdateInOrder(n.m, 0);
    }
  }

  /** A connection that is made, or gets data, is marked if it has something to write then. */
  lemma NewWorkMarked(n: Node, e: Event)
    requires Enabled(n, e) && (e.Create? || e.Data? || (e.SlipData? && e.data != []))
    ensures var id := if e.Create? then e.id else n.m.reading.id;
      && id < IDS && Proper(Next(n, e).m) && (HasToWrite(Next(n, e).m, id) ==> Next(n, e).m.queued[id])
  {
    hide Run;
    NextProper(n, e);
  }

  lemma WasDrained(n: Node, i: nat)
    requires Sound(n) && i < IDS && !HasToWrite(n.m, i)
    ensures n.produced[i] == DataFor(Idle, n.sent, i)
  {
    hide Run, DataFor;
    assert DataFor(Idle, n.sent, i) + [] == DataFor(Idle, n.sent, i);
  }

  /** A connection that is marked at one time and not at a later one has had, at some time between, all
      that it had produced out on the wire. */
  lemma {:induction false} MarkedUntilOut(n: Node, events: seq<Event>, n': Node, i: nat) returns (k: nat, q: Node)
    requires Sound(n) && Reaches(n, events, n') && NoSlips(events) && i < IDS
    requires n.m.queued[i] && Proper(n'.m) && !n'.m.queued[i]
    ensures k <= |events| && Reaches(n, events[..k], q) && Reaches(q, events[k..], n')
    ensures Sound(q) && q.produced[i] == DataFor(Idle, q.sent, i)
    decreases |events|
  {
    hide Sound, Enabled, Next, HasToWrite;
    var n1 := Next(n, events[0]);
    StepSound(n, events[0]);
    MarkStays(n, events[0], i);
    if HasToWrite(n1.m, i) {
      k, q := MarkedUntilOut(n1, events[1..], n', i);
      assert events[..k+1][1..] == events[1..][..k] && events[1..][k..] == events[k+1..];
      k := k + 1;
    } else {
      WasDrained(n1, i);
      k, q := 1, n1;
      assert events[..1][1..] == [];
    }
  }

  /** At some time in this run all that the connection had produced was out on the wire. */
  ghost predicate OutBetween(n: Node, events: seq<Event>, n': Node, i: nat) {
    exists k: nat, q :: k <= |events| && Reaches(n, events[..k], q) && Reaches(q, events[k..], n') && AllOut(q, i)
  }

  predicate AllOut(n: Node, i: nat) {
    i < |n.produced| && n.produced[i] == DataFor(Idle, n.sent, i)
  }

  /** When there is nothing more to send, every connection that was ever marked has had all that it had
      produced by then out on the wire. */
  lemma NothingLeftBehind(before: seq<Event>, n: Node, events: seq<Event>, n': Node, i: nat)
    requires Reaches(Start(), before, n) && NoSlips(before) && Reaches(n, events, n') && NoSlips(events)
    requires i < IDS && Proper(n.m) && n.m.queued[i] && Proper(n'.m) && Rest(Polled(n'.m)) == 0
    ensures OutBetween(n, events, n', i)
  {
    hide Reaches, Run, DataFor, Sound, Polled, MarksExact, QueueLive;
    StartSound();
    RunSound(Start(), before, n);
    RunSound(n, events, n');
    SoundParts(n');
    NothingQueued(n'.m);
    NobodyMarked(n'.m, i);
    var k, q := MarkedUntilOut(n, events, n', i);
    SoundParts(q);
    assert AllOut(q, i);
  }

  lemma NobodyMarked(m: Mux, i: nat)
    requires Proper(m) && MarksExact(m) && m.queue == [] && m.wSz == 0 && i < IDS
    ensures !m.queued[i]
  {}

  lemma NothingQueued(m: Mux)
    requires Proper(m) && QueueLive(m) && Rest(Polled(m)) == 0
    ensures m.queue == [] && m.wSz == 0
  {}

  // ----- bounded waiting -----

  /** How many frames are started in a run. */
  function Pops(n: Node, events: seq<Event>): (c: nat)
    decreases |events|
  {
    if events == [] || !Enabled(n, events[0]) then 0
    else (if events[0].Poll? && PopsNow(n.m) then 1 else 0) + Pops(Next(n, events[0]), events[1..])
  }

  const FRAME_MAX: nat := MAX_SZ + 3

  /** A size of 1 to 65536 comes back from its two bytes, so no two sizes look alike. */
  lemma SizeRoundTrip(n: nat)
    requires 0 < n <= MAX_SZ
    ensures var h := Header(0, n); SizeOf(h[1], h[2]) == n
  {
    Common.ShortRoundTrip(n % MAX_SZ);
  }

  /** The size that is announced for a frame does not change until its header has gone out, unless
      the header is slipped over. */
  lemma SizeHolds(n: Node, e: Event)
    requires Enabled(n, e) && n.m.wSz > 0 && !e.SlipWrite?
    ensures var m' := Next(n, e).m;
      m'.wSz > 0 && m'.wState < 3 ==> m'.wSz == n.m.wSz && m'.wId == n.m.wId
  {
    hide Run, Common.WriteShort, FrameRest;
    match e
    case Update => UpdateOnlyQueues(n.m, 0);
    case Create(id, out) =>
    case _ =>
  }

  /** Every event either starts a frame, and then the queue moves up by one, or leaves everyone in
      the queue in place. Each frame started costs at most 65539 bytes. */
  lemma StepInOrder(n: Node, e: Event)
    requires Enabled(n, e)
    ensures Proper(Next(n, e).m)
    ensures var n', p := Next(n, e), if e.Poll? && PopsNow(n.m) then 1 else 0;
      && n.m.queue[p..] <= n'.m.queue
      && |n'.sent| + Rest(n'.m) <= |n.sent| + Rest(n.m) + p * FRAME_MAX
      && Rest(n'.m) <= FRAME_MAX
  {
    hide Run, MuxFormat.Step, Common.WriteShort;
    NextProper(n, e);
    match e
    case Update => UpdateOnlyQueues(n.m, 0);
    case _ =>
  }

  /** A connection that waits behind k others starts its frame after exactly k further frames have
      been started, whatever else happens meanwhile. */
  lemma {:induction false} WaitsInOrder(n: Node, events: seq<Event>, n': Node, k: nat)
    requires Reaches(n, events, n') && Proper(n.m) && Proper(n'.m)
    requires k < |n.m.queue| && Pops(n, events) <= k
    ensures var p := Pops(n, events);
      && k - p < |n'.m.queue| && n'.m.queue[k-p] == n.m.queue[k]
      && |n'.sent| + Rest(n'.m) <= |n.sent| + Rest(n.m) + p * FRAME_MAX
    decreases |events|
  {
    hide Next, Enabled;
    if events != [] {
      var e := events[0];
      var n1 := Next(n, e);
      var p := if e.Poll? && PopsNow(n.m) then 1 else 0;
      StepInOrder(n, e);
      assert n.m.queue[p..][k-p] == n.m.queue[k];
      NextProper(n, e);
      WaitsInOrder(n1, events[1..], n', k - p);
    }
  }

  lemma NextProper(n: Node, e: Event)
    requires Enabled(n, e)
    ensures Proper(Next(n, e).m)
  {
    hide Run;
    if e.Head? {
      RunKeepsProper(n.m, e.head);
    }
  }

  /** The frame of a connection in the queue starts, with all it has to write up to 65536 bytes,
      before more than 256 frames' worth of other bytes have gone out. */
  lemma TurnComes(before: seq<Event>, n: Node, events: seq<Event>, n': Node, k: nat)
    requires Reaches(Start(), before, n) && Reaches(n, events, n')
    requires k < |n.m.queue| && Pops(n, events) == k && n'.m.wSz == 0
    ensures Proper(n.m) && Proper(n'.m)
    ensures var id, m' := n.m.queue[k], Polled(n'.m);
      && m'.wId == id && m'.wState == 0
      && m'.wSz == (if |PendingOf(m', id)| < MAX_SZ then |PendingOf(m', id)| else MAX_SZ)
      && m'.wSz > 0
    ensures |n'.sent| - |n.sent| <= 256 * FRAME_MAX
  {
    hide Reaches, MarksExact, QueueLive, Polled, Pops;
    StartQueueSound();
    RunQueueSound(Start(), before, n);
    RunQueueSound(n, events, n');
    QueueBounded(n.m);
    WaitsInOrder(n, events, n', k);
    FrameStarts(n'.m);
    FramesBound(k);
  }

  lemma FramesBound(k: nat)
    requires k <= 255
    ensures k * FRAME_MAX <= 255 * FRAME_MAX
  {}

  lemma FrameStarts(m: Mux)
    requires Proper(m) && QueueLive(m) && PopsNow(m)
    ensures var id, m' := m.queue[0], Polled(m);
      && m'.wId == id && m'.wState == 0
      && m'.wSz == (if |PendingOf(m', id)| < MAX_SZ then |PendingOf(m', id)| else MAX_SZ)
      && m'.wSz > 0
  {
    assert HasToWrite(m, m.queue[0]);
  }

  // ----- a connection that breaks its promise -----

  /** Ordinary events, and a connection that takes back something it had to write. */
  datatype Loose = Ordinary(e: Event) | Retract(id: nat, out: Bytes)

  predicate LooseEnabled(n: Node, l: Loose) {
    match l
    case Ordinary(e) => Enabled(n, e)
    case Retract(id, out) => Proper(n.m) && id < IDS && n.m.conns[id].Some?
  }

  function LooseNext(n: Node, l: Loose): (n': Node)
    requires LooseEnabled(n, l)
  {
    match l
    case Ordinary(e) => Next(n, e)
    case Retract(id, out) =>
      var c := n.m.conns[id].value;
      n.(m := n.m.(conns := n.m.conns[id := Some(c.(pending := out))]))
  }

  ghost predicate LooselyReaches(n: Node, events: seq<Loose>, n': Node)
    decreases |events|
  {
    if events == [] then n == n'
    else LooseEnabled(n, events[0]) && LooselyReaches(LooseNext(n, events[0]), events[1..], n')
  }

  /** Marked as queued, but neither in the queue nor being written. */
  predicate Lost(m: Mux, i: nat) {
    i < |m.queued| && m.queued[i] && i !in m.queue && !Current(m, i)
  }

  /** A poll loses a connection exactly when it finds it at the head of the queue with nothing to
      write. */
  lemma LostIff(m: Mux, i: nat)
    requires Proper(m) && MarksExact(m) && i < IDS
    ensures Lost(Polled(m), i) <==> PopsNow(m) && m.queue[0] == i && !HasToWrite(m, i)
  {
    if PopsNow(m) {
      InQueue(m, 0);
      assert forall j :: j in m.queue <==> j == m.queue[0] || j in m.queue[1..];
      assert m.queue[0] !in m.queue[1..];
    }
  }

  lemma {:induction false} OfferedKeepsLost(m: Mux, k: nat, i: nat)
    requires Proper(m) && k <= IDS && Lost(m, i)
    ensures Lost(OfferedFrom(m, k), i)
    decreases IDS - k
  {
    if k < IDS {
      OfferedKeepsLost(Offered(m, k), k + 1, i);
    }
  }

  lemma StepKeepsLost(n: Node, l: Loose, i: nat)
    requires LooseEnabled(n, l) && Lost(n.m, i)
    ensures Lost(LooseNext(n, l).m, i)
  {
    hide Run, MuxFormat.Step, Common.WriteShort, FrameRest;
    match l
    case Ordinary(e) =>
      match e {
        case Update => OfferedKeepsLost(n.m, 0, i);
        case Poll =>
          if n.m.queue != [] {
            assert forall j :: j in n.m.queue[1..] ==> j in n.m.queue;
          }
        case _ =>
      }
    case Retract(id, out) =>
  }

  /** A lost connection stays lost: in no later state, whatever it has to write by then and
      whatever updates are made, is it in the queue or being written. */
  lemma {:induction false} LostForever(n: Node, events: seq<Loose>, n': Node, i: nat)
    requires Lost(n.m, i) && LooselyReaches(n, events, n')
    ensures Lost(n'.m, i)
    decreases |events|
  {
    hide LooseNext, LooseEnabled, Lost;
    if events != [] {
      StepKeepsLost(n, events[0], i);
      LostForever(LooseNext(n, events[0]), events[1..], n', i);
    }
  }

  /** A poll that finds the connection at the head of the queue with nothing to write. */
  predicate EmptyPoll(m: Mux, l: Loose) {
    l.Ordinary? && l.e.Poll? && Proper(m) && PopsNow(m) && !HasToWrite(m, m.queue[0])
  }

  lemma ConnsOnly(m: Mux, m': Mux)
    requires Proper(m) && Proper(m') && MarksExact(m) && m' == m.(conns := m'.conns, reading := m'.reading)
    ensures MarksExact(m')
  {}

  /** Nothing but such a poll disturbs the marks: not writes, slips, reads, new connections or
      promises broken. */
  lemma StepMarksIff(n: Node, l: Loose)
    requires LooseEnabled(n, l) && MarksExact(n.m)
    ensures Proper(LooseNext(n, l).m)
    ensures MarksExact(LooseNext(n, l).m) <==> !EmptyPoll(n.m, l)
  {
    hide Run, MarksExact, QueueLive, PayloadWritten, Polled, Written, Offered, OfferedFrom;
    LooseProper(n, l);
    var m, m' := n.m, LooseNext(n, l).m;
    match l
    case Retract(id, out) => ConnsOnly(m, m');
    case Ordinary(e) =>
      match e {
        case Supply(id, out) => ConnsOnly(m, m');
        case Create(id, out) =>
          ConnsOnly(m, Opened(m, id, out));
          OfferedExact(Opened(m, id, out), id);
        case Update => UpdateExact(m, 0);
        case Poll => PollExactIff(m);
        case Write(k) => WriteExact(m, k);
        case SlipWrite(k) => PayloadExact(m, k);
        case Head(head) => ConnsOnly(m, m');
        case Open(greeting) => ConnsOnly(m, m');
        case Data(data, reply) => DataMarks(m, data, reply);
        case SlipData(data, reply) => SlipMarks(m, data, reply);
      }
  }

  lemma DataMarks(m: Mux, data: Bytes, reply: Bytes)
    requires Proper(m) && MarksExact(m) && m.reading.Body? && m.conns[m.reading.id].Some?
    requires 0 < |data| <= m.reading.left
    ensures MarksExact(DataRead(m, data, reply))
  {
    hide Run, MarksExact, Offered;
    var id := m.reading.id;
    var c := m.conns[id].value;
    RunBody(id, m.reading.left, data, id);
    var m1 := m.(reading := Run(m.reading, data),
                 conns := m.conns[id := Some(Conn(c.pending + reply, c.received + data))]);
    ConnsOnly(m, m1);
    OfferedExact(m1, id);
  }

  lemma SlipMarks(m: Mux, data: Bytes, reply: Bytes)
    requires Proper(m) && MarksExact(m) && m.reading.HasHigh? && m.conns[m.reading.id].Some?
    requires |data| <= m.reading.high as int
    ensures MarksExact(SlippedRead(m, data, reply))
  {
    hide MarksExact, Offered;
    var id, high := m.reading.id, m.reading.high as int;
    var c := m.conns[id].value;
    var m1 := m.(reading := if |data| == high then Idle else HasHigh(id, Byte(high - |data|)),
                 conns := m.conns[id := Some(Conn(c.pending + reply, c.received + data))]);
    ConnsOnly(m, m1);
    OfferedExact(m1, id);
  }

  lemma LooseProper(n: Node, l: Loose)
    requires LooseEnabled(n, l)
    ensures Proper(LooseNext(n, l).m)
  {
    hide Run, PayloadWritten, Polled, Written, Offered, OfferedFrom, DataRead, SlippedRead;
    if l.Ordinary? {
      NextProper(n, l.e);
    }
  }

  /** Some poll of the run finds the connection at the head of the queue with nothing to write. */
  predicate FindsEmpty(n: Node, events: seq<Loose>)
    decreases |events|
  {
    && events != [] && LooseEnabled(n, events[0])
    && (EmptyPoll(n.m, events[0]) || FindsEmpty(LooseNext(n, events[0]), events[1..]))
  }

  /** Over every run, whatever promises are broken in it, the marks end up exact if and only if no
      poll has found the connection at the head of the queue with nothing to write. */
  lemma {:induction false} MarksExactIff(n: Node, events: seq<Loose>, n': Node)
    requires Proper(n.m) && MarksExact(n.m) && LooselyReaches(n, events, n')
    ensures Proper(n'.m)
    ensures MarksExact(n'.m) <==> !FindsEmpty(n, events)
    decreases |events|
  {
    hide LooseNext, LooseEnabled, MarksExact, EmptyPoll;
    if events != [] {
      var n1 := LooseNext(n, events[0]);
      StepMarksIff(n, events[0]);
      if EmptyPoll(n.m, events[0]) {
        LooseRunProper(n1, events[1..], n');
        EmptyPollLoses(n, events[0]);
        LostForever(n1, events[1..], n', n.m.queue[0]);
        LostIsInexact(n'.m, n.m.queue[0]);
      } else {
        MarksExactIff(n1, events[1..], n');
      }
    }
  }

  lemma {:induction false} LooseRunProper(n: Node, events: seq<Loose>, n': Node)
    requires Proper(n.m) && LooselyReaches(n, events, n')
    ensures Proper(n'.m)
    decreases |events|
  {
    hide LooseNext, LooseEnabled, Proper;
    if events != [] {
      LooseProper(n, events[0]);
      LooseRunProper(LooseNext(n, events[0]), events[1..], n');
    }
  }

  lemma EmptyPollLoses(n: Node, l: Loose)
    requires LooseEnabled(n, l) && EmptyPoll(n.m, l) && MarksExact(n.m)
    ensures n.m.queue != [] && Lost(LooseNext(n, l).m, n.m.queue[0])
  {
    hide MarksExact, Lost;
    LostIff(n.m, n.m.queue[0]);
  }

  lemma LostIsInexact(m: Mux, i: nat)
    requires Proper(m) && Lost(m, i)
    ensures !MarksExact(m)
  {}

  /** It does happen: a connection with one byte to write that takes it back before its turn. */
  lemma LossExample()
    ensures exists n: Node ::
      LooselyReaches(Start(), [Ordinary(Create(0, "a")), Retract(0, []), Ordinary(Poll)], n)
      && Lost(n.m, 0)
  {
    var n1, n2, n3 := LossRun();
    hide LooseNext, LooseEnabled, Lost;
    assert LooselyReaches(n3, [], n3);
    assert [Ordinary(Poll)][1..] == [];
    assert LooselyReaches(n2, [Ordinary(Poll)], n3);
    assert [Retract(0, []), Ordinary(Poll)][1..] == [Ordinary(Poll)];
    assert LooselyReaches(n1, [Retract(0, []), Ordinary(Poll)], n3);
    assert [Ordinary(Create(0, "a")), Retract(0, []), Ordinary(Poll)][1..] == [Retract(0, []), Ordinary(Poll)];
  }

  lemma LossRun() returns (n1: Node, n2: Node, n3: Node)
    ensures LooseEnabled(Start(), Ordinary(Create(0, "a"))) && n1 == LooseNext(Start(), Ordinary(Create(0, "a")))
    ensures LooseEnabled(n1, Retract(0, [])) && n2 == LooseNext(n1, Retract(0, []))
    ensures LooseEnabled(n2, Ordinary(Poll)) && n3 == LooseNext(n2, Ordinary(Poll)) && Lost(n3.m, 0)
  {
    n1 := Next(Start(), Create(0, "a"));
    assert n1.m.queue == [0];
    n2 := LooseNext(n1, Retract(0, []));
    n3 := Next(n2, Poll);
  }
}
