/** The multiplexing layer on its socket. */
module Multiconn {
  import opened Basics
  import opened Octets
  import opened MuxFormat
  import opened MuxModel
  import opened Sockets
  import Common

  /** A virtual connection, as far as the layer below it can tell. It never takes back anything it
      has to write, writes with one `send` and reads with one `recv`. */
  class VirtualConnection {
    var pending: Bytes
    var received: Bytes

    constructor (greeting: Bytes)
      ensures pending == greeting && received == []
    {
      pending, received := greeting, [];
    }

    function GetWriteSize(): (n: nat)
      reads this
    {
      |pending|
    }

    method Write(s: Socket, maxWrite: nat) returns (amt: nat)
      modifies this, s`outgoing
      ensures amt <= maxWrite && amt <= |old(pending)|
      ensures s.outgoing == old(s.outgoing) + old(pending)[..amt]
      ensures pending == old(pending)[amt..] && received == old(received)
    {
      var most := Min(maxWrite, |pending|);
      amt := s.Send(pending[..most]);
      assert pending[..most][..amt] == pending[..amt];
      pending := pending[amt..];
    }

    /** What is read may give the connection more to write. */
    method Read(s: Socket, maxRead: nat) returns (amt: nat, ghost data: Bytes, ghost reply: Bytes)
      modifies this, s`incoming
      ensures amt == |data| <= maxRead && old(s.incoming) == data + s.incoming
      ensures received == old(received) + data && pending == old(pending) + reply
      ensures data == [] ==> reply == []
    {
      var b := s.Recv(maxRead);
      var more: Bytes := [];
      if b != [] {
        more := *;
      }
      received := received + b;
      pending := pending + more;
      amt, data, reply := |b|, b, more;
    }
  }

  /** The frame that the three raw fields of the reading side stand for: while the size is coming
      in, its bytes are put side by side in memory order. */
  predicate ReadingIs(rId: nat, rSz: nat, rState: nat, f: Frame) {
    match f
    case Idle => rState == 0 && rSz == 0
    case HasId(id) => rState == 1 && rId == id && rSz == 0
    case HasHigh(id, high) => rState == 2 && rId == id && rSz == high as int
    case Body(id, left) => rState == 3 && rId == id && rSz == left > 0
  }

  class Multiconn {
    const greeting: Bytes  // what a connection made for a new id has to write
    const vconn: array<VirtualConnection?>
    const isQueued: array<bool>
    var rId: nat
    var rSz: nat
    var rState: nat
    var wId: nat
    var wSz: nat
    var wState: nat
    var wQueue: seq<nat>

    // what the reading fields stand for
    ghost var reading: Frame

    constructor (greeting: Bytes)
      ensures this.greeting == greeting && Valid() && Model() == Fresh()
      ensures fresh(vconn) && fresh(isQueued)
    {
      this.greeting := greeting;
      rId, rSz, rState := 0, 0, 0;
      wId, wSz, wState := 0, 0, 0;
      wQueue := [];
      vconn := new VirtualConnection?[IDS](_ => null);
      isQueued := new bool[IDS](_ => false);
      reading := Idle;
    }

    ghost function ConnAt(i: nat): (c: Option<Conn>)
      reads vconn, if i < vconn.Length && vconn[i] != null then {vconn[i]} else {}
    {
      if i < vconn.Length && vconn[i] != null then Some(Conn(vconn[i].pending, vconn[i].received))
      else None
    }

    ghost function Conns(): (s: set<object>)
      reads vconn
    {
      set i | 0 <= i < vconn.Length && vconn[i] != null :: vconn[i]
    }

    ghost function Model(): (m: Mux)
      reads this, vconn, isQueued, Conns()
    {
      Mux(reading, wId, wSz, wState, wQueue, isQueued[..], Slots())
    }

    ghost function Slots(): (s: seq<Option<Conn>>)
      reads vconn, Conns()
      ensures |s| == vconn.Length
      ensures forall i :: 0 <= i < |s| ==> s[i] == ConnAt(i)
    {
      seq(vconn.Length, i requires 0 <= i < vconn.Length reads vconn, Conns() => ConnAt(i))
    }

    /** No connection is in two slots. */
    ghost predicate NoSharing()
      reads vconn
    {
      forall i, j :: 0 <= i < j < vconn.Length && vconn[i] != null ==> vconn[i] != vconn[j]
    }

    ghost predicate Valid()
      reads this, vconn, isQueued, Conns()
    {
      && vconn.Length == IDS && isQueued.Length == IDS
      && NoSharing()
      && ReadingIs(rId, rSz, rState, reading)
      && Proper(Model())
    }

    method GetWriteSize() returns (n: nat)
      requires Valid()
      modifies this
      ensures Valid() && Model() == Polled(old(Model()))
      ensures n == Rest(Model())
    {
      if wSz == 0 && wQueue != [] {
        assert ConnAt(wQueue[0]) == Model().conns[wQueue[0]];
        wId := wQueue[0];
        wQueue := wQueue[1..];
        wSz := Min(MAX_SZ, vconn[wId].GetWriteSize());
        wState := 0;
      }
      n := if wSz != 0 then wSz + 3 - wState else 0;
    }

    /** The slots after one connection has changed. */
    lemma SlotChanged(before: seq<Option<Conn>>, i: nat, c: Option<Conn>)
      requires vconn.Length == IDS && i < IDS && |before| == IDS
      requires ConnAt(i) == c
      requires forall j :: 0 <= j < IDS && j != i ==> ConnAt(j) == before[j]
      ensures Slots() == before[i := c]
    {}

    method GetVirtualConnection(id: nat) returns (c: VirtualConnection)
      requires Valid() && id < IDS
      modifies vconn
      ensures Valid() && Model() == Opened(old(Model()), id, greeting)
      ensures vconn[id] == c
      ensures old(vconn[id]) != null ==> c == old(vconn[id])
      ensures old(vconn[id]) == null ==> fresh(c)
      ensures forall j :: 0 <= j < IDS && j != id ==> vconn[j] == old(vconn[j])
    {
      ghost var m := Model();
      assert ConnAt(id) == m.conns[id];
      if vconn[id] == null {
        var made := new VirtualConnection(greeting);
        assert forall j :: 0 <= j < IDS ==> vconn[j] != made;
        vconn[id] := made;
        forall j | 0 <= j < IDS && j != id ensures ConnAt(j) == m.conns[j] {
          assert old(ConnAt(j)) == m.conns[j];
        }
        SlotChanged(m.conns, id, Some(Conn(greeting, [])));
      }
      c := vconn[id];
    }

    /** Sends what it can of the current frame: the rest of its header, then its data, unless the
        socket or the limit stops it in between. Of the frame `moved` bytes go out in order; if
        the socket takes one size byte only and then is ready for more, `slip` bytes of data
        follow before the other. */
    method Write(s: Socket, max: nat) returns (ret: int, ghost moved: nat, ghost slip: nat)
      requires Valid() && max > 0
      modifies this, isQueued, Conns(), s`outgoing
      ensures Valid() && vconn[..] == old(vconn[..])
      ensures moved + slip <= max && (ret > 0 ==> ret == moved + slip)
      ensures old(wSz) == 0 ==>
        ret == -1 && Model() == old(Model()) && s.outgoing == old(s.outgoing)
      ensures old(wSz) > 0 ==>
        var m := old(Model());
        && moved <= |FrameRest(m)|
        && (slip == 0 ==>
             s.outgoing == old(s.outgoing) + FrameRest(m)[..moved] && Model() == Written(m, moved))
        && (slip > 0 ==>
             && old(wState) < 2 && moved == 2 - old(wState)
             && slip <= m.wSz && slip <= |PendingOf(m, m.wId)|
             && s.outgoing == old(s.outgoing) + FrameRest(m)[..moved] + PendingOf(m, m.wId)[..slip]
             && Model() == PayloadWritten(Written(m, moved), slip))
    {
      hide PayloadWritten, Header, Slots, ConnAt, FrameRest, Written, NoSharing, Conns;
      moved, slip := 0, 0;
      if wSz == 0 {
        return -1, 0, 0;
      }
      ghost var m := Model();
      var wrote, go := 0, true;
      if wState < 3 {
        ret, wrote, go := WriteHead(s, max);
        moved := wrote;
        HeadThenData(m, wrote, 0);
        if !go {
          return ret, moved, 0;
        }
      }
      HeadPending(m, wrote);
      var amt := WriteData(s, max - wrote);
      HeadThenData(m, wrote, amt);
      if m.wState + wrote == 3 {
        moved := wrote + amt;
      } else {
        slip := amt;
      }
      ret := if amt == 0 then 0 else wrote + amt;
    }

    /** The id byte and the size bytes, as far as they have not gone out. */
    method WriteHead(s: Socket, max: nat) returns (ret: int, wrote: nat, go: bool)
      requires Valid() && max > 0 && wSz > 0 && wState < 3
      modifies this`wState, s`outgoing
      ensures Valid()
      ensures wrote <= max && old(wState) + wrote <= 3 && (ret > 0 ==> ret == wrote)
      ensures s.outgoing == old(s.outgoing) + Header(wId, wSz)[old(wState)..old(wState) + wrote]
      ensures Model() == HeadWritten(old(Model()), wrote)
      ensures go ==> wrote < max && wState >= 2 && (wState == 2 ==> old(wState) < 2)
    {
      ghost var m, out, head, start := Model(), s.outgoing, Header(wId, wSz), wState;
      assert Proper(m) && m.wId == wId && m.wSz == wSz && m.wState == wState;
      hide Valid, Model, Header, HeadWritten, Proper;
      ret, wrote, go := 0, 0, true;
      HeadNothing(m);
      if wState == 0 {
        wrote := WriteId(s);
        var ready: bool := *;  // what select says
        ret, go := wrote, wrote > 0 && max - wrote > 0 && ready;
      }
      if go {
        ghost var w0, w1 := wrote, wState;
        var amt := WriteSize(s, max - wrote);
        JoinParts(out, head, start, w1, wState);
        HeadTwice(m, w0, amt);
        wrote := wrote + amt;
        var ready: bool := *;
        ret, go := (if amt == 0 then 0 else wrote), amt > 0 && max - wrote > 0 && ready;
      }
    }

    method WriteId(s: Socket) returns (amt: nat)
      requires Valid() && wSz > 0 && wState == 0
      modifies this`wState, s`outgoing
      ensures Valid()
      ensures amt <= 1 && wState == amt
      ensures s.outgoing == old(s.outgoing) + Header(wId, wSz)[..amt]
      ensures Model() == HeadWritten(old(Model()), amt)
    {
      hide Slots, ConnAt, Common.WriteShort;
      amt := s.Send([Byte(wId)]);
      assert [Byte(wId)][..amt] == Header(wId, wSz)[..amt];
      wState := amt;
    }

    method SendSize(s: Socket, max: nat) returns (amt: nat)
      requires wId < IDS && 0 < wSz <= MAX_SZ && 0 < wState < 3
      modifies s`outgoing
      ensures amt <= max && wState + amt <= 3
      ensures s.outgoing == old(s.outgoing) + Header(wId, wSz)[wState..wState+amt]
    {
      hide Common.WriteShort, Header;
      var sz := Common.WriteShort(wSz);
      var part := sz[wState-1..][..Min(max, 3 - wState)];
      amt := s.Send(part);
      SizePiece(wId, wSz, wState, Min(max, 3 - wState), amt);
    }

    /** One `send` of what is left of the size bytes. */
    method WriteSize(s: Socket, max: nat) returns (amt: nat)
      requires Valid() && wSz > 0 && 0 < wState < 3
      modifies this`wState, s`outgoing
      ensures Valid()
      ensures amt <= max && wState == old(wState) + amt <= 3
      ensures s.outgoing == old(s.outgoing) + Header(wId, wSz)[old(wState)..wState]
      ensures Model() == HeadWritten(old(Model()), amt)
    {
      HeadBounds(Model());
      hide Valid;
      amt := SendSize(s, max);
      hide Slots, ConnAt, Common.WriteShort, Header, Conns, Proper, ReadingIs, NoSharing;
      wState := wState + amt;
    }

    method WriteData(s: Socket, max: nat) returns (amt: nat)
      requires Valid() && wSz > 0
      modifies this, isQueued, Conns(), s`outgoing
      ensures Valid() && vconn[..] == old(vconn[..])
      ensures amt <= max && amt <= old(wSz) && amt <= |PendingOf(old(Model()), old(wId))|
      ensures s.outgoing == old(s.outgoing) + PendingOf(old(Model()), old(wId))[..amt]
      ensures Model() == PayloadWritten(old(Model()), amt)
    {
      hide Valid, Slots, PayloadWritten, ConnAt, WithPending, CountedOut;
      ghost var m := Model();
      ProperNow();
      amt := WriteConnection(s, Min(wSz, max));
      PayloadSteps(m, amt, Model());
      if amt != 0 {
        CountOut(amt);
      }
    }

    lemma ProperNow()
      requires Valid()
      ensures Proper(Model())
    {}

    /** Data of the current frame has gone out: count it, and at the end of the frame put the
        connection back into the queue if it has more to write. */
    method CountOut(amt: nat)
      requires Valid() && 0 < amt <= wSz && Proper(CountedOut(Model(), amt))
      requires vconn[wId] != null && vconn[wId].pending == PendingOf(Model(), wId)
      modifies this`wId, this`wSz, this`wState, this`wQueue, isQueued
      ensures Valid() && Model() == CountedOut(old(Model()), amt)
    {
      hide Slots, ConnAt, NoSharing, ReadingIs;
      ghost var m := Model();
      wSz := wSz - amt;
      if wSz == 0 {
        if vconn[wId].GetWriteSize() != 0 {
          wQueue := wQueue + [wId];
        } else {
          isQueued[wId] := false;
          assert isQueued[..] == m.queued[wId := false];
        }
        wId, wState := 0, 0;
      }
      SameConnections();
    }

    method WriteConnection(s: Socket, max: nat) returns (amt: nat)
      requires Valid() && wSz > 0
      modifies Conns(), s`outgoing
      ensures Valid() && vconn[..] == old(vconn[..])
      ensures vconn[wId] != null && vconn[wId].pending == PendingOf(Model(), wId)
      ensures amt <= max && amt <= |PendingOf(old(Model()), wId)|
      ensures s.outgoing == old(s.outgoing) + PendingOf(old(Model()), wId)[..amt]
      ensures Model() == WithPending(old(Model()), wId, PendingOf(old(Model()), wId)[amt..])
    {
      hide Slots;
      ghost var m := Model();
      assert ConnAt(wId) == m.conns[wId];
      var c := vconn[wId];
      amt := c.Write(s, max);
      forall j | 0 <= j < IDS && j != wId ensures ConnAt(j) == m.conns[j] {
        assert old(ConnAt(j)) == m.conns[j];
      }
      SlotChanged(m.conns, wId, Some(Conn(c.pending, c.received)));
    }

    // ----- reading -----

    /** Takes in what it can of the current frame: the rest of its header, then data for its
        connection, unless the socket or the limit stops it in between. If one size byte has come
        in and then the socket is ready for more, data is read before the other. */
    method Read(s: Socket, max: nat)
      returns (ret: int, ghost head: Bytes, ghost reached: bool, ghost data: Bytes, ghost reply: Bytes)
      requires Valid() && max > 0
      modifies this, vconn, isQueued, Conns(), s`incoming
      ensures Valid()
      ensures old(s.incoming) == head + data + s.incoming && |head| + |data| <= max
      ensures ret > 0 ==> ret == |head| + |data|
      ensures HeadFits(old(reading), head) && Proper(HeaderRead(old(Model()), head))
      ensures !reached ==> data == [] && Model() == HeaderRead(old(Model()), head)
      ensures reached ==>
        var m := HeaderRead(old(Model()), head);
        && (m.reading.Body? || (m.reading.HasHigh? && head != []))
        && DataTaken(Opened(m, m.reading.id, greeting), data, reply, Model())
    {
      FrameFields();
      hide Valid, Slots, ConnAt, Proper, DataTaken, Opened, Conns, HeaderRead, HeadFits;
      ghost var m, coming := Model(), s.incoming;
      var count, go := 0, true;
      head, data, reply, reached := [], [], [], false;
      NoHead(m);
      if rState < 3 {
        ret, count, go, head := ReadHead(s, max);
        if !go {
          Regroup(head, [], s.incoming);
          return;
        }
      }
      reached := true;
      var amt;
      amt, data, reply := ReadData(s, max - count);
      ret := if amt == 0 then 0 else count + amt;
      Regroup(head, data, s.incoming);
    }

    /** The id byte and the size bytes, as far as they have not come in. */
    method ReadHead(s: Socket, max: nat) returns (ret: int, count: nat, go: bool, ghost head: Bytes)
      requires Valid() && max > 0 && rState < 3
      modifies this`rId, this`rSz, this`rState, this`reading, s`incoming
      ensures Valid()
      ensures old(s.incoming) == head + s.incoming && count == |head| <= max
      ensures ret > 0 ==> ret == count
      ensures HeadFits(old(reading), head) && Proper(HeaderRead(old(Model()), head))
      ensures Model() == HeaderRead(old(Model()), head)
      ensures go ==> head != [] && count < max && (reading.Body? || reading.HasHigh?)
      ensures reading.Body? ==> rState == 3
    {
      FrameFields();
      hide Valid, Model, HeaderRead, HeadFits;
      ghost var m := Model();
      ret, count, go, head := 0, 0, true, [];
      NoHead(m);
      if rState == 0 {
        count, head := ReadId(s);
        var ready: bool := *;  // what select says
        ret, go := count, count > 0 && max - count > 0 && ready;
      }
      if go {
        var amt;
        ghost var b;
        amt, b := ReadSize(s, max - count);
        HeadMore(m, head, b);
        assert head + (b + s.incoming) == head + b + s.incoming;
        count, head := count + amt, head + b;
        var ready: bool := *;
        ret, go := (if amt == 0 then 0 else count), amt > 0 && max - count > 0 && ready;
      }
    }

    method ReadId(s: Socket) returns (amt: nat, ghost b: Bytes)
      requires Valid() && rState == 0
      modifies this`rId, this`rState, this`reading, s`incoming
      ensures Valid()
      ensures amt == |b| <= 1 && old(s.incoming) == b + s.incoming
      ensures HeadFits(old(reading), b) && Proper(HeaderRead(old(Model()), b))
      ensures Model() == HeaderRead(old(Model()), b)
      ensures amt == 1 ==> rState == 1
      ensures amt == 0 ==> reading.Idle?
    {
      FrameFields();
      hide Slots, ConnAt, Proper;
      ghost var m := Model();
      var bytes := s.Recv(1);
      amt, b := |bytes|, bytes;
      NoHead(m);
      if amt == 1 {
        rId := bytes[0] as int;
        rState := 1;
        reading := MuxFormat.Step(reading, bytes[0]);
        RunOne(Idle, b);
        assert b[1..] == [] && HeadFits(Idle, b);
        RunKeepsProper(m, b);
      }
    }

    method ReadSize(s: Socket, max: nat) returns (amt: nat, ghost b: Bytes)
      requires Valid() && 1 <= rState < 3 && max > 0
      modifies this`rSz, this`rState, this`reading, s`incoming
      ensures Valid()
      ensures amt == |b| <= max && old(s.incoming) == b + s.incoming
      ensures HeadFits(old(reading), b) && Proper(HeaderRead(old(Model()), b))
      ensures Model() == HeaderRead(old(Model()), b)
      ensures amt > 0 ==> reading.Body? || reading.HasHigh?
      ensures reading.Body? ==> rState == 3
    {
      FrameFields();
      hide Slots, ConnAt, Proper;
      ghost var m := Model();
      amt, b := StoreSize(s, max);
      RunKeepsProper(m, b);
    }

    /** One `recv` of the size bytes still to come, put into the size field in memory order; with
        both there the field is converted. */
    method StoreSize(s: Socket, max: nat) returns (amt: nat, ghost b: Bytes)
      requires (reading.HasId? || reading.HasHigh?) && ReadingIs(rId, rSz, rState, reading)
      requires max > 0
      modifies this`rSz, this`rState, this`reading, s`incoming
      ensures amt == |b| <= max && old(s.incoming) == b + s.incoming
      ensures HeadFits(old(reading), b) && reading == Run(old(reading), b)
      ensures ReadingIs(rId, rSz, rState, reading)
      ensures reading.HasId? ==> amt == 0
      ensures reading.HasId? || reading.HasHigh? || reading.Body?
    {
      var bytes := s.Recv(Min(max, 3 - rState));
      b, amt := bytes, |bytes|;
      if amt == 0 {
        return;
      }
      if amt == 1 {
        RunOne(reading, bytes);
      } else {
        RunTwo(reading, bytes);
      }
      StoreSizeByte(bytes[0]);
      if amt > 1 {
        StoreSizeByte(bytes[1]);
      }
    }

    method StoreSizeByte(b: Octet)
      requires (reading.HasId? || reading.HasHigh?) && ReadingIs(rId, rSz, rState, reading)
      modifies this`rSz, this`rState, this`reading
      ensures reading == MuxFormat.Step(old(reading), b) && ReadingIs(rId, rSz, rState, reading)
    {
      if rState == 2 {
        SwapBytes(rSz, b as int);
      }
      rSz := rSz + (if rState == 1 then b as int else 256 * b as int);
      rState := rState + 1;
      if rState == 3 {
        rSz := if rSz != 0 then (rSz % 256) * 256 + rSz / 256 else MAX_SZ;
      }
      reading := MuxFormat.Step(reading, b);
    }

    static lemma SwapBytes(high: nat, low: nat)
      requires high < 256 && low < 256
      ensures (high + 256 * low) % 256 == high && (high + 256 * low) / 256 == low
    {}

    lemma FrameFields()
      requires Valid()
      ensures Proper(Model()) && ReadingIs(rId, rSz, rState, reading)
      ensures reading != Idle ==> reading.id == rId < IDS
    {}

    method ReadData(s: Socket, max: nat) returns (amt: nat, ghost data: Bytes, ghost reply: Bytes)
      requires Valid() && (reading.Body? || reading.HasHigh?)
      modifies this, vconn, isQueued, Conns(), s`incoming
      ensures Valid()
      ensures amt == |data| <= max && old(s.incoming) == data + s.incoming
      ensures Proper(old(Model()))
      ensures DataTaken(Opened(old(Model()), old(reading).id, greeting), data, reply, Model())
    {
      FrameFields();
      hide Slots, ConnAt, DataRead, SlippedRead, Opened, WithConn, Offered, Proper;
      ghost var f, id := reading, rId;
      ghost var m := Opened(Model(), id, greeting);
      amt, data, reply := ReadConnection(s, Min(rSz, max));
      if amt > 0 {
        DataSteps(m, data, reply);
        CountDown(amt);
      } else {
        NothingTaken(m, data, reply);
      }
    }

    /** The data of a frame has come in: count it down, and queue the connection if it has
        something to write now. */
    method CountDown(amt: nat)
      requires Valid() && (reading.Body? || reading.HasHigh?) && 0 < amt <= rSz
      requires vconn[rId] != null && vconn[rId].pending == PendingOf(Model(), rId)
      modifies this, isQueued
      ensures Proper(old(Model()).(reading := FrameAfter(old(reading), amt)))
      ensures Valid()
      ensures Model() == Offered(old(Model()).(reading := FrameAfter(old(reading), amt)), old(rId))
    {
      FrameFields();
      ghost var m, f := Model(), reading;
      FrameAfterProper(m, amt, rSz, rState);
      OfferedAnyFrame(m, FrameAfter(f, amt), rId);
      hide Valid, Model, Proper, Offered, FrameAfter;
      OfferKeepsFrame(m, rId);
      Offer(rId);
      FinishData(amt);
    }

    method FinishData(amt: nat)
      requires Valid() && (reading.Body? || reading.HasHigh?) && 0 < amt <= rSz
      modifies this`rId, this`rSz, this`rState, this`reading
      ensures Valid()
      ensures FrameAfter.requires(old(reading), amt)
      ensures Model() == old(Model()).(reading := FrameAfter(old(reading), amt))
    {
      FrameFields();
      FrameAfterProper(Model(), amt, rSz, rState);
      FrameAfterIs(rId, rSz, rState, reading, amt);
      hide Slots, ConnAt, Proper, NoSharing, Conns, ReadingIs, FrameAfter;
      reading := FrameAfter(reading, amt);
      rSz := rSz - amt;
      if rSz == 0 {
        rId, rState := 0, 0;
      }
      SameConnections();
    }

    twostate lemma SameConnections()
      requires unchanged(vconn) && unchanged(Conns())
      ensures Slots() == old(Slots()) && NoSharing() == old(NoSharing())
      ensures unchanged(isQueued) ==> isQueued[..] == old(isQueued[..])
    {}

    method Offer(i: nat)
      requires Valid() && i < IDS
      modifies this`wQueue, isQueued
      ensures Valid() && Model() == Offered(old(Model()), i)
    {
      hide Slots;
      ghost var m := Model();
      assert ConnAt(i) == m.conns[i];
      if !isQueued[i] && vconn[i] != null && vconn[i].GetWriteSize() != 0 {
        isQueued[i] := true;
        wQueue := wQueue + [i];
        assert isQueued[..] == m.queued[i := true];
      }
    }

    method ReadConnection(s: Socket, max: nat) returns (amt: nat, ghost data: Bytes, ghost reply: Bytes)
      requires Valid() && rId < IDS
      modifies vconn, Conns(), s`incoming
      ensures Valid() && vconn[rId] != null && vconn[rId].pending == PendingOf(Model(), rId)
      ensures amt == |data| <= max && old(s.incoming) == data + s.incoming
      ensures data == [] ==> reply == []
      ensures var m := Opened(old(Model()), rId, greeting);
        Model() == WithConn(m, rId, data, reply)
    {
      hide Slots;
      var c := GetVirtualConnection(rId);
      ghost var m := Model();
      assert ConnAt(rId) == m.conns[rId];
      assert s.incoming == old(s.incoming);
      amt, data, reply := c.Read(s, max);
      forall j | 0 <= j < IDS && j != rId ensures ConnAt(j) == m.conns[j] {
        assert vconn[j] != c;
      }
      SlotChanged(m.conns, rId, Some(Conn(c.pending, c.received)));
    }

    // ----- the queue -----

    method Update()
      requires Valid()
      modifies this`wQueue, isQueued
      ensures Valid() && Model() == OfferedFrom(old(Model()), 0)
    {
      hide Slots, Proper, ConnAt, Offered;
      for i := 0 to IDS
        invariant Valid()
        invariant OfferedFrom(Model(), i) == OfferedFrom(old(Model()), 0)
      {
        Offer(i);
      }
    }

    /** The first slot without a connection, or 256. */
    method FreeSlot() returns (i: nat)
      requires Valid()
      ensures i <= IDS && (i < IDS ==> vconn[i] == null && Model().conns[i].None?)
      ensures forall j :: 0 <= j < i ==> Model().conns[j].Some?
    {
      i := 0;
      while i < IDS && vconn[i] != null
        invariant 0 <= i <= IDS
        invariant forall j :: 0 <= j < i ==> Model().conns[j].Some?
      {
        assert Model().conns[i] == ConnAt(i);
        i := i + 1;
      }
      if i < IDS {
        assert Model().conns[i] == ConnAt(i);
      }
    }

    method Place(i: nat, vc: VirtualConnection)
      requires Valid() && i < IDS && vconn[i] == null
      requires forall j :: 0 <= j < IDS ==> vconn[j] != vc
      modifies vconn, isQueued, this`wQueue
      ensures Valid() && vconn[i] == vc
      ensures Placed(old(Model()), i, Conn(vc.pending, vc.received), Model())
    {
      hide Slots, Offered;
      ghost var m := Model();
      vconn[i] := vc;
      forall j | 0 <= j < IDS && j != i ensures ConnAt(j) == m.conns[j] {
        assert old(ConnAt(j)) == m.conns[j];
      }
      SlotChanged(m.conns, i, Some(Conn(vc.pending, vc.received)));
      Offer(i);
    }

    /** Takes the first free slot for a connection, if there is one. */
    method AddVirtualConnection(vc: VirtualConnection) returns (added: bool)
      requires Valid()
      requires forall j :: 0 <= j < IDS ==> vconn[j] != vc
      modifies vconn, isQueued, this`wQueue
      ensures Valid()
      ensures !added ==> Model() == old(Model()) && forall i :: 0 <= i < IDS ==> Model().conns[i].Some?
      ensures added ==> exists i: nat ::
        && FirstFree(old(Model()), i) && vconn[i] == vc
        && Placed(old(Model()), i, Conn(vc.pending, vc.received), Model())
    {
      hide Slots, Placed;
      ghost var m := Model();
      var i := FreeSlot();
      assert Model() == m;
      added := i < IDS;
      if added {
        assert FirstFree(m, i);
        Place(i, vc);
      }
    }

    /** Makes a connection in the first free slot, if there is one. */
    method CreateVirtualConnection(out: Bytes) returns (added: bool)
      requires Valid()
      modifies vconn, isQueued, this`wQueue
      ensures Valid()
      ensures !added ==> Model() == old(Model()) && forall i :: 0 <= i < IDS ==> Model().conns[i].Some?
      ensures added ==> exists i: nat ::
        FirstFree(old(Model()), i) && Placed(old(Model()), i, Conn(out, []), Model())
    {
      hide Slots, Placed;
      ghost var m := Model();
      var i := FreeSlot();
      assert Model() == m;
      added := i < IDS;
      if added {
        assert FirstFree(m, i);
        var vc := new VirtualConnection(out);
        assert Model() == m;
        Place(i, vc);
      }
    }
  }

  predicate FirstFree(m: Mux, i: nat) {
    i < |m.conns| && i < IDS && m.conns[i].None? && forall j :: 0 <= j < i ==> m.conns[j].Some?
  }

  /** A connection has been put into slot i and queued if it has something to write. */
  ghost predicate Placed(m: Mux, i: nat, c: Conn, m': Mux) {
    && i < IDS && Proper(m) && Proper(m.(conns := m.conns[i := Some(c)]))
    && m' == Offered(m.(conns := m.conns[i := Some(c)]), i)
  }

  lemma OfferKeepsFrame(m: Mux, i: nat)
    requires Proper(m) && i < IDS
    ensures Offered(m, i).reading == m.reading
  {}

  lemma OfferedAnyFrame(m: Mux, f: Frame, i: nat)
    requires Proper(m) && Proper(m.(reading := f)) && i < IDS
    ensures Offered(m.(reading := f), i) == Offered(m, i).(reading := f)
  {}

  /** What reading data for the current frame does: nothing if none came, the data read if the
      header is complete, and a slip if it is not. */
  ghost predicate DataTaken(m: Mux, data: Bytes, reply: Bytes, m': Mux) {
    && Proper(m)
    && (data == [] ==> m' == m)
    && (data != [] && m.reading.Body? ==>
         && m.conns[m.reading.id].Some? && |data| <= m.reading.left
         && m' == DataRead(m, data, reply))
    && (data != [] && m.reading.HasHigh? ==>
         && m.conns[m.reading.id].Some? && |data| <= m.reading.high as int
         && m' == SlippedRead(m, data, reply))
  }

  ghost function WithConn(m: Mux, id: nat, data: Bytes, reply: Bytes): (m': Mux)
    requires Proper(m) && id < IDS && m.conns[id].Some?
    ensures Proper(m')
  {
    var c := m.conns[id].value;
    m.(conns := m.conns[id := Some(Conn(c.pending + reply, c.received + data))])
  }

  /** The frame after k bytes have been counted down. */
  ghost function FrameAfter(f: Frame, k: nat): (f': Frame)
    requires (f.Body? && k <= f.left) || (f.HasHigh? && k <= f.high as int)
  {
    if f.Body? then (if k == f.left then Idle else Body(f.id, f.left - k))
    else (if k == f.high as int then Idle else HasHigh(f.id, Byte(f.high as int - k)))
  }

  lemma DataSteps(m: Mux, data: Bytes, reply: Bytes)
    requires Proper(m) && (m.reading.Body? || m.reading.HasHigh?) && m.conns[m.reading.id].Some?
    requires data != []
    requires if m.reading.Body? then |data| <= m.reading.left else |data| <= m.reading.high as int
    ensures var id := m.reading.id;
      var m1 := WithConn(m, id, data, reply).(reading := FrameAfter(m.reading, |data|));
      && Proper(m1)
      && Offered(m1, id) == (if m.reading.Body? then DataRead(m, data, reply)
                             else SlippedRead(m, data, reply))
      && Offered(m1, id) == (if !m1.queued[id] && PendingOf(m1, id) != [] then
                               m1.(queue := m1.queue + [id], queued := m1.queued[id := true])
                             else m1)
  {
    if m.reading.Body? {
      RunBody(m.reading.id, m.reading.left, data, 0);
    }
  }

  lemma RunOne(f: Frame, bs: Bytes)
    requires |bs| == 1
    ensures Run(f, bs) == MuxFormat.Step(f, bs[0])
  {
    assert bs[1..] == [];
  }

  lemma RunTwo(f: Frame, bs: Bytes)
    requires |bs| == 2
    ensures Run(f, bs) == MuxFormat.Step(MuxFormat.Step(f, bs[0]), bs[1])
  {
    RunOne(MuxFormat.Step(f, bs[0]), bs[1..]);
  }

  lemma NothingTaken(m: Mux, data: Bytes, reply: Bytes)
    requires Proper(m) && data == [] && reply == [] && (m.reading != Idle ==> m.conns[m.reading.id].Some?)
    ensures m.reading != Idle ==> WithConn(m, m.reading.id, data, reply) == m
    ensures DataTaken(m, data, reply, m)
  {
    if m.reading != Idle {
      var c := m.conns[m.reading.id].value;
      assert c.pending + [] == c.pending && c.received + [] == c.received;
      assert m.conns[m.reading.id := Some(c)] == m.conns;
    }
  }

  lemma FrameAfterIs(rId: nat, rSz: nat, rState: nat, f: Frame, amt: nat)
    requires ReadingIs(rId, rSz, rState, f) && (f.Body? || f.HasHigh?) && 0 < amt <= rSz
    ensures FrameAfter.requires(f, amt)
    ensures if rSz == amt then ReadingIs(0, 0, 0, FrameAfter(f, amt))
            else ReadingIs(rId, rSz - amt, rState, FrameAfter(f, amt))
  {}

  lemma FrameAfterProper(m: Mux, k: nat, rSz: nat, rState: nat)
    requires Proper(m) && (m.reading.Body? || m.reading.HasHigh?) && 0 < k <= rSz
    requires ReadingIs(m.reading.id, rSz, rState, m.reading)
    ensures var f := FrameAfter(m.reading, k);
      && Proper(m.(reading := f))
      && (if rSz == k then f == Idle else ReadingIs(m.reading.id, rSz - k, rState, f))
    ensures m.reading.id < IDS == |m.queued|
  {}

  lemma HeadMore(m: Mux, a: Bytes, b: Bytes)
    requires Proper(m) && HeadFits(m.reading, a) && HeadFits(HeaderRead(m, a).reading, b)
    ensures HeadFits(m.reading, a + b) && Proper(HeaderRead(m, a + b))
    ensures HeaderRead(HeaderRead(m, a), b) == HeaderRead(m, a + b)
  {
    JoinHead(m.reading, a, b);
    RunKeepsProper(m, a + b);
  }

  lemma NoHead(m: Mux)
    requires Proper(m)
    ensures HeaderRead(m, []) == m && HeadFits(m.reading, [])
  {}

  lemma {:induction false} JoinHead(f: Frame, a: Bytes, b: Bytes)
    requires HeadFits(f, a) && HeadFits(Run(f, a), b)
    ensures HeadFits(f, a + b) && Run(f, a + b) == Run(Run(f, a), b)
    decreases |a|
  {
    RunAppend(f, a, b);
    if a == [] {
      assert a + b == b;
    } else {
      assert (a + b)[1..] == a[1..] + b;
      JoinHead(MuxFormat.Step(f, a[0]), a[1..], b);
    }
  }

  ghost function WithPending(m: Mux, id: nat, pending: Bytes): (m': Mux)
    requires Proper(m) && id < IDS && m.conns[id].Some?
    ensures Proper(m')
  {
    m.(conns := m.conns[id := Some(m.conns[id].value.(pending := pending))])
  }

  /** The current frame is k bytes of data shorter; at its end the connection is queued again
      exactly when it has more. */
  ghost function CountedOut(m: Mux, k: nat): (m': Mux)
    requires Proper(m) && m.wSz > 0 && k <= m.wSz
  {
    if k < m.wSz then m.(wSz := m.wSz - k)
    else if PendingOf(m, m.wId) != [] then m.(wId := 0, wSz := 0, wState := 0, queue := m.queue + [m.wId])
    else m.(wId := 0, wSz := 0, wState := 0, queued := m.queued[m.wId := false])
  }

  lemma PayloadSteps(m: Mux, k: nat, m1: Mux)
    requires Proper(m) && m.wSz > 0 && k <= m.wSz && k <= |PendingOf(m, m.wId)|
    requires m1 == WithPending(m, m.wId, PendingOf(m, m.wId)[k..])
    ensures m1.wSz == m.wSz && m1.wId == m.wId < |m1.queued|
    ensures k == 0 ==> PayloadWritten(m, k) == m1
    ensures 0 < k ==> PayloadWritten(m, k) == CountedOut(m1, k)
    ensures Proper(PayloadWritten(m, k))
  {}

  lemma HeadBounds(m: Mux)
    requires Proper(m)
    ensures m.wSz > 0 ==> m.wId < IDS && m.wSz <= MAX_SZ && m.wState <= 3
  {}

  /** A piece of the size bytes is a piece of the header. */
  lemma SizePiece(id: nat, sz: nat, from: nat, most: nat, n: nat)
    requires id < IDS && 0 < sz <= MAX_SZ && 0 < from < 3 && most <= 3 - from && n <= most
    ensures Common.WriteShort(sz)[from-1..][..most][..n] == Header(id, sz)[from..from+n]
  {
    hide Common.WriteShort;
  }

  lemma HeadNothing(m: Mux)
    requires Proper(m)
    ensures HeadWritten(m, 0) == m
    ensures m.wSz > 0 ==> Header(m.wId, m.wSz)[m.wState..m.wState] == []
  {}

  lemma HeadTwice(m: Mux, a: nat, b: nat)
    requires Proper(m) && m.wState + a + b <= 3
    ensures HeadWritten(HeadWritten(m, a), b) == HeadWritten(m, a + b)
  {}

  lemma JoinParts(out: Bytes, head: Bytes, a: nat, b: nat, c: nat)
    requires a <= b <= c <= |head|
    ensures out + head[a..b] + head[b..c] == out + head[a..c]
  {
    assert head[a..b] + head[b..c] == head[a..c];
  }

  lemma HeadPending(m: Mux, k: nat)
    requires Proper(m) && m.wSz > 0 && m.wState + k <= 3
    ensures PendingOf(HeadWritten(m, k), m.wId) == PendingOf(m, m.wId)
  {}

  /** Header bytes followed by data are the next bytes of the frame when the header is complete. */
  lemma HeadThenData(m: Mux, k: nat, d: nat)
    requires Proper(m) && m.wSz > 0 && m.wState + k <= 3
    requires d <= m.wSz && d <= |PendingOf(m, m.wId)|
    ensures k <= |FrameRest(m)| && FrameRest(m)[..k] == Header(m.wId, m.wSz)[m.wState..m.wState+k]
    ensures Written(m, k) == HeadWritten(m, k)
    ensures m.wState + k == 3 ==>
      && k + d <= |FrameRest(m)|
      && FrameRest(m)[..k+d] == Header(m.wId, m.wSz)[m.wState..m.wState+k] + PendingOf(m, m.wId)[..d]
      && Written(m, k + d) == PayloadWritten(HeadWritten(m, k), d)
    ensures d == 0 ==> PayloadWritten(HeadWritten(m, k), d) == HeadWritten(m, k)
  {
    hide Header;
    var head := Header(m.wId, m.wSz);
    assert FrameRest(m)[..k] == head[m.wState..m.wState+k];
    assert m.conns[m.wId := m.conns[m.wId]] == m.conns;
    assert PendingOf(m, m.wId)[0..] == PendingOf(m, m.wId);
  }
}
