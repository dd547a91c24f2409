/** The multiplexed stream: frames of an id byte, a two-byte size (0 for 65536) and that many
    bytes of data, read one byte at a time. */
module MuxFormat {
  import opened Octets
  import Common

  const IDS: nat := 256
  const MAX_SZ: nat := 0x1_0000

  /** Where a reader of the stream stands. */
  datatype Frame =
    | Idle
    | HasId(id: nat)
    | HasHigh(id: nat, high: Octet)
    | Body(id: nat, left: nat)

  function SizeOf(high: Octet, low: Octet): (n: nat)
    ensures 0 < n <= MAX_SZ
  {
    var n := Common.ReadShort(high, low);
    if n == 0 then MAX_SZ else n
  }

  function Step(f: Frame, ch: Octet): (f': Frame) {
    match f
    case Idle => HasId(ch as int)
    case HasId(id) => HasHigh(id, ch)
    case HasHigh(id, high) => Body(id, SizeOf(high, ch))
    case Body(id, left) => if left <= 1 then Idle else Body(id, left - 1)
  }

  function Run(f: Frame, bs: Bytes): (r: Frame)
    decreases |bs|
  {
    if bs == [] then f else Run(Step(f, bs[0]), bs[1..])
  }

  /** The data that a piece of the stream carries for one id. */
  function DataFor(f: Frame, bs: Bytes, id: nat): (r: Bytes)
    decreases |bs|
  {
    if bs == [] then []
    else
      (if f.Body? && f.id == id then [bs[0]] else [])
      + DataFor(Step(f, bs[0]), bs[1..], id)
  }

  lemma {:induction false} RunAppend(f: Frame, a: Bytes, b: Bytes)
    ensures Run(f, a + b) == Run(Run(f, a), b)
    decreases |a|
  {
    if a == [] {
      assert a + b == b;
    } else {
      assert (a + b)[1..] == a[1..] + b;
      RunAppend(Step(f, a[0]), a[1..], b);
    }
  }

  lemma {:induction false} DataAppend(f: Frame, a: Bytes, b: Bytes, id: nat)
    ensures DataFor(f, a + b, id) == DataFor(f, a, id) + DataFor(Run(f, a), b, id)
    decreases |a|
  {
    if a == [] {
      assert a + b == b;
    } else {
      assert (a + b)[1..] == a[1..] + b;
      DataAppend(Step(f, a[0]), a[1..], b, id);
    }
  }

  /** What an earlier part of the stream delivered is a prefix of what more of it delivers. */
  lemma DataPrefix(a: Bytes, b: Bytes, id: nat)
    requires a <= b
    ensures DataFor(Idle, a, id) <= DataFor(Idle, b, id)
  {
    assert b == a + b[|a|..];
    DataAppend(Idle, a, b[|a|..], id);
  }

  lemma {:induction false} RunBody(id: nat, left: nat, data: Bytes, j: nat)
    requires |data| <= left
    ensures left > 0 ==>
      Run(Body(id, left), data) == if |data| == left then Idle else Body(id, left - |data|)
    ensures DataFor(Body(id, left), data, j) == if j == id then data else []
    decreases |data|
  {
    if data != [] {
      if left > 1 {
        RunBody(id, left - 1, data[1..], j);
      } else {
        assert data[1..] == [];
      }
      assert [data[0]] + data[1..] == data;
    }
  }

  // ----- headers -----

  /** The three bytes before the data of a frame. */
  function Header(id: nat, size: nat): (r: Bytes)
    requires id < IDS && 0 < size <= MAX_SZ
    ensures |r| == 3
  {
    [Byte(id)] + Common.WriteShort(size)
  }

  /** The id comes first, then the size with its high byte in front; 65536 is sent as zero. */
  lemma HeaderBytes(id: nat, size: nat)
    requires id < IDS && 0 < size <= MAX_SZ
    ensures var h := Header(id, size);
      && h[0] as int == id
      && h[1] as int * 256 + h[2] as int == (if size == 0x1_0000 then 0 else size)
  {
    Common.ShortRoundTrip(size);
  }

  /** A frame of a stream, wherever it comes from: as many bytes of data as the two size bytes say,
      or 65536 if they are zero, all for the id in front and none for any other. */
  lemma FrameMeans(id: Octet, high: Octet, low: Octet, data: Bytes, j: nat)
    requires var size := high as int * 256 + low as int;
      |data| == (if size == 0 then 0x1_0000 else size)
    ensures Run(Idle, [id, high, low] + data) == Idle
    ensures DataFor(Idle, [id, high, low] + data, j) == if j == id as int then data else []
  {
    var head := [id, high, low];
    HeadMeans(id, high, low, j);
    RunAppend(Idle, head, data);
    DataAppend(Idle, head, data, j);
    RunBody(id as int, |data|, data, j);
  }

  lemma HeadMeans(id: Octet, high: Octet, low: Octet, j: nat)
    ensures var size := high as int * 256 + low as int;
      Run(Idle, [id, high, low]) == Body(id as int, if size == 0 then 0x1_0000 else size)
    ensures DataFor(Idle, [id, high, low], j) == []
  {
    var head := [id, high, low];
    assert head[1..] == [high, low] && [high, low][1..] == [low] && [low][1..] == [];
    assert Run(HasHigh(id as int, high), [low]) == Body(id as int, SizeOf(high, low));
    assert DataFor(HasHigh(id as int, high), [low], j) == [];
  }

  /** Where a reader stands after the first k bytes of a header. */
  function InHeader(id: nat, size: nat, k: nat): (f: Frame)
    requires id < IDS && 0 < size <= MAX_SZ && k <= 3
  {
    if k == 0 then Idle
    else if k == 1 then HasId(id)
    else if k == 2 then HasHigh(id, Common.WriteShort(size)[0])
    else Body(id, size)
  }

  lemma HeaderStep(id: nat, size: nat, k: nat)
    requires id < IDS && 0 < size <= MAX_SZ && k < 3
    ensures Step(InHeader(id, size, k), Header(id, size)[k]) == InHeader(id, size, k + 1)
  {
    Common.ShortRoundTrip(size);
  }

  /** Any piece of a header, wherever it is cut, takes a reader forward by its length and carries
      no data. Every size from 1 to 65536 is read back. */
  lemma {:induction false} RunHeader(id: nat, size: nat, k: nat, n: nat, j: nat)
    requires id < IDS && 0 < size <= MAX_SZ && k + n <= 3
    ensures var piece := Header(id, size)[k..k+n];
      && Run(InHeader(id, size, k), piece) == InHeader(id, size, k + n)
      && DataFor(InHeader(id, size, k), piece, j) == []
    decreases n
  {
    var piece := Header(id, size)[k..k+n];
    if n > 0 {
      HeaderStep(id, size, k);
      assert piece[1..] == Header(id, size)[k+1..k+n];
      RunHeader(id, size, k + 1, n - 1, j);
    }
  }
}
