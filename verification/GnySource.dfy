/** The resumable GNY reader. It keeps the tail of the stream in a buffer that it rebases after
    every read; the offset of an unknown header's value is not rebased with it. */
module GnySource {
  import opened Octets
  import opened Messages
  import opened GnyFormat
  import opened Sockets
  import Common
  import Http

  /** The reader's state: that of the one-byte parser, together with how far the remembered
      start of an unknown header's value lies behind where the value really starts. */
  datatype Reader = Reader(g: Gny, skew: nat)

  predicate InUnknownValue(ph: Phase) {
    ph.Value? && ph.code == Http.HEADER_UNKNOWN
  }

  /** How many bytes the reader keeps in its buffer between reads. */
  function Buffered(ph: Phase): (n: nat) {
    match ph
    case Url(acc) => |acc|
    case Status(acc) => |acc|
    case Key(acc) => |acc|
    case Value(code, key, acc) => if code == Http.HEADER_UNKNOWN then |key| + 1 + |acc| else |acc|
    case Size(acc) => |acc|
    case _ => 0
  }

  /** One byte, with the bytes that follow it in the buffer: a value ends at the first NUL at or
      after its remembered start, and there need be none left before the buffer ends. */
  function Take(r: Reader, ch: Octet, rest: Bytes): (r': Reader) {
    var ph := r.g.phase;
    if InUnknownValue(ph) && ch == NUL then
      var view := ph.acc + [NUL] + rest;
      if r.skew <= |view| then
        Reader(Gny(Start, Deliver(r.g.msg, ph.key, CStr(view[r.skew..]))), 0)
      else Reader(Gny(Undefined, r.g.msg), 0)
    else Reader(Step(r.g, ch), if InUnknownValue(ph) then r.skew else 0)
  }

  /** The bytes of a chunk one after the other, up to the end of the message. */
  function Scan(r: Reader, chunk: Bytes): (res: (Reader, nat))
    ensures res.1 <= |chunk|
    decreases |chunk|
  {
    if chunk == [] || Stopped(r.g) then (r, 0)
    else
      var (r', n) := Scan(Take(r, chunk[0], chunk[1..]), chunk[1..]);
      (r', n + 1)
  }

  /** What rebasing the buffer by `dropped` bytes does. */
  function Rebased(r: Reader, dropped: int): (r': Reader) {
    if InUnknownValue(r.g.phase) && dropped > 0 then r.(skew := r.skew + dropped) else r
  }

  /** One call of `read` that peeks at `chunk`: the new state and the bytes consumed. */
  function AfterRead(r: Reader, chunk: Bytes): (res: (Reader, nat))
    ensures res.1 <= |chunk|
  {
    var (r', n) := Scan(r, chunk);
    (Rebased(r', Buffered(r.g.phase) + n - Buffered(r'.g.phase)), n)
  }

  // ----- reads that agree with the one-byte parser -----

  /** The read takes in the flag byte of a header whose name is not in the table and ends inside
      that header's value. */
  predicate CutsFreshValue(g: Gny, chunk: Bytes) {
    var end := Run(g, chunk).phase;
    InUnknownValue(end) && Buffered(end) < Buffered(g.phase) + |chunk|
  }

  lemma TakeAgrees(r: Reader, ch: Octet, rest: Bytes)
    requires Proper(r.g) && r.skew == 0
    ensures Take(r, ch, rest) == Reader(Step(r.g, ch), 0)
  {
    var ph := r.g.phase;
    if InUnknownValue(ph) && ch == NUL {
      CStrStops(ph.acc, rest);
      var view := ph.acc + [NUL] + rest;
      assert view[0..] == view;
    }
  }

  /** The first n bytes bring the parser to its first stop, or all bytes were needed. */
  ghost predicate StopsAt(g: Gny, bs: Bytes, n: nat) {
    && n <= |bs|
    && (n < |bs| ==> Stopped(Run(g, bs[..n])))
    && (forall k :: 0 <= k < n ==> !Stopped(Run(g, bs[..k])))
  }

  lemma {:induction false} ScanAgrees(r: Reader, chunk: Bytes)
    requires Proper(r.g) && r.skew == 0
    ensures var (r', n) := Scan(r, chunk);
      && r' == Reader(Run(r.g, chunk), 0)
      && r'.g == Run(r.g, chunk[..n])
      && StopsAt(r.g, chunk, n)
    decreases |chunk|
  {
    var (r', n) := Scan(r, chunk);
    if chunk == [] {
      assert chunk[..n] == [];
    } else if Stopped(r.g) {
      RunStopped(r.g, chunk);
      assert chunk[..n] == [];
    } else {
      var g1 := Step(r.g, chunk[0]);
      TakeAgrees(r, chunk[0], chunk[1..]);
      StepProper(r.g, chunk[0]);
      ScanAgrees(Reader(g1, 0), chunk[1..]);
      assert chunk[..n][1..] == chunk[1..][..n-1];
      forall k | 0 <= k < n ensures !Stopped(Run(r.g, chunk[..k])) {
        if k > 0 {
          assert chunk[..k][1..] == chunk[1..][..k-1];
        }
      }
    }
  }

  /** A read that starts in step with the one-byte parser ends in step with it if and only if it
      does not cut the value of an unknown header that it began. */
  lemma ReadAgreesIff(g: Gny, chunk: Bytes)
    requires Proper(g)
    ensures AfterRead(Reader(g, 0), chunk).0 == Reader(Run(g, chunk), 0) <==> !CutsFreshValue(g, chunk)
  {
    ScanAgrees(Reader(g, 0), chunk);
  }

  // ----- what a cut does -----

  /** A value whose start is remembered p bytes too far in arrives without its first p bytes. */
  lemma {:induction false} SkewedValue(r: Reader, more: Bytes, rest: Bytes)
    requires InUnknownValue(r.g.phase) && NulFree(r.g.phase.acc + more)
    requires r.skew <= |r.g.phase.acc + more|
    ensures var value := r.g.phase.acc + more;
      var ended := Reader(Gny(Start, Deliver(r.g.msg, r.g.phase.key, value[r.skew..])), 0);
      var chunk := more + [NUL] + rest;
      Scan(r, chunk) == (Scan(ended, rest).0, |more| + 1 + Scan(ended, rest).1)
    decreases |more|
  {
    hide Deliver, CStr, Take, NulFree;
    var acc := r.g.phase.acc;
    var chunk := more + [NUL] + rest;
    if more == [] {
      assert acc + more == acc;
      assert chunk[1..] == rest;
      EndsWithin(r, rest);
    } else {
      TakesOpen(r, more, chunk[1..]);
      assert chunk[1..] == more[1..] + [NUL] + rest;
      SkewedValue(Take(r, more[0], chunk[1..]), more[1..], rest);
    }
  }

  /** The NUL that ends a value whose remembered start is within it. */
  lemma EndsWithin(r: Reader, rest: Bytes)
    requires InUnknownValue(r.g.phase) && NulFree(r.g.phase.acc) && r.skew <= |r.g.phase.acc|
    ensures Take(r, NUL, rest)
      == Reader(Gny(Start, Deliver(r.g.msg, r.g.phase.key, r.g.phase.acc[r.skew..])), 0)
  {
    hide Deliver;
    var acc := r.g.phase.acc;
    var view := acc + [NUL] + rest;
    assert view[r.skew..] == acc[r.skew..] + [NUL] + rest;
    CStrStops(acc[r.skew..], rest);
  }

  /** A value whose remembered start is behind its end arrives as the beginning of what follows it
      in the buffer, up to a NUL or to the end of the buffer; if the start is beyond the buffer as
      well, nothing is known of what is read. */
  lemma {:induction false} SkewedPast(r: Reader, more: Bytes, rest: Bytes)
    requires InUnknownValue(r.g.phase) && NulFree(r.g.phase.acc + more)
    requires r.skew > |r.g.phase.acc + more|
    ensures var over := r.skew - |r.g.phase.acc + more| - 1;
      var ended := Reader(
        if over <= |rest| then Gny(Start, Deliver(r.g.msg, r.g.phase.key, CStr(rest[over..])))
        else Gny(Undefined, r.g.msg), 0);
      var chunk := more + [NUL] + rest;
      Scan(r, chunk) == (Scan(ended, rest).0, |more| + 1 + Scan(ended, rest).1)
    decreases |more|
  {
    hide Deliver, CStr, Take, NulFree;
    var acc := r.g.phase.acc;
    var chunk := more + [NUL] + rest;
    if more == [] {
      assert acc + more == acc;
      assert chunk[1..] == rest;
      EndsPast(r, rest);
    } else {
      TakesOpen(r, more, chunk[1..]);
      assert chunk[1..] == more[1..] + [NUL] + rest;
      SkewedPast(Take(r, more[0], chunk[1..]), more[1..], rest);
    }
  }

  /** The NUL that ends a value whose remembered start is behind it. */
  lemma EndsPast(r: Reader, rest: Bytes)
    requires InUnknownValue(r.g.phase) && r.skew > |r.g.phase.acc|
    ensures var over := r.skew - |r.g.phase.acc| - 1;
      Take(r, NUL, rest) == Reader(
        if over <= |rest| then Gny(Start, Deliver(r.g.msg, r.g.phase.key, CStr(rest[over..])))
        else Gny(Undefined, r.g.msg), 0)
  {
    hide Deliver, CStr;
    var over := r.skew - |r.g.phase.acc| - 1;
    var view := r.g.phase.acc + [NUL] + rest;
    assert over <= |rest| ==> view[r.skew..] == rest[over..];
  }

  /** A byte of an unknown value that does not end it. */
  lemma TakesOpen(r: Reader, more: Bytes, rest: Bytes)
    requires InUnknownValue(r.g.phase) && more != [] && NulFree(r.g.phase.acc + more)
    ensures var r1 := Take(r, more[0], rest);
      && InUnknownValue(r1.g.phase) && r1.skew == r.skew
      && r1.g.phase.key == r.g.phase.key && r1.g.msg == r.g.msg
      && r1.g.phase.acc + more[1..] == r.g.phase.acc + more
  {
    hide Http.AToHeader, Deliver, CStr;
    assert more[0] in r.g.phase.acc + more;
  }

  /** A read that takes in the flag of an unknown header as the p-th byte of its buffer and ends
      inside the header's value loses the first p bytes of the value: what is behind the flag
      moves to the front of the buffer, the remembered start does not. */
  lemma CutLosesPrefix(g: Gny, before: Bytes, kv: KeyValue, v1: Bytes, v2: Bytes)
    requires Proper(g) && Run(g, before).phase.Start?
    requires PairSafe(kv) && Http.AToHeader(kv.key) == Http.HEADER_UNKNOWN && kv.value == v1 + v2
    requires Buffered(g.phase) + |before| + 1 <= |kv.value|
    ensures var m, p := Run(g, before).msg, Buffered(g.phase) + |before| + 1;
      var first := before + ([Byte(Http.HEADER_UNKNOWN)] + kv.key + [NUL] + v1);
      var second := v2 + [NUL];
      && first + second == before + EncodePair(kv)
      && Run(g, first + second) == Gny(Start, Deliver(m, kv.key, kv.value))
      && AfterRead(AfterRead(Reader(g, 0), first).0, second).0
         == Reader(Gny(Start, Deliver(m, kv.key, kv.value[p..])), 0)
  {
    hide Http.AToHeader, Run, Proper, EncodePair, AfterRead, Deliver, NulFree;
    var m, p := Run(g, before).msg, Buffered(g.phase) + |before| + 1;
    UncutPair(g, before, kv, v1, v2);
    PartsNulFree(kv, v1, v2);
    FirstCut(g, before, kv.key, v1);
    SecondCut(Reader(Gny(Value(Http.HEADER_UNKNOWN, kv.key, v1), m), p), v2);
  }

  /** What the two pieces mean when they are not cut. */
  lemma UncutPair(g: Gny, before: Bytes, kv: KeyValue, v1: Bytes, v2: Bytes)
    requires Run(g, before).phase.Start?
    requires PairSafe(kv) && Http.AToHeader(kv.key) == Http.HEADER_UNKNOWN && kv.value == v1 + v2
    ensures var whole := before + ([Byte(Http.HEADER_UNKNOWN)] + kv.key + [NUL] + v1) + (v2 + [NUL]);
      && whole == before + EncodePair(kv)
      && Run(g, whole) == Gny(Start, Deliver(Run(g, before).msg, kv.key, kv.value))
  {
    hide Http.AToHeader, Run, EncodePair, Deliver;
    var head := [Byte(Http.HEADER_UNKNOWN)] + kv.key + [NUL] + v1;
    RunPair(Run(g, before).msg, kv);
    PairInTwo(kv, v1, v2);
    RunAppend(g, before, EncodePair(kv));
    assert before + head + (v2 + [NUL]) == before + (head + (v2 + [NUL]));
  }

  lemma PartsNulFree(kv: KeyValue, v1: Bytes, v2: Bytes)
    requires PairSafe(kv) && kv.value == v1 + v2
    ensures NulFree(kv.key) && NulFree(v1) && NulFree(v1 + v2)
  {}

  lemma FirstCut(g: Gny, before: Bytes, key: Bytes, v1: Bytes)
    requires Proper(g) && Run(g, before).phase.Start? && NulFree(key) && NulFree(v1)
    ensures AfterRead(Reader(g, 0), before + ([Byte(Http.HEADER_UNKNOWN)] + key + [NUL] + v1)).0
      == Reader(Gny(Value(Http.HEADER_UNKNOWN, key, v1), Run(g, before).msg), Buffered(g.phase) + |before| + 1)
  {
    hide Run, Proper, Scan;
    var head := [Byte(Http.HEADER_UNKNOWN)] + key + [NUL] + v1;
    RunCutPair(Run(g, before).msg, key, v1);
    RunAppend(g, before, head);
    ScanAgrees(Reader(g, 0), before + head);
  }

  lemma SecondCut(r: Reader, v2: Bytes)
    requires InUnknownValue(r.g.phase) && NulFree(r.g.phase.acc + v2)
    requires r.skew <= |r.g.phase.acc + v2|
    ensures AfterRead(r, v2 + [NUL]).0
      == Reader(Gny(Start, Deliver(r.g.msg, r.g.phase.key, (r.g.phase.acc + v2)[r.skew..])), 0)
  {
    hide Deliver, Scan;
    assert v2 + [NUL] + [] == v2 + [NUL];
    SkewedValue(r, v2, []);
    ScanNone(Reader(Gny(Start, Deliver(r.g.msg, r.g.phase.key, (r.g.phase.acc + v2)[r.skew..])), 0), []);
  }

  lemma PairInTwo(kv: KeyValue, v1: Bytes, v2: Bytes)
    requires Http.AToHeader(kv.key) == Http.HEADER_UNKNOWN && kv.value == v1 + v2
    ensures [Byte(Http.HEADER_UNKNOWN)] + kv.key + [NUL] + v1 + (v2 + [NUL]) == EncodePair(kv)
  {
    hide Http.AToHeader;
    var flag := [Byte(Http.HEADER_UNKNOWN)];
    assert kv.value + [NUL] == v1 + v2 + [NUL];
    assert flag + kv.key + [NUL] + v1 + (v2 + [NUL]) == flag + (kv.key + [NUL]) + (v1 + v2 + [NUL]);
  }

  lemma RunCutPair(m: Msg, key: Bytes, v: Bytes)
    requires NulFree(key) && NulFree(v)
    ensures Run(Gny(Start, m), [Byte(Http.HEADER_UNKNOWN)] + key + [NUL] + v)
         == Gny(Value(Http.HEADER_UNKNOWN, key, v), m)
  {
    var flag := [Byte(Http.HEADER_UNKNOWN)];
    var g := Gny(Start, m);
    assert flag + key + [NUL] + v == flag + (key + [NUL]) + v;
    RunAppend(g, flag + (key + [NUL]), v);
    RunAppend(g, flag, key + [NUL]);
    assert Run(Step(g, flag[0]), flag[1..]) == Step(g, flag[0]);
    RunKey([], m, key);
    assert [] + key == key;
    RunOpenValue(Http.HEADER_UNKNOWN, key, [], m, v);
    assert [] + v == v;
  }

  lemma {:induction false} RunOpenValue(code: nat, key: Bytes, acc: Bytes, m: Msg, v: Bytes)
    requires NulFree(v)
    ensures Run(Gny(Value(code, key, acc), m), v) == Gny(Value(code, key, acc + v), m)
    decreases |v|
  {
    if v == [] {
      assert acc + v == acc;
    } else {
      assert acc + v == acc + [v[0]] + v[1..];
      RunOpenValue(code, key, acc + [v[0]], m, v[1..]);
    }
  }

  /** A response with status 200 and the header "x: ab", read in three pieces of which the second
      ends after the 'a', is read with the header "x: b". */
  lemma CutCounterexample()
    ensures var g := Initial(false);
      var status: Bytes := ['\0', '\U{00C8}'];
      var first: Bytes := ['\U{0035}', 'x', '\0', 'a'];
      var second: Bytes := ['b', '\0'];
      && Run(Run(g, status), first + second).msg.headers == [KeyValue("x", "ab")]
      && AfterRead(Reader(g, 0), status).0 == Reader(Run(g, status), 0)
      && AfterRead(AfterRead(Reader(Run(g, status), 0), first).0, second).0.g.msg.headers == [KeyValue("x", "b")]
  {
    hide AfterRead, Http.AToHeader, CutsFreshValue;
    var m := Blank(false).(status := 200);
    var kv := KeyValue("x", "ab");
    ReadsStatus();
    ReadAgreesIff(Initial(false), ['\0', '\U{00C8}']);
    Http.SingleByteUnknown("x");
    hide Run;
    NothingBefore(Gny(Start, m));
    CutLosesPrefix(Gny(Start, m), [], kv, "a", "b");
    assert [] + ([Byte(Http.HEADER_UNKNOWN)] + kv.key + [NUL] + "a") == ['\U{0035}', 'x', '\0', 'a'];
    assert ['b', '\0'] == "b" + [NUL];
    assert kv.value[1..] == "b";
  }

  /** A response with the header "x:" and no value, read from its first byte on and cut before the
      terminator: the remembered start of the value is beyond the buffer. */
  lemma LostExample()
    ensures var g := Initial(false);
      var first: Bytes := ['\0', '\U{00C8}', '\U{0035}', 'x', '\0'];
      && Run(Run(g, first), [NUL]).msg.headers == [KeyValue("x", [])]
      && AfterRead(AfterRead(Reader(g, 0), first).0, [NUL]).0.g.phase.Undefined?
  {
    hide CutsFreshValue, Run, AfterRead, Http.AToHeader;
    var status: Bytes := ['\0', '\U{00C8}'];
    var g, m := Initial(false), Blank(false).(status := 200);
    ReadsStatus();
    FirstCut(g, status, "x", []);
    assert status + ([Byte(Http.HEADER_UNKNOWN)] + "x" + [NUL] + []) == ['\0', '\U{00C8}', '\U{0035}', 'x', '\0'];
    RunCutPair(m, "x", []);
    RunAppend(g, status, [Byte(Http.HEADER_UNKNOWN)] + "x" + [NUL] + []);
    var ph := Value(Http.HEADER_UNKNOWN, "x", []);
    RunFlag(Gny(ph, m), NUL);
    EmptyValueLost(ph, m);
  }

  lemma EmptyValueLost(ph: Phase, m: Msg)
    requires ph == Value(Http.HEADER_UNKNOWN, "x", [])
    ensures Step(Gny(ph, m), NUL).msg == Deliver(m, "x", [])
    ensures AfterRead(Reader(Gny(ph, m), 3), [NUL]).0.g.phase.Undefined?
  {
    var r := Reader(Gny(ph, m), 3);
    assert [NUL][1..] == [];
    assert ph.acc + [NUL] + [] == [NUL];
    assert Take(r, NUL, []) == Reader(Gny(Undefined, m), 0);
    assert Scan(Take(r, NUL, []), []) == (Take(r, NUL, []), 0);
  }

  lemma NothingBefore(g: Gny)
    ensures Run(g, []) == g
  {}

  lemma ReadsStatus()
    ensures Run(Initial(false), ['\0', '\U{00C8}']) == Gny(Start, Blank(false).(status := 200))
    ensures !CutsFreshValue(Initial(false), ['\0', '\U{00C8}'])
  {
    var status: Bytes := ['\0', '\U{00C8}'];
    var g := Initial(false);
    assert status[1..] == ['\U{00C8}'] && status[1..][1..] == [];
    assert [] + [status[0]] == ['\0'];
    assert Step(g, status[0]) == Gny(Status(['\0']), Blank(false));
    assert Step(Step(g, status[0]), status[1]) == Gny(Start, Blank(false).(status := 200));
    assert Run(Step(Step(g, status[0]), status[1]), []) == Gny(Start, Blank(false).(status := 200));
    assert Run(Step(g, status[0]), status[1..]) == Gny(Start, Blank(false).(status := 200));
  }

  /** One byte fills the message legally, whether or not the value of a header is skewed. */
  lemma TakeFills(r: Reader, ch: Octet, rest: Bytes)
    requires WellBegun(r.g)
    ensures WellBegun(Take(r, ch, rest).g) && FilledTo(r.g.msg, Take(r, ch, rest).g.msg)
  {
    hide Step, FilledTo;
    var ph := r.g.phase;
    if InUnknownValue(ph) && ch == NUL {
      var view := ph.acc + [NUL] + rest;
      FilledToItself(r.g.msg);
      if r.skew <= |view| {
        DeliverFills(r.g.msg, ph.key, CStr(view[r.skew..]));
      }
    } else {
      StepFills(r.g, ch);
    }
  }

  /** Whatever a reader is given and wherever it is cut, what it does to its message is a legal
      filling. */
  lemma {:induction false} ScanFills(r: Reader, chunk: Bytes)
    requires WellBegun(r.g)
    ensures WellBegun(Scan(r, chunk).0.g) && FilledTo(r.g.msg, Scan(r, chunk).0.g.msg)
    decreases |chunk|
  {
    hide Take, WellBegun, FilledTo;
    if chunk == [] || Stopped(r.g) {
      FilledToItself(r.g.msg);
    } else {
      var r1 := Take(r, chunk[0], chunk[1..]);
      TakeFills(r, chunk[0], chunk[1..]);
      ScanFills(r1, chunk[1..]);
      FilledToTransitive(r.g.msg, r1.g.msg, Scan(r1, chunk[1..]).0.g.msg);
    }
  }

  // ----- sessions: a reader called again and again on a stream -----

  /** Successive reads, each of which sees at most the given number of bytes. */
  function Session(r: Reader, wire: Bytes, sizes: seq<nat>): (res: (Reader, Bytes))
    decreases |sizes|
  {
    if sizes == [] then (r, wire)
    else
      var (r', n) := AfterRead(r, wire[..Min(sizes[0], |wire|)]);
      Session(r', wire[n..], sizes[1..])
  }

  /** No read of the session cuts the value of an unknown header that it began. */
  predicate CleanCuts(g: Gny, wire: Bytes, sizes: seq<nat>)
    decreases |sizes|
  {
    if sizes == [] || Stopped(g) then true
    else
      var chunk := wire[..Min(sizes[0], |wire|)];
      && !CutsFreshValue(g, chunk)
      && CleanCuts(Run(g, chunk), wire[|chunk|..], sizes[1..])
  }

  /** The bytes of `message` end a message, and no shorter prefix of them does. */
  ghost predicate Complete(g: Gny, message: Bytes) {
    && Run(g, message).phase.Done?
    && forall k :: 0 <= k < |message| ==> !Stopped(Run(g, message[..k]))
  }

  lemma CompleteTail(g: Gny, message: Bytes, n: nat)
    requires Complete(g, message) && n <= |message|
    ensures Complete(Run(g, message[..n]), message[n..])
  {
    assert message[..n] + message[n..] == message;
    RunAppend(g, message[..n], message[n..]);
    forall k | 0 <= k < |message[n..]| ensures !Stopped(Run(Run(g, message[..n]), message[n..][..k])) {
      assert message[..n] + message[n..][..k] == message[..n+k];
      RunAppend(g, message[..n], message[n..][..k]);
    }
  }

  /** One read of a chunk of a stream that begins with a complete message. */
  lemma ReadWithin(g: Gny, message: Bytes, rest: Bytes, size: nat)
    requires Proper(g) && Complete(g, message)
    ensures var wire := message + rest;
      var chunk := wire[..Min(size, |wire|)];
      var n := Min(size, |message|);
      && AfterRead(Reader(g, 0), chunk).1 == n
      && Run(g, chunk) == Run(g, message[..n])
      && wire[n..] == message[n..] + rest
      && (n < |message| ==> |chunk| == n)
  {
    var wire := message + rest;
    var chunk := wire[..Min(size, |wire|)];
    var n := Min(size, |message|);
    ScanAgrees(Reader(g, 0), chunk);
    var k := AfterRead(Reader(g, 0), chunk).1;
    assert chunk[..n] == message[..n];
    assert message[..|message|] == message;
    var j := Min(k, n);
    assert chunk[..j] == message[..j];
  }

  /** Fragmentation independence and exact consumption: over any session whose reads cut cleanly
      and together reach the end of a message, the reader holds what the one-byte parser makes
      of that message and has taken from the stream its bytes and no other. */
  lemma {:induction false} SessionReadsMessage(g: Gny, message: Bytes, rest: Bytes, sizes: seq<nat>)
    requires Proper(g) && Complete(g, message)
    requires CleanCuts(g, message + rest, sizes)
    requires Total(sizes) >= |message|
    ensures Session(Reader(g, 0), message + rest, sizes) == (Reader(Run(g, message), 0), rest)
    decreases |sizes|
  {
    var wire := message + rest;
    if message == [] {
      SessionAfterDone(g, rest, sizes);
      assert wire == rest;
    } else {
      assert message[..0] == [];
      assert !Stopped(g);
      var chunk := wire[..Min(sizes[0], |wire|)];
      var n := Min(sizes[0], |message|);
      ReadWithin(g, message, rest, sizes[0]);
      ReadAgreesIff(g, chunk);
      var g' := Run(g, chunk);
      RunProper(g, chunk);
      CompleteTail(g, message, n);
      assert message[..n] + message[n..] == message;
      RunAppend(g, message[..n], message[n..]);
      if n == |message| {
        SessionAfterDone(g', rest, sizes[1..]);
        assert message[n..] + rest == rest;
      } else {
        assert wire[|chunk|..] == message[n..] + rest;
        SessionReadsMessage(g', message[n..], rest, sizes[1..]);
      }
    }
  }

  lemma {:induction false} SessionAfterDone(g: Gny, wire: Bytes, sizes: seq<nat>)
    requires g.phase.Done?
    ensures Session(Reader(g, 0), wire, sizes) == (Reader(g, 0), wire)
    decreases |sizes|
  {
    if sizes != [] {
      assert wire[0..] == wire;
      SessionAfterDone(g, wire, sizes[1..]);
    }
  }

  // ----- wherever the stream is cut -----

  /** The same message but for the values of its fields. */
  predicate SameShape(a: Msg, b: Msg) {
    && SameStart(a, b) && a.stage == b.stage && a.entity == b.entity
    && SameNames(a.headers, b.headers) && SameNames(a.footers, b.footers)
  }

  predicate SameNames(a: seq<KeyValue>, b: seq<KeyValue>) {
    |a| == |b| && forall i :: 0 <= i < |a| ==> a[i].key == b[i].key
  }

  /** Two readers at the same place of a message; the values they have delivered may differ. */
  predicate SamePlace(a: Gny, b: Gny) {
    a.phase == b.phase && SameShape(a.msg, b.msg)
  }

  /** A skewed value moves nothing but the value, unless its remembered start is beyond the buffer. */
  lemma TakeKeepsPlace(r: Reader, g: Gny, ch: Octet, rest: Bytes)
    requires SamePlace(r.g, g)
    ensures var r' := Take(r, ch, rest); r'.g.phase.Undefined? || SamePlace(r'.g, Step(g, ch))
  {
    hide NameOf, Common.ReadShort, CStr, SameNames;
    var m, m' := r.g.msg, g.msg;
    var ph := r.g.phase;
    if ph.Value? && ch == NUL {
      var name := NameOf(ph.code, ph.key);
      var value := if InUnknownValue(ph) && r.skew <= |ph.acc + [NUL] + rest| then
        CStr((ph.acc + [NUL] + rest)[r.skew..]) else ph.acc;
      NamesExtended(m.headers, m'.headers, KeyValue(name, value), KeyValue(name, ph.acc));
      NamesExtended(m.footers, m'.footers, KeyValue(name, value), KeyValue(name, ph.acc));
      assert InUnknownValue(ph) ==> name == ph.key by { OwnKey(ph.key); }
    }
  }

  lemma OwnKey(key: Bytes)
    ensures NameOf(Http.HEADER_UNKNOWN, key) == key
  {}

  lemma NamesExtended(a: seq<KeyValue>, b: seq<KeyValue>, x: KeyValue, y: KeyValue)
    requires SameNames(a, b) && x.key == y.key
    ensures SameNames(a + [x], b + [y])
  {}

  lemma {:induction false} ScanKeepsPlace(r: Reader, g: Gny, chunk: Bytes)
    requires SamePlace(r.g, g)
    ensures var (r', n) := Scan(r, chunk);
      r'.g.phase.Undefined? ||
        (SamePlace(r'.g, Run(g, chunk)) && Run(g, chunk) == Run(g, chunk[..n]) && StopsAt(g, chunk, n))
    decreases |chunk|
  {
    hide Take, SameShape;
    var (r', n) := Scan(r, chunk);
    if chunk == [] {
      assert chunk[..n] == [];
    } else if Stopped(r.g) {
      RunStopped(g, chunk);
      assert chunk[..n] == [];
    } else {
      var r1, g1 := Take(r, chunk[0], chunk[1..]), Step(g, chunk[0]);
      TakeKeepsPlace(r, g, chunk[0], chunk[1..]);
      if !r1.g.phase.Undefined? {
        ScanKeepsPlace(r1, g1, chunk[1..]);
        assert chunk[..n][1..] == chunk[1..][..n-1];
        forall k | 0 <= k < n && !r'.g.phase.Undefined? ensures !Stopped(Run(g, chunk[..k])) {
          if k > 0 {
            assert chunk[..k][1..] == chunk[1..][..k-1];
          }
        }
      }
    }
  }

  /** One read, cut anywhere, of a stream that begins with a complete message. */
  lemma ReadKeepsPlace(r: Reader, g: Gny, message: Bytes, rest: Bytes, size: nat)
    requires SamePlace(r.g, g) && Complete(g, message)
    ensures var wire := message + rest;
      var (r', k) := AfterRead(r, wire[..Min(size, |wire|)]);
      var n := Min(size, |message|);
      r'.g.phase.Undefined? ||
        (k == n && SamePlace(r'.g, Run(g, message[..n])) && wire[n..] == message[n..] + rest)
  {
    hide Scan, SamePlace, Run;
    var wire := message + rest;
    var chunk := wire[..Min(size, |wire|)];
    var n := Min(size, |message|);
    ScanKeepsPlace(r, g, chunk);
    var k := AfterRead(r, chunk).1;
    assert chunk[..n] == message[..n];
    assert message[..|message|] == message;
    var j := Min(k, n);
    assert chunk[..j] == message[..j];
    assert chunk[..|chunk|] == chunk;
  }

  /** Exact consumption under any fragmentation: reads that together reach the end of a message, cut
      wherever they may be, take from the stream its bytes and no other and leave the reader at the
      end of the message, which has all its parts but perhaps not all its values; unless a
      remembered start has run beyond the buffer. */
  lemma {:induction false} SessionKeepsPlace(r: Reader, g: Gny, message: Bytes, rest: Bytes, sizes: seq<nat>)
    requires SamePlace(r.g, g) && Complete(g, message) && Total(sizes) >= |message|
    ensures var (r', left) := Session(r, message + rest, sizes);
      r'.g.phase.Undefined? || (left == rest && SamePlace(r'.g, Run(g, message)))
    decreases |sizes|
  {
    hide SameShape, AfterRead;
    var wire := message + rest;
    if message == [] {
      StoppedStays(r, rest, sizes);
      assert wire == rest;
    } else {
      var n := Min(sizes[0], |message|);
      var (r1, k) := AfterRead(r, wire[..Min(sizes[0], |wire|)]);
      ReadKeepsPlace(r, g, message, rest, sizes[0]);
      if r1.g.phase.Undefined? {
        StoppedStays(r1, wire[k..], sizes[1..]);
      } else {
        CompleteTail(g, message, n);
        assert message[..n] + message[n..] == message;
        RunAppend(g, message[..n], message[n..]);
        SessionKeepsPlace(r1, Run(g, message[..n]), message[n..], rest, sizes[1..]);
      }
    }
  }

  lemma {:induction false} StoppedStays(r: Reader, wire: Bytes, sizes: seq<nat>)
    requires Stopped(r.g)
    ensures Session(r, wire, sizes) == (r, wire)
    decreases |sizes|
  {
    if sizes != [] {
      assert wire[0..] == wire;
      StoppedStays(r, wire, sizes[1..]);
    }
  }

  // ----- several messages one after the other -----

  /** A fresh reader for each message, one after the other on the same stream. */
  function Sessions(isRequest: bool, wire: Bytes, sizes: seq<seq<nat>>): (res: (seq<Msg>, Bytes))
    decreases |sizes|
  {
    if sizes == [] then ([], wire)
    else
      var (r, wire1) := Session(Reader(Initial(isRequest), 0), wire, sizes[0]);
      var (ms, wire2) := Sessions(isRequest, wire1, sizes[1..]);
      ([r.g.msg] + ms, wire2)
  }

  ghost predicate AllClean(isRequest: bool, messages: seq<Bytes>, sizes: seq<seq<nat>>, rest: Bytes)
    requires |messages| == |sizes|
    decreases |messages|
  {
    if messages == [] then true
    else
      && Complete(Initial(isRequest), messages[0])
      && CleanCuts(Initial(isRequest), Concat(messages) + rest, sizes[0])
      && Total(sizes[0]) >= |messages[0]|
      && AllClean(isRequest, messages[1..], sizes[1..], rest)
  }

  /** No reader finds a remembered start beyond its buffer. */
  predicate NoneLost(isRequest: bool, wire: Bytes, sizes: seq<seq<nat>>)
    decreases |sizes|
  {
    || sizes == []
    || (var (r, wire1) := Session(Reader(Initial(isRequest), 0), wire, sizes[0]);
        !r.g.phase.Undefined? && NoneLost(isRequest, wire1, sizes[1..]))
  }

  /** Wherever the stream is cut, successive fresh readers divide it into its messages: none takes a
      byte of another, and each message has all its parts but perhaps not all its values. */
  lemma {:induction false} SessionsKeepPlace(
    isRequest: bool, messages: seq<Bytes>, sizes: seq<seq<nat>>, rest: Bytes)
    requires |messages| == |sizes|
    requires forall i :: 0 <= i < |messages| ==>
      Complete(Initial(isRequest), messages[i]) && Total(sizes[i]) >= |messages[i]|
    requires NoneLost(isRequest, Concat(messages) + rest, sizes)
    ensures var (ms, left) := Sessions(isRequest, Concat(messages) + rest, sizes);
      && left == rest
      && |ms| == |messages|
      && forall i :: 0 <= i < |ms| ==> SameShape(ms[i], Run(Initial(isRequest), messages[i]).msg)
    decreases |messages|
  {
    hide Run, Initial, Complete, Total, SameShape, Session;
    if messages == [] {
      assert Concat(messages) + rest == rest;
    } else {
      var g, after := Initial(isRequest), Concat(messages[1..]) + rest;
      assert Concat(messages) + rest == messages[0] + after;
      SameAsItself(g);
      SessionKeepsPlace(Reader(g, 0), g, messages[0], after, sizes[0]);
      SessionsKeepPlace(isRequest, messages[1..], sizes[1..], rest);
    }
  }

  lemma SameAsItself(g: Gny)
    ensures SamePlace(g, g)
  {}

  /** Successive fresh readers recover the messages of a stream in order, with nothing lost and
      nothing read twice. */
  lemma {:induction false} SessionsRecoverAll(
    isRequest: bool, messages: seq<Bytes>, sizes: seq<seq<nat>>, rest: Bytes)
    requires |messages| == |sizes|
    requires AllClean(isRequest, messages, sizes, rest)
    ensures var (ms, left) := Sessions(isRequest, Concat(messages) + rest, sizes);
      && left == rest
      && |ms| == |messages|
      && forall i :: 0 <= i < |ms| ==> ms[i] == Run(Initial(isRequest), messages[i]).msg
    decreases |messages|
  {
    if messages == [] {
      assert Concat(messages) + rest == rest;
    } else {
      var after := Concat(messages[1..]) + rest;
      assert Concat(messages) + rest == messages[0] + after;
      SessionReadsMessage(Initial(isRequest), messages[0], after, sizes[0]);
      SessionsRecoverAll(isRequest, messages[1..], sizes[1..], rest);
    }
  }

  // ----- the class -----

  const MAX_READ_SIZE: nat := 0x1_0000

  datatype State =
    | INITVERB | INITURL | INITSTATUS | HEADERSTART | HEADERKEY | HEADERVALUE
    | ENTITYSTART | ENTITYDATA | FINISHED
    | UNDEFINED  // the program's behaviour is not defined from here on

  /** How the fields stand for the reader's state once the bytes `seen` of the buffer have been
      looked at; `added` is everything put into the message so far. */
  predicate Stands(seen: Bytes, pos: nat, state: State, substate: nat, key: nat, added: Msg, r: Reader) {
    && pos <= |seen|
    && r.g.msg == (if state == ENTITYDATA then added.(entity := added.entity + seen[pos..]) else added)
    && match r.g.phase
       case Verb => state == INITVERB && pos == |seen|
       case Url(acc) => state == INITURL && seen[pos..] == acc
       case Status(acc) => state == INITSTATUS && seen[pos..] == acc
       case Start => state == HEADERSTART && pos == |seen|
       case Key(acc) => state == HEADERKEY && key == Http.HEADER_UNKNOWN && seen[pos..] == acc
       case Value(code, k, acc) =>
         && state == HEADERVALUE && key == code
         && (if code == Http.HEADER_UNKNOWN then
               seen[pos..] == k + [NUL] + acc && substate == pos + |k| + 1 + r.skew
             else seen[pos..] == acc)
       case Size(acc) => state == ENTITYSTART && seen[pos..] == acc
       case Data(left) => state == ENTITYDATA && substate == left
       case Done => state == FINISHED
       case Undefined => state == UNDEFINED
  }

  lemma TakeProper(r: Reader, ch: Octet, rest: Bytes)
    requires Proper(r.g)
    ensures Proper(Take(r, ch, rest).g)
  {
    StepProper(r.g, ch);
  }

  lemma CStrField(buffer: Bytes, field: Bytes, rest: Bytes)
    requires NulFree(field) && buffer == field + [NUL] + rest
    ensures CStr(buffer) == field
  {
    CStrStops(field, rest);
  }

  // how the fields stand between reads

  lemma BufferAtRest(seen: Bytes, state: State, substate: nat, key: nat, added: Msg, r: Reader)
    requires Stands(seen, 0, state, substate, key, added, r) && !Stopped(r.g)
    requires state == ENTITYDATA ==> seen == []
    ensures |seen| == Buffered(r.g.phase)
  {}

  lemma StandsBounds(
    seen: Bytes, pos: nat, state: State, substate: nat, key: nat, added: Msg, r: Reader)
    requires Stands(seen, pos, state, substate, key, added, r)
    ensures pos <= |seen|
    ensures Stopped(r.g) <==> state == FINISHED || state == UNDEFINED
  {}

  lemma UnknownValueRuns(r: Reader, chunk: Bytes)
    ensures InUnknownValue(Scan(r, chunk).0.g.phase) ==> !Stopped(Scan(r, chunk).0.g) && !Stopped(r.g)
  {}

  lemma UnknownValueHeld(
    seen: Bytes, pos: nat, state: State, substate: nat, key: nat, added: Msg, r: Reader)
    requires Stands(seen, pos, state, substate, key, added, r) && InUnknownValue(r.g.phase)
    ensures |seen| - pos == Buffered(r.g.phase)
  {}

  lemma StandsFlushed(seen: Bytes, pos: nat, substate: nat, key: nat, added: Msg, r: Reader)
    requires Stands(seen, pos, ENTITYDATA, substate, key, added, r)
    ensures Stands([], 0, ENTITYDATA, substate, key, added.(entity := added.entity + seen[pos..]), r)
    ensures forall n :: Rebased(r, n) == r
    ensures Proper(r.g) ==> added.stage == ENTITY
  {
    assert added.entity + seen[pos..] + [] == added.entity + seen[pos..];
  }

  lemma StandsRebased(
    seen: Bytes, pos: nat, state: State, substate: nat, key: nat, added: Msg, r: Reader)
    requires Stands(seen, pos, state, substate, key, added, r) && state != ENTITYDATA
    ensures Stands(seen[pos..], 0, state, substate, key, added, Rebased(r, pos))
  {}

  lemma StandsBeyond(
    seen: Bytes, pos: nat, state: State, substate: nat, key: nat, added: Msg, r: Reader, more: Bytes)
    requires Stands(seen, pos, state, substate, key, added, r) && Stopped(r.g)
    ensures Stands(seen + more, pos, state, substate, key, added, r)
  {}

  class MessageSourceGny {
    const msg: HttpMessage
    var dataStream: Bytes
    var pos: nat
    var state: State
    var substate: nat
    var key: nat

    // the state these fields stand for
    ghost var reader: Reader

    constructor (message: HttpMessage)
      requires message.Valid() && message.added == Blank(message.isRequest)
      ensures msg == message && Valid() && reader == Reader(Initial(message.isRequest), 0)
    {
      msg := message;
      dataStream := [];
      pos, substate := 0, 0;
      key := Http.HEADER_UNKNOWN;
      state := if message.isRequest then INITVERB else INITSTATUS;
      reader := Reader(Initial(message.isRequest), 0);
    }

    ghost predicate Standing(seen: Bytes)
      reads this, msg
    {
      && msg.Valid()
      && Proper(reader.g)
      && Stands(seen, pos, state, substate, key, msg.added, reader)
    }

    /** Between reads the buffer starts at position 0 and holds no entity bytes: whatever entity
        has been seen has been delivered. */
    ghost predicate Valid()
      reads this, msg
    {
      Standing(dataStream) && pos == 0 && (state == ENTITYDATA ==> dataStream == [])
    }

    /** The body of the read loop: one byte of the buffer, with what follows it in view. */
    method Accept(i: nat)
      requires i < |dataStream|
      requires Standing(dataStream[..i]) && !Stopped(reader.g)
      modifies this, msg
      ensures dataStream == old(dataStream)
      ensures Standing(dataStream[..i+1])
      ensures reader == Take(old(reader), dataStream[i], dataStream[i+1..])
    {
      hide Stands, Take, Proper, Backlog;
      StandsBounds(dataStream[..i], pos, state, substate, key, msg.added, reader);
      match state
      case INITVERB | INITURL | INITSTATUS => AcceptStart(i);
      case HEADERSTART | HEADERKEY | HEADERVALUE => AcceptHeader(i);
      case ENTITYSTART | ENTITYDATA => AcceptEntity(i);
    }

    method AcceptStart(i: nat)
      requires i < |dataStream|
      requires Standing(dataStream[..i]) && !Stopped(reader.g)
      requires state == INITVERB || state == INITURL || state == INITSTATUS
      modifies this, msg
      ensures dataStream == old(dataStream)
      ensures Standing(dataStream[..i+1])
      ensures reader == Take(old(reader), dataStream[i], dataStream[i+1..])
    {
      hide Stands, Take, Proper, Backlog;
      match state
      case INITVERB => AcceptVerb(i);
      case INITURL => AcceptUrl(i);
      case INITSTATUS => AcceptStatus(i);
    }

    method AcceptVerb(i: nat)
      requires i < |dataStream| && state == INITVERB
      requires Standing(dataStream[..i]) && !Stopped(reader.g)
      modifies this, msg
      ensures dataStream == old(dataStream)
      ensures Standing(dataStream[..i+1])
      ensures reader == Take(old(reader), dataStream[i], dataStream[i+1..])
    {
      hide Http.HeaderToA, Backlog, Http.AToHeader, StartStep, NameOf, Deliver, CStr;
      var ch := dataStream[i];
      TakeProper(reader, ch, dataStream[i+1..]);
      reader := Take(reader, ch, dataStream[i+1..]);
      msg.SetVerb(ch as int);
      state := INITURL;
      pos := i + 1;
    }

    method AcceptUrl(i: nat)
      requires i < |dataStream| && state == INITURL
      requires Standing(dataStream[..i]) && !Stopped(reader.g)
      modifies this, msg
      ensures dataStream == old(dataStream)
      ensures Standing(dataStream[..i+1])
      ensures reader == Take(old(reader), dataStream[i], dataStream[i+1..])
    {
      hide Http.HeaderToA, Backlog, Http.AToHeader, StartStep, NameOf, Deliver, CStr;
      var ch := dataStream[i];
      ghost var rest := dataStream[i+1..];
      ghost var ph := reader.g.phase;
      SplitAt(dataStream, pos, i);
      TakeProper(reader, ch, rest);
      reader := Take(reader, ch, rest);
      if ch == NUL {
        CStrField(dataStream[pos..], ph.acc, rest);
        msg.SetUrl(CStr(dataStream[pos..]));
        state := HEADERSTART;
        pos := i + 1;
      }
    }

    method AcceptStatus(i: nat)
      requires i < |dataStream| && state == INITSTATUS
      requires Standing(dataStream[..i]) && !Stopped(reader.g)
      modifies this, msg
      ensures dataStream == old(dataStream)
      ensures Standing(dataStream[..i+1])
      ensures reader == Take(old(reader), dataStream[i], dataStream[i+1..])
    {
      hide Http.HeaderToA, Backlog, Http.AToHeader, StartStep, NameOf, Deliver, CStr;
      var ch := dataStream[i];
      SplitAt(dataStream, pos, i);
      TakeProper(reader, ch, dataStream[i+1..]);
      reader := Take(reader, ch, dataStream[i+1..]);
      if pos + 1 == i {
        msg.SetStatus(Common.ReadShort(dataStream[pos], dataStream[pos+1]));
        state := HEADERSTART;
        pos := i + 1;
      }
    }

    method AcceptHeader(i: nat)
      requires i < |dataStream|
      requires Standing(dataStream[..i]) && !Stopped(reader.g)
      requires state == HEADERSTART || state == HEADERKEY || state == HEADERVALUE
      modifies this, msg
      ensures dataStream == old(dataStream)
      ensures Standing(dataStream[..i+1])
      ensures reader == Take(old(reader), dataStream[i], dataStream[i+1..])
    {
      hide Stands, Take, Proper, Backlog;
      match state
      case HEADERSTART => AcceptField(i);
      case HEADERKEY => AcceptKey(i);
      case HEADERVALUE => AcceptValue(i);
    }

    method AcceptField(i: nat)
      requires i < |dataStream| && state == HEADERSTART
      requires Standing(dataStream[..i]) && !Stopped(reader.g)
      modifies this, msg
      ensures dataStream == old(dataStream)
      ensures Standing(dataStream[..i+1])
      ensures reader == Take(old(reader), dataStream[i], dataStream[i+1..])
    {
      hide Http.HeaderToA, Backlog, Http.AToHeader, Deliver, CStr;
      var ch := dataStream[i];
      SplitAt(dataStream, pos, i);
      TakeProper(reader, ch, dataStream[i+1..]);
      reader := Take(reader, ch, dataStream[i+1..]);
      AcceptFlag(ch as int);
      pos := i + 1;
    }

    method AcceptKey(i: nat)
      requires i < |dataStream| && state == HEADERKEY
      requires Standing(dataStream[..i]) && !Stopped(reader.g)
      modifies this, msg
      ensures dataStream == old(dataStream)
      ensures Standing(dataStream[..i+1])
      ensures reader == Take(old(reader), dataStream[i], dataStream[i+1..])
    {
      hide Http.HeaderToA, Backlog, Http.AToHeader, StartStep, NameOf, Deliver, CStr;
      var ch := dataStream[i];
      SplitAt(dataStream, pos, i);
      TakeProper(reader, ch, dataStream[i+1..]);
      reader := Take(reader, ch, dataStream[i+1..]);
      if ch == NUL {
        state := HEADERVALUE;
        substate := i + 1;
      }
    }

    method AcceptValue(i: nat)
      requires i < |dataStream|
      requires Standing(dataStream[..i]) && !Stopped(reader.g)
      requires state == HEADERVALUE
      modifies this, msg
      ensures dataStream == old(dataStream)
      ensures Standing(dataStream[..i+1])
      ensures reader == Take(old(reader), dataStream[i], dataStream[i+1..])
    {
      hide Http.HeaderToA, Backlog, Http.AToHeader, StartStep, CStr;
      var ch := dataStream[i];
      ghost var rest := dataStream[i+1..];
      ghost var ph := reader.g.phase;
      SplitAt(dataStream, pos, i);
      TakeProper(reader, ch, rest);
      reader := Take(reader, ch, rest);
      if ch == NUL {
        if key == Http.HEADER_UNKNOWN {
          AcceptUnknownEnd(old(reader), rest);
        } else {
          CStrField(dataStream[pos..], ph.acc, rest);
          AddPair(Http.HeaderToA(key), CStr(dataStream[pos..]));
          state := HEADERSTART;
        }
        pos := i + 1;
      }
    }

    method AcceptEntity(i: nat)
      requires i < |dataStream|
      requires Standing(dataStream[..i]) && !Stopped(reader.g)
      requires state == ENTITYSTART || state == ENTITYDATA
      modifies this, msg
      ensures dataStream == old(dataStream)
      ensures Standing(dataStream[..i+1])
      ensures reader == Take(old(reader), dataStream[i], dataStream[i+1..])
    {
      hide Stands, Take, Proper, Backlog;
      match state
      case ENTITYSTART => AcceptSize(i);
      case ENTITYDATA => AcceptData(i);
    }

    method AcceptSize(i: nat)
      requires i < |dataStream| && state == ENTITYSTART
      requires Standing(dataStream[..i]) && !Stopped(reader.g)
      modifies this, msg
      ensures dataStream == old(dataStream)
      ensures Standing(dataStream[..i+1])
      ensures reader == Take(old(reader), dataStream[i], dataStream[i+1..])
    {
      hide Http.HeaderToA, Backlog, Http.AToHeader, StartStep, NameOf, Deliver, CStr;
      var ch := dataStream[i];
      SplitAt(dataStream, pos, i);
      TakeProper(reader, ch, dataStream[i+1..]);
      reader := Take(reader, ch, dataStream[i+1..]);
      if pos + 1 == i {
        var size := Common.ReadShort(dataStream[pos], dataStream[pos+1]);
        substate := size;
        pos := i + 1;
        if size != 0 {
          state := ENTITYDATA;
        } else {
          state := HEADERSTART;
          msg.EndEntity();
        }
      }
    }

    method AcceptData(i: nat)
      requires i < |dataStream| && state == ENTITYDATA
      requires Standing(dataStream[..i]) && !Stopped(reader.g)
      modifies this, msg
      ensures dataStream == old(dataStream)
      ensures Standing(dataStream[..i+1])
      ensures reader == Take(old(reader), dataStream[i], dataStream[i+1..])
    {
      hide Http.HeaderToA, Backlog, Http.AToHeader, StartStep, NameOf, Deliver, CStr;
      SplitAt(dataStream, pos, i);
      TakeProper(reader, dataStream[i], dataStream[i+1..]);
      reader := Take(reader, dataStream[i], dataStream[i+1..]);
      substate := substate - 1;
      if substate == 0 {
        assert dataStream[..i+1][pos..] == dataStream[pos..i+1];
        msg.AppendEntity(dataStream[pos..i+1]);
        pos := i + 1;
        state := ENTITYSTART;
      }
    }

    /** The end of the value of a header whose name is not in the table. */
    method AcceptUnknownEnd(ghost r: Reader, ghost rest: Bytes)
      requires msg.Valid() && Proper(r.g) && InUnknownValue(r.g.phase)
      requires msg.added == r.g.msg
      requires pos <= |dataStream|
      requires dataStream[pos..] == r.g.phase.key + [NUL] + r.g.phase.acc + [NUL] + rest
      requires substate == pos + |r.g.phase.key| + 1 + r.skew
      modifies msg, this`state
      ensures msg.Valid()
      ensures var g := Take(r, NUL, rest).g;
        && msg.added == g.msg
        && state == if g.phase.Start? then HEADERSTART else UNDEFINED
    {
      hide Backlog;
      ghost var ph := r.g.phase;
      ghost var view := ph.acc + [NUL] + rest;
      assert dataStream[pos..] == ph.key + [NUL] + view;
      CStrField(dataStream[pos..], ph.key, view);
      assert dataStream[pos..][|ph.key| + 1..] == view;
      assert dataStream[pos + |ph.key| + 1..] == view;
      if substate <= |dataStream| {
        assert dataStream[substate..] == view[r.skew..];
        AddPair(CStr(dataStream[pos..]), CStr(dataStream[substate..]));
        state := HEADERSTART;
      } else {
        state := UNDEFINED;
      }
    }

    method AcceptFlag(flag: nat)
      requires msg.Valid() && (msg.state == HEADER || msg.state == FOOTER)
      modifies this, msg
      ensures msg.Valid()
      ensures dataStream == old(dataStream) && reader == old(reader) && pos == old(pos)
      ensures key == flag
      ensures var g := StartStep(old(msg.added), flag);
        && msg.added == g.msg
        && state == (match g.phase
                     case Size(_) => ENTITYSTART
                     case Done => FINISHED
                     case Key(_) => HEADERKEY
                     case Value(_, _, _) => HEADERVALUE
                     case _ => UNDEFINED)
    {
      key := flag;
      if key == Http.HEADER_END {
        if msg.state == HEADER {
          msg.EndHeader();
          state := ENTITYSTART;
        } else {
          msg.EndFooter();
          state := FINISHED;
        }
      } else if key == Http.HEADER_UNKNOWN {
        state := HEADERKEY;
      } else if key < Http.HEADER_UNKNOWN {
        state := HEADERVALUE;
      } else {
        state := UNDEFINED;
      }
    }

    method AddPair(name: Bytes, value: Bytes)
      requires msg.Valid() && (msg.state == HEADER || msg.state == FOOTER)
      modifies msg
      ensures msg.Valid() && msg.added == Deliver(old(msg.added), name, value)
    {
      if msg.state == HEADER {
        msg.AddHeader(name, value);
      } else {
        msg.AddFooter(name, value);
      }
    }

    /** One readiness event: peek at a chunk, take it in byte by byte, consume what belongs to
        the message and rebase the buffer. */
    method Read(s: Socket, maxRead: nat) returns (recvAmt: nat, ghost chunk: Bytes)
      requires Valid()
      modifies this, msg, s`incoming
      ensures Valid()
      ensures chunk <= old(s.incoming) && |chunk| <= Min(maxRead, MAX_READ_SIZE)
      ensures old(s.incoming) != [] && maxRead > 0 ==> chunk != []
      ensures (reader, recvAmt) == AfterRead(old(reader), chunk)
      ensures s.incoming == old(s.incoming)[recvAmt..]
    {
      hide Take, Step, Backlog, Scan, Proper, Stands, Stopped, InUnknownValue, Buffered;
      var rbuf := s.Peek(Min(maxRead, MAX_READ_SIZE));
      chunk := rbuf;
      recvAmt := |rbuf|;
      if rbuf == [] {
        NothingScanned(reader);
        return;
      }
      ghost var start, held := reader, |dataStream|;
      if !Stopped(start.g) {
        BufferAtRest(dataStream, state, substate, key, msg.added, reader);
      }
      assert (dataStream + rbuf)[..held] == dataStream;
      dataStream := dataStream + rbuf;
      assert rbuf == dataStream[held..];
      var i := ScanBuffer(|dataStream| - recvAmt);
      UnknownValueRuns(start, rbuf);
      assert dataStream[..|dataStream|] == dataStream;
      if i < |dataStream| {
        assert dataStream == dataStream[..i] + dataStream[i..];
        StandsBeyond(dataStream[..i], pos, state, substate, key, msg.added, reader, dataStream[i..]);
      }
      assert Standing(dataStream);
      StandsBounds(dataStream, pos, state, substate, key, msg.added, reader);
      recvAmt := recvAmt - (|dataStream| - i);
      s.Take(recvAmt);
      if InUnknownValue(reader.g.phase) {
        UnknownValueHeld(dataStream, pos, state, substate, key, msg.added, reader);
      }
      Settle();
    }

    /** After the read loop: deliver the entity bytes seen and drop what is no longer needed
        from the front of the buffer. */
    method Settle()
      requires Standing(dataStream)
      modifies this, msg
      ensures Valid()
      ensures reader == Rebased(old(reader), old(pos))
    {
      hide Proper, Stands, InUnknownValue, Backlog;
      StandsBounds(dataStream, pos, state, substate, key, msg.added, reader);
      if state == ENTITYDATA {
        StandsFlushed(dataStream, pos, substate, key, msg.added, reader);
        msg.AppendEntity(dataStream[pos..]);
        reader := Rebased(reader, pos);
        pos := |dataStream|;
        assert dataStream[pos..] == [];
      } else {
        StandsRebased(dataStream, pos, state, substate, key, msg.added, reader);
        reader := Rebased(reader, pos);
      }
      assert Stands(dataStream[pos..], 0, state, substate, key, msg.added, reader) && Proper(reader.g);
      assert dataStream[0..] == dataStream;
      if pos > 0 {
        dataStream := dataStream[pos..];
        pos := 0;
      }
    }

    /** The read loop, from the first byte of the buffer not looked at before. */
    method ScanBuffer(from: nat) returns (i: nat)
      requires from <= |dataStream| && Standing(dataStream[..from])
      modifies this, msg
      ensures from <= i <= |dataStream| && dataStream == old(dataStream)
      ensures Standing(dataStream[..i])
      ensures Scan(old(reader), dataStream[from..]) == (reader, i - from)
      ensures i < |dataStream| ==> Stopped(reader.g)
    {
      hide Take, Step, Backlog, Proper, Stands, Stopped, Scan;
      i := from;
      StandsBounds(dataStream[..i], pos, state, substate, key, msg.added, reader);
      while state != FINISHED && state != UNDEFINED && i < |dataStream|
        invariant from <= i <= |dataStream| && dataStream == old(dataStream)
        invariant Standing(dataStream[..i])
        invariant Stopped(reader.g) <==> state == FINISHED || state == UNDEFINED
        invariant var (r, n) := Scan(reader, dataStream[i..]);
          Scan(old(reader), dataStream[from..]) == (r, n + (i - from))
      {
        assert dataStream[i..][1..] == dataStream[i+1..];
        ScanOne(reader, dataStream[i..]);
        Accept(i);
        i := i + 1;
        StandsBounds(dataStream[..i], pos, state, substate, key, msg.added, reader);
      }
      ScanNone(reader, dataStream[i..]);
    }
  }

  /** The buffer from one place on, seen from a byte in it. */
  lemma SplitAt(buffer: Bytes, pos: nat, i: nat)
    requires pos <= i < |buffer|
    ensures buffer[pos..] == buffer[..i][pos..] + [buffer[i]] + buffer[i+1..]
    ensures buffer[..i+1][pos..] == buffer[..i][pos..] + [buffer[i]]
  {}

  lemma ScanOne(r: Reader, chunk: Bytes)
    requires chunk != [] && !Stopped(r.g)
    ensures var (r', n) := Scan(Take(r, chunk[0], chunk[1..]), chunk[1..]);
      Scan(r, chunk) == (r', n + 1)
  {}

  lemma ScanNone(r: Reader, chunk: Bytes)
    requires chunk == [] || Stopped(r.g)
    ensures Scan(r, chunk) == (r, 0)
  {}

  lemma NothingScanned(r: Reader)
    ensures AfterRead(r, []) == (r, 0)
  {}
}
