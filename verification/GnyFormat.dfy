/** The GNY message format: a parser that takes one byte at a time and keeps no buffer, and
    the encoding of each part of a message, with the lemmas that make them inverse. */
module GnyFormat {
  import opened Octets
  import opened Messages
  import Common
  import Http

  /** Where the parser stands; the byte strings are the part of the current field read so far. */
  datatype Phase =
    | Verb
    | Url(acc: Bytes)
    | Status(acc: Bytes)
    | Start
    | Key(acc: Bytes)
    | Value(code: nat, key: Bytes, acc: Bytes)
    | Size(acc: Bytes)
    | Data(left: nat)
    | Done
    | Undefined  // a header code beyond the table was looked up, or a read left the buffer

  datatype Gny = Gny(phase: Phase, msg: Msg)

  function Initial(isRequest: bool): (g: Gny) {
    Gny(if isRequest then Verb else Status([]), Blank(isRequest))
  }

  predicate Stopped(g: Gny) {
    g.phase.Done? || g.phase.Undefined?
  }

  /** A header or a footer, depending on the stage the message is in. */
  function Deliver(m: Msg, key: Bytes, value: Bytes): (r: Msg) {
    if m.stage == HEADER then m.(headers := m.headers + [KeyValue(key, value)])
    else m.(footers := m.footers + [KeyValue(key, value)])
  }

  function StartStep(m: Msg, code: nat): (g: Gny) {
    if code == Http.HEADER_END then
      (if m.stage == HEADER then Gny(Size([]), m.(stage := ENTITY))
       else Gny(Done, m.(stage := DONE)))
    else if code == Http.HEADER_UNKNOWN then Gny(Key([]), m)
    else if code < Http.HEADER_UNKNOWN then Gny(Value(code, [], []), m)
    else Gny(Undefined, m)
  }

  function NameOf(code: nat, key: Bytes): (name: Bytes) {
    if code < Http.HEADER_UNKNOWN then Http.HeaderToA(code) else key
  }

  function Step(g: Gny, ch: Octet): (r: Gny) {
    var m := g.msg;
    match g.phase
    case Verb => Gny(Url([]), m.(verb := ch as int))
    case Url(acc) => if ch == NUL then Gny(Start, m.(url := acc)) else Gny(Url(acc + [ch]), m)
    case Status(acc) =>
      if |acc| == 1 then Gny(Start, m.(status := Common.ReadShort(acc[0], ch)))
      else Gny(Status(acc + [ch]), m)
    case Start => StartStep(m, ch as int)
    case Key(acc) =>
      if ch == NUL then Gny(Value(Http.HEADER_UNKNOWN, acc, []), m) else Gny(Key(acc + [ch]), m)
    case Value(code, key, acc) =>
      if ch == NUL then Gny(Start, Deliver(m, NameOf(code, key), acc))
      else Gny(Value(code, key, acc + [ch]), m)
    case Size(acc) =>
      if |acc| == 1 then
        var n := Common.ReadShort(acc[0], ch);
        if n > 0 then Gny(Data(n), m) else Gny(Start, m.(stage := FOOTER))
      else Gny(Size(acc + [ch]), m)
    case Data(left) =>
      Gny(if left <= 1 then Size([]) else Data(left - 1), m.(entity := m.entity + [ch]))
    case Done => g
    case Undefined => g
  }

  function Run(g: Gny, bs: Bytes): (r: Gny)
    decreases |bs|
  {
    if bs == [] then g else Run(Step(g, bs[0]), bs[1..])
  }

  lemma {:induction false} RunAppend(g: Gny, a: Bytes, b: Bytes)
    ensures Run(g, a + b) == Run(Run(g, a), b)
    decreases |a|
  {
    if a == [] {
      assert a + b == b;
    } else {
      assert (a + b)[1..] == a[1..] + b;
      RunAppend(Step(g, a[0]), a[1..], b);
    }
  }

  lemma {:induction false} RunStopped(g: Gny, bs: Bytes)
    requires Stopped(g)
    ensures Run(g, bs) == g
    decreases |bs|
  {
    if bs != [] {
      RunStopped(g, bs[1..]);
    }
  }

  lemma RunFlag(g: Gny, flag: Octet)
    ensures Run(g, [flag]) == Step(g, flag)
  {
    assert Run(Step(g, flag), [flag][1..]) == Step(g, flag);
  }

  // ----- reachable parser states -----

  /** What holds of every parser state reached from an initial one. */
  predicate Proper(g: Gny) {
    match g.phase
    case Verb => g.msg == Blank(true)
    case Url(acc) => NulFree(acc) && g.msg.stage == HEADER
    case Status(acc) => g.msg.stage == HEADER && |acc| <= 1
    case Start => g.msg.stage == HEADER || g.msg.stage == FOOTER
    case Key(acc) => NulFree(acc) && (g.msg.stage == HEADER || g.msg.stage == FOOTER)
    case Value(code, key, acc) =>
      && NulFree(acc) && NulFree(key) && code <= Http.HEADER_UNKNOWN
      && (g.msg.stage == HEADER || g.msg.stage == FOOTER)
      && (code != Http.HEADER_UNKNOWN ==> key == [])
    case Size(acc) => g.msg.stage == ENTITY && |acc| <= 1
    case Data(left) => g.msg.stage == ENTITY && 0 < left < 0x1_0000
    case Done => g.msg.stage == DONE
    case Undefined => true
  }

  lemma StepProper(g: Gny, ch: Octet)
    requires Proper(g)
    ensures Proper(Step(g, ch))
  {}

  lemma {:induction false} RunProper(g: Gny, bs: Bytes)
    requires Proper(g)
    ensures Proper(Run(g, bs))
    decreases |bs|
  {
    if bs != [] {
      StepProper(g, bs[0]);
      RunProper(Step(g, bs[0]), bs[1..]);
    }
  }

  // ----- encodings -----

  function EncodePair(kv: KeyValue): (r: Bytes)
    ensures r != []
  {
    var code := Http.AToHeader(kv.key);
    [Byte(code)]
    + (if code == Http.HEADER_UNKNOWN then Common.WriteString(kv.key) else [])
    + Common.WriteString(kv.value)
  }

  /** A name in the table goes out as its code, any other spelled out; a terminator ends each string. */
  lemma PairLength(kv: KeyValue)
    ensures var code, text := Http.AToHeader(kv.key), EncodePair(kv);
      && text[0] as int == code
      && |text| == 2 + |kv.value| + (if code == Http.HEADER_UNKNOWN then |kv.key| + 1 else 0)
  {
    hide Http.AToHeader;
  }

  function EncodePairs(kvs: seq<KeyValue>): (r: Bytes) {
    if kvs == [] then [] else EncodePair(kvs[0]) + EncodePairs(kvs[1..])
  }

  const CHUNK_MAX: nat := 0xFFFF

  /** The entity cut into chunks of at most 65535 bytes, each behind its size. */
  function EncodeChunks(e: Bytes): (r: Bytes)
    decreases |e|
  {
    if e == [] then []
    else
      var n := if |e| < CHUNK_MAX then |e| else CHUNK_MAX;
      Common.WriteShort(n) + e[..n] + EncodeChunks(e[n..])
  }

  function CanonPair(kv: KeyValue): (r: KeyValue) {
    KeyValue(Http.Canon(kv.key), kv.value)
  }

  function CanonPairs(kvs: seq<KeyValue>): (r: seq<KeyValue>)
    ensures |r| == |kvs|
    ensures forall i :: 0 <= i < |kvs| ==> r[i] == CanonPair(kvs[i])
  {
    seq(|kvs|, i requires 0 <= i < |kvs| => CanonPair(kvs[i]))
  }

  predicate PairSafe(kv: KeyValue) {
    NulFree(kv.key) && NulFree(kv.value)
  }

  predicate PairsSafe(kvs: seq<KeyValue>) {
    forall i :: 0 <= i < |kvs| ==> PairSafe(kvs[i])
  }

  // ----- decoding the encodings -----

  /** A NUL-free string is accumulated byte by byte. */
  lemma {:induction false} RunValue(code: nat, key: Bytes, acc: Bytes, m: Msg, s: Bytes)
    requires NulFree(s)
    ensures Run(Gny(Value(code, key, acc), m), s + [NUL])
         == Gny(Start, Deliver(m, NameOf(code, key), acc + s))
    decreases |s|
  {
    var g := Gny(Value(code, key, acc), m);
    if s == [] {
      assert s + [NUL] == [NUL];
      assert acc + s == acc;
      assert Run(Step(g, NUL), []) == Step(g, NUL);
    } else {
      assert (s + [NUL])[1..] == s[1..] + [NUL];
      assert acc + s == acc + [s[0]] + s[1..];
      RunValue(code, key, acc + [s[0]], m, s[1..]);
    }
  }

  lemma {:induction false} RunKey(acc: Bytes, m: Msg, s: Bytes)
    requires NulFree(s)
    ensures Run(Gny(Key(acc), m), s + [NUL]) == Gny(Value(Http.HEADER_UNKNOWN, acc + s, []), m)
    decreases |s|
  {
    var g := Gny(Key(acc), m);
    if s == [] {
      assert s + [NUL] == [NUL];
      assert acc + s == acc;
      assert Run(Step(g, NUL), []) == Step(g, NUL);
    } else {
      assert (s + [NUL])[1..] == s[1..] + [NUL];
      assert acc + s == acc + [s[0]] + s[1..];
      RunKey(acc + [s[0]], m, s[1..]);
    }
  }

  lemma {:induction false} RunUrl(acc: Bytes, m: Msg, s: Bytes)
    requires NulFree(s)
    ensures Run(Gny(Url(acc), m), s + [NUL]) == Gny(Start, m.(url := acc + s))
    decreases |s|
  {
    var g := Gny(Url(acc), m);
    if s == [] {
      assert s + [NUL] == [NUL];
      assert acc + s == acc;
      assert Run(Step(g, NUL), []) == Step(g, NUL);
    } else {
      assert (s + [NUL])[1..] == s[1..] + [NUL];
      assert acc + s == acc + [s[0]] + s[1..];
      RunUrl(acc + [s[0]], m, s[1..]);
    }
  }

  lemma RunPair(m: Msg, kv: KeyValue)
    requires PairSafe(kv)
    ensures Run(Gny(Start, m), EncodePair(kv))
         == Gny(Start, Deliver(m, Http.Canon(kv.key), kv.value))
  {
    hide Http.AToHeader;
    var code := Http.AToHeader(kv.key);
    var g := Gny(Start, m);
    var flag := [Byte(code)];
    assert Run(g, flag) == Step(g, flag[0]) by {
      assert Run(Step(g, flag[0]), flag[1..]) == Step(g, flag[0]);
    }
    var value := kv.value + [NUL];
    assert [] + kv.value == kv.value;
    assert [] + kv.key == kv.key;
    if code == Http.HEADER_UNKNOWN {
      var key := kv.key + [NUL];
      assert EncodePair(kv) == flag + key + value;
      RunAppend(g, flag + key, value);
      RunAppend(g, flag, key);
      RunKey([], m, kv.key);
      RunValue(code, kv.key, [], m, kv.value);
    } else {
      assert EncodePair(kv) == flag + value;
      RunAppend(g, flag, value);
      RunValue(code, [], [], m, kv.value);
    }
  }

  function DeliverAll(m: Msg, kvs: seq<KeyValue>): (r: Msg) {
    if m.stage == HEADER then m.(headers := m.headers + kvs) else m.(footers := m.footers + kvs)
  }

  lemma DeliverFirst(m: Msg, kv: KeyValue, rest: seq<KeyValue>)
    ensures DeliverAll(Deliver(m, kv.key, kv.value), rest) == DeliverAll(m, [kv] + rest)
  {
    assert m.headers + [kv] + rest == m.headers + ([kv] + rest);
    assert m.footers + [kv] + rest == m.footers + ([kv] + rest);
  }

  lemma {:induction false} RunPairs(m: Msg, kvs: seq<KeyValue>)
    requires PairsSafe(kvs)
    ensures Run(Gny(Start, m), EncodePairs(kvs)) == Gny(Start, DeliverAll(m, CanonPairs(kvs)))
    decreases |kvs|
  {
    if kvs == [] {
      assert CanonPairs(kvs) == [];
      assert DeliverAll(m, []) == m;
    } else {
      var first, rest := kvs[0], kvs[1..];
      var m' := Deliver(m, Http.Canon(first.key), first.value);
      RunPairs(m', rest);
      RunPair(m, first);
      DeliverFirst(m, CanonPair(first), CanonPairs(rest));
      CanonPairsFirst(kvs);
      RunAppend(Gny(Start, m), EncodePair(first), EncodePairs(rest));
    }
  }

  lemma CanonPairsFirst(kvs: seq<KeyValue>)
    requires kvs != []
    ensures CanonPairs(kvs) == [CanonPair(kvs[0])] + CanonPairs(kvs[1..])
  {
    hide CanonPair;
  }

  lemma {:induction false} RunData(m: Msg, left: nat, e: Bytes)
    requires 0 < |e| == left
    ensures Run(Gny(Data(left), m), e) == Gny(Size([]), m.(entity := m.entity + e))
    decreases left
  {
    var m' := m.(entity := m.entity + [e[0]]);
    assert m.entity + e == m.entity + [e[0]] + e[1..];
    if left == 1 {
      assert e[1..] == [];
    } else {
      RunData(m', left - 1, e[1..]);
    }
  }

  lemma RunSize(m: Msg, n: nat)
    requires n <= CHUNK_MAX
    ensures Run(Gny(Size([]), m), Common.WriteShort(n))
         == if n > 0 then Gny(Data(n), m) else Gny(Start, m.(stage := FOOTER))
  {
    var w := Common.WriteShort(n);
    Common.ShortRoundTrip(n);
    var g := Gny(Size([]), m);
    assert w[1..] == [w[1]] && w[1..][1..] == [];
    assert [] + [w[0]] == [w[0]];
    assert Run(Step(g, w[0]), w[1..]) == Step(Step(g, w[0]), w[1]) by {
      assert Run(Step(Step(g, w[0]), w[1]), []) == Step(Step(g, w[0]), w[1]);
    }
  }

  /** The chunks of an entity put the whole entity back. */
  lemma {:induction false} RunChunks(m: Msg, e: Bytes)
    ensures Run(Gny(Size([]), m), EncodeChunks(e)) == Gny(Size([]), m.(entity := m.entity + e))
    decreases |e|
  {
    if e == [] {
      assert m.entity + e == m.entity;
    } else {
      var n := if |e| < CHUNK_MAX then |e| else CHUNK_MAX;
      var g := Gny(Size([]), m);
      var m' := m.(entity := m.entity + e[..n]);
      RunAppend(g, Common.WriteShort(n) + e[..n], EncodeChunks(e[n..]));
      RunAppend(g, Common.WriteShort(n), e[..n]);
      RunSize(m, n);
      RunData(m, n, e[..n]);
      RunChunks(m', e[n..]);
      assert m.entity + e == m.entity + e[..n] + e[n..];
    }
  }

  /** Chunking costs two bytes for every 65535 bytes begun. */
  lemma {:induction false} ChunkOverhead(e: Bytes)
    ensures |EncodeChunks(e)| == |e| + 2 * ((|e| + CHUNK_MAX - 1) / CHUNK_MAX)
    decreases |e|
  {
    if e != [] {
      var n := if |e| < CHUNK_MAX then |e| else CHUNK_MAX;
      ChunkOverhead(e[n..]);
    }
  }

  // ----- which pairs survive -----

  /** Every string the parser delivers is NUL-free, and what it has delivered it keeps. */
  predicate Extends(before: Msg, after: Msg) {
    && before.headers <= after.headers
    && before.entity <= after.entity
    && before.footers <= after.footers
    && (forall i :: |before.headers| <= i < |after.headers| ==> PairSafe(after.headers[i]))
    && (forall i :: |before.footers| <= i < |after.footers| ==> PairSafe(after.footers[i]))
  }

  lemma StepExtends(g: Gny, ch: Octet)
    requires Proper(g)
    ensures Extends(g.msg, Step(g, ch).msg)
  {
    match g.phase
    case Value(code, key, acc) =>
      if ch == NUL && code < Http.HEADER_UNKNOWN {
        Http.NamesLowerCase();
        assert Http.LowerCase(Http.HEADER_STRINGS[code]);
      }
    case _ =>
  }

  lemma {:induction false} RunExtends(g: Gny, bs: Bytes)
    requires Proper(g)
    ensures Extends(g.msg, Run(g, bs).msg)
    decreases |bs|
  {
    if bs != [] {
      StepProper(g, bs[0]);
      StepExtends(g, bs[0]);
      RunExtends(Step(g, bs[0]), bs[1..]);
    }
  }

  /** A header survives the wire, name canonicalised, exactly when it is NUL-free: for a name
      in the table, when its value is; for any other, when name and value both are. */
  lemma PairSurvivesIff(m: Msg, kv: KeyValue)
    requires m.stage == HEADER
    ensures Run(Gny(Start, m), EncodePair(kv)) == Gny(Start, Deliver(m, Http.Canon(kv.key), kv.value))
      <==> NulFree(kv.value) && NulFree(Http.Canon(kv.key))
  {
    var g := Gny(Start, m);
    var r := Run(g, EncodePair(kv));
    RunExtends(g, EncodePair(kv));
    var m' := Deliver(m, Http.Canon(kv.key), kv.value);
    assert m'.headers[|m.headers|] == KeyValue(Http.Canon(kv.key), kv.value);
    if NulFree(kv.value) && NulFree(Http.Canon(kv.key)) {
      RunNamedPair(m, kv);
    }
  }

  lemma RunNamedPair(m: Msg, kv: KeyValue)
    requires NulFree(kv.value) && NulFree(Http.Canon(kv.key))
    ensures Run(Gny(Start, m), EncodePair(kv)) == Gny(Start, Deliver(m, Http.Canon(kv.key), kv.value))
  {
    var code := Http.AToHeader(kv.key);
    if code == Http.HEADER_UNKNOWN {
      RunPair(m, kv);
    } else {
      var named := KeyValue(Http.Canon(kv.key), kv.value);
      Http.HeaderCodeRoundTrip(code);
      assert EncodePair(named) == EncodePair(kv);
      RunPair(m, named);
    }
  }

  // ----- a parser fills its message legally -----

  /** The start line is blank until it has been read. */
  predicate WellBegun(g: Gny) {
    match g.phase
    case Verb => g.msg == Blank(true)
    case Url(_) => g.msg.isRequest && g.msg.url == [] && g.msg.stage == HEADER
    case Status(_) => g.msg == Blank(false)
    case Start => g.msg.stage == HEADER || g.msg.stage == FOOTER
    case Key(_) => g.msg.stage == HEADER || g.msg.stage == FOOTER
    case Value(_, _, _) => g.msg.stage == HEADER || g.msg.stage == FOOTER
    case Size(_) => g.msg.stage == ENTITY
    case Data(_) => g.msg.stage == ENTITY
    case _ => true
  }

  lemma StepFills(g: Gny, ch: Octet)
    requires WellBegun(g)
    ensures WellBegun(Step(g, ch)) && FilledTo(g.msg, Step(g, ch).msg)
  {
    hide FilledTo, NameOf, Common.ReadShort;
    var m, m' := g.msg, Step(g, ch).msg;
    FilledToItself(m);
    match g.phase
    case Verb => StartFills(m, m'.verb, m.url, m.status);
    case Url(acc) => UrlFills(m, acc);
    case Status(acc) => StartFills(m, m.verb, m.url, m'.status);
    case Start =>
      StageFills(m, if m.stage == HEADER then ENTITY else DONE);
    case Value(code, key, acc) => DeliverFills(m, NameOf(code, key), acc);
    case Size(acc) => StageFills(m, FOOTER);
    case Data(left) => EntityFills(m, [ch]);
    case _ =>
  }

  lemma UrlFills(m: Msg, url: Bytes)
    requires m.isRequest && m.url == []
    ensures FilledTo(m, m.(url := url))
  {}

  lemma DeliverFills(m: Msg, key: Bytes, value: Bytes)
    requires m.stage == HEADER || m.stage == FOOTER
    ensures FilledTo(m, Deliver(m, key, value))
  {
    hide FilledTo;
    if m.stage == HEADER {
      HeaderFills(m, KeyValue(key, value));
    } else {
      FooterFills(m, KeyValue(key, value));
    }
  }

  /** Whatever bytes a reader is given, what it does to its message is a legal filling. */
  lemma {:induction false} RunFills(g: Gny, bs: Bytes)
    requires WellBegun(g)
    ensures WellBegun(Run(g, bs)) && FilledTo(g.msg, Run(g, bs).msg)
    decreases |bs|
  {
    hide Step, WellBegun, FilledTo;
    if bs == [] {
      FilledToItself(g.msg);
    } else {
      StepFills(g, bs[0]);
      RunFills(Step(g, bs[0]), bs[1..]);
      FilledToTransitive(g.msg, Step(g, bs[0]).msg, Run(g, bs).msg);
    }
  }
}
