/** What the GNY reader makes of any well-formed text, whoever has written it: names in the table may
    come as codes or spelled out, and the entity in chunks of any size. */
module GnyText {
  import opened Basics
  import opened Octets
  import opened Messages
  import opened GnyFormat
  import Common
  import GnySource
  import Http

  /** A header or footer, its name by its code or spelled out. */
  datatype Field = Coded(code: nat, value: Bytes) | Named(name: Bytes, value: Bytes)

  predicate FieldOk(f: Field) {
    && NulFree(f.value)
    && match f
       case Coded(code, _) => code < Http.HEADER_UNKNOWN
       case Named(name, _) => NulFree(name)
  }

  function FieldText(f: Field): (r: Bytes)
    requires FieldOk(f)
  {
    match f
    case Coded(code, value) => [Byte(code)] + (value + [NUL])
    case Named(name, value) => [Byte(Http.HEADER_UNKNOWN)] + (name + [NUL]) + (value + [NUL])
  }

  function FieldMeant(f: Field): (kv: KeyValue)
    requires FieldOk(f)
  {
    match f
    case Coded(code, value) => KeyValue(Http.HEADER_STRINGS[code], value)
    case Named(name, value) => KeyValue(name, value)
  }

  lemma RunField(m: Msg, f: Field)
    requires FieldOk(f)
    ensures var kv := FieldMeant(f);
      Run(Gny(Start, m), FieldText(f)) == Gny(Start, Deliver(m, kv.key, kv.value))
  {
    hide Run, Deliver;
    var g := Gny(Start, m);
    assert [] + f.value == f.value;
    match f
    case Coded(code, value) =>
      RunAppend(g, [Byte(code)], value + [NUL]);
      RunFlag(g, Byte(code));
      RunValue(code, [], [], m, value);
    case Named(name, value) =>
      var flag := Byte(Http.HEADER_UNKNOWN);
      assert [] + name == name;
      RunAppend(g, [flag] + (name + [NUL]), value + [NUL]);
      RunAppend(g, [flag], name + [NUL]);
      RunFlag(g, flag);
      RunKey([], m, name);
      RunValue(Http.HEADER_UNKNOWN, name, [], m, value);
  }

  predicate FieldsOk(fs: seq<Field>) {
    forall i :: 0 <= i < |fs| ==> FieldOk(fs[i])
  }

  function FieldsText(fs: seq<Field>): (r: Bytes)
    requires FieldsOk(fs)
    decreases |fs|
  {
    if fs == [] then [] else FieldText(fs[0]) + FieldsText(fs[1..])
  }

  function FieldsMeant(fs: seq<Field>): (r: seq<KeyValue>)
    requires FieldsOk(fs)
    decreases |fs|
  {
    if fs == [] then [] else [FieldMeant(fs[0])] + FieldsMeant(fs[1..])
  }

  lemma {:induction false} RunFields(m: Msg, fs: seq<Field>)
    requires FieldsOk(fs)
    ensures Run(Gny(Start, m), FieldsText(fs)) == Gny(Start, DeliverAll(m, FieldsMeant(fs)))
    decreases |fs|
  {
    hide Run, FieldText, FieldMeant, FieldOk;
    if fs == [] {
      assert DeliverAll(m, []) == m;
      RunNone(Gny(Start, m));
    } else {
      var kv := FieldMeant(fs[0]);
      RunAppend(Gny(Start, m), FieldText(fs[0]), FieldsText(fs[1..]));
      RunField(m, fs[0]);
      RunFields(Deliver(m, kv.key, kv.value), fs[1..]);
      DeliverFirst(m, kv, FieldsMeant(fs[1..]));
    }
  }

  lemma RunNone(g: Gny)
    ensures Run(g, []) == g
  {}

  // ----- chunks -----

  predicate ChunksOk(cs: seq<Bytes>) {
    forall i :: 0 <= i < |cs| ==> 0 < |cs[i]| <= CHUNK_MAX
  }

  function ChunksText(cs: seq<Bytes>): (r: Bytes)
    decreases |cs|
  {
    if cs == [] then [] else Common.WriteShort(|cs[0]|) + cs[0] + ChunksText(cs[1..])
  }

  function DataMeant(cs: seq<Bytes>): (r: Bytes)
    decreases |cs|
  {
    if cs == [] then [] else cs[0] + DataMeant(cs[1..])
  }

  lemma {:induction false} RunAnyChunks(m: Msg, cs: seq<Bytes>)
    requires ChunksOk(cs)
    ensures Run(Gny(Size([]), m), ChunksText(cs)) == Gny(Size([]), m.(entity := m.entity + DataMeant(cs)))
    decreases |cs|
  {
    hide Run, Common.WriteShort;
    var g := Gny(Size([]), m);
    if cs == [] {
      assert m.entity + [] == m.entity;
      RunNone(g);
    } else {
      RunAppend(g, Common.WriteShort(|cs[0]|) + cs[0], ChunksText(cs[1..]));
      RunAppend(g, Common.WriteShort(|cs[0]|), cs[0]);
      RunSize(m, |cs[0]|);
      RunData(m, |cs[0]|, cs[0]);
      RunAnyChunks(m.(entity := m.entity + cs[0]), cs[1..]);
      Regroup(m.entity, cs[0], DataMeant(cs[1..]));
    }
  }

  // ----- whole texts -----

  datatype StartLine = Asks(verb: Octet, url: Bytes) | Answers(high: Octet, low: Octet)

  datatype Text = Text(start: StartLine, headers: seq<Field>, chunks: seq<Bytes>, footers: seq<Field>)

  function StartText(s: StartLine): (r: Bytes) {
    match s
    case Asks(verb, url) => [verb] + (url + [NUL])
    case Answers(high, low) => [high] + [low]
  }

  /** A verb is one byte; a status is two, the high one first. */
  function StartMeant(s: StartLine): (m: Msg) {
    match s
    case Asks(verb, url) => Blank(true).(verb := verb as int, url := url)
    case Answers(high, low) => Blank(false).(status := high as int * 256 + low as int)
  }

  predicate TextOk(t: Text) {
    && (t.start.Asks? ==> NulFree(t.start.url))
    && FieldsOk(t.headers) && ChunksOk(t.chunks) && FieldsOk(t.footers)
  }

  const END := Byte(Http.HEADER_END)

  function MostText(t: Text): (r: Bytes)
    requires TextOk(t)
  {
    StartText(t.start) + FieldsText(t.headers) + [END] + ChunksText(t.chunks) + [NUL, NUL] + FieldsText(t.footers)
  }

  function WholeText(t: Text): (r: Bytes)
    requires TextOk(t)
  {
    MostText(t) + [END]
  }

  function MessageMeant(t: Text): (m: Msg)
    requires TextOk(t)
  {
    StartMeant(t.start).(
      headers := FieldsMeant(t.headers), entity := DataMeant(t.chunks), footers := FieldsMeant(t.footers),
      stage := DONE)
  }

  lemma RunStart(s: StartLine)
    requires s.Asks? ==> NulFree(s.url)
    ensures Run(Initial(s.Asks?), StartText(s)) == Gny(Start, StartMeant(s))
  {
    hide Run;
    match s
    case Asks(verb, url) =>
      RunAppend(Initial(true), [verb], url + [NUL]);
      RunFlag(Initial(true), verb);
      assert [] + url == url;
      RunUrl([], Blank(true).(verb := verb as int), url);
    case Answers(high, low) =>
      RunAppend(Initial(false), [high], [low]);
      RunFlag(Initial(false), high);
      assert [] + [high] == [high];
      RunFlag(Gny(Status([high]), Blank(false)), low);
  }

  lemma RunMost(t: Text)
    requires TextOk(t)
    ensures Run(Initial(t.start.Asks?), MostText(t)) == Gny(Start, MessageMeant(t).(stage := FOOTER))
  {
    hide Run, StartText, StartMeant, FieldsText, FieldsMeant, ChunksText, DataMeant, FieldsOk, ChunksOk, Initial;
    var g, start := Initial(t.start.Asks?), StartText(t.start);
    var headers, chunks := FieldsText(t.headers), ChunksText(t.chunks);
    StartIsBare(t.start);
    var m1 := StartMeant(t.start);
    var m2 := m1.(headers := FieldsMeant(t.headers));
    var m3 := m2.(stage := ENTITY, entity := DataMeant(t.chunks));
    RunAppend(g, start + headers + [END] + chunks + [NUL, NUL], FieldsText(t.footers));
    RunAppend(g, start + headers + [END] + chunks, [NUL, NUL]);
    RunAppend(g, start + headers + [END], chunks);
    RunAppend(g, start + headers, [END]);
    RunAppend(g, start, headers);
    RunStart(t.start);
    RunFields(m1, t.headers);
    assert [] + FieldsMeant(t.headers) == FieldsMeant(t.headers);
    RunFlag(Gny(Start, m2), END);
    RunAnyChunks(m2.(stage := ENTITY), t.chunks);
    assert [] + DataMeant(t.chunks) == DataMeant(t.chunks);
    assert Common.WriteShort(0) == [NUL, NUL];
    RunSize(m3, 0);
    RunFields(m3.(stage := FOOTER), t.footers);
    assert [] + FieldsMeant(t.footers) == FieldsMeant(t.footers);
  }

  lemma StartIsBare(s: StartLine)
    ensures var m := StartMeant(s); m.headers == [] && m.entity == [] && m.footers == [] && m.stage == HEADER
  {}

  /** The reader takes any text of this form for the message that it means, and comes to the end of it
      at its last byte and not before. */
  lemma ReadsText(t: Text)
    requires TextOk(t)
    ensures Run(Initial(t.start.Asks?), WholeText(t)) == Gny(Done, MessageMeant(t))
    ensures GnySource.Complete(Initial(t.start.Asks?), WholeText(t))
  {
    hide Run, MostText, MessageMeant, Initial, TextOk;
    var g, most := Initial(t.start.Asks?), MostText(t);
    RunMost(t);
    RunAppend(g, most, [END]);
    RunFlag(Run(g, most), END);
    assert MessageMeant(t).stage == DONE by { MeantIsDone(t); }
    forall k | 0 <= k < |WholeText(t)| ensures !Stopped(Run(g, WholeText(t)[..k])) {
      assert WholeText(t)[..k] == most[..k] && most == most[..k] + most[k..];
      RunAppend(g, most[..k], most[k..]);
      if Stopped(Run(g, most[..k])) {
        RunStopped(Run(g, most[..k]), most[k..]);
      }
    }
  }

  lemma MeantIsDone(t: Text)
    requires TextOk(t)
    ensures MessageMeant(t).stage == DONE
  {}
}
