/** What the HTTP/1.1 reader makes of texts that other programs may send: blank lines in front, any
    white space between the words of a start line, line ends with or without a carriage return, lines
    that are no fields, chunks with extensions. Each part of a text is put together here from what it
    is to mean, and the reader gives back that meaning. */
module Http11Text {
  import opened Basics
  import opened Octets
  import opened Messages
  import opened Common
  import opened Http11Format
  import Http
  import Http11Source

  // ----- lines -----

  function LineEnd(cr: bool): (r: Bytes) {
    if cr then CRLF else [LF]
  }

  /** A line whose content is given back when it ends in this way. */
  predicate LineOk(line: Bytes, cr: bool) {
    OneLine(line) && (!cr ==> line == [] || line[|line|-1] != CR)
  }

  lemma RunLineEnd(ph: Phase, m: Msg, line: Bytes, cr: bool)
    requires ph.FirstLine? || ph.Headers? || ph.Trailer?
    requires LineOk(line, cr)
    ensures var whole := line + (if cr then [CR] else []);
      && Run(Parser(WithLine(ph, []), m), line + LineEnd(cr)) == Step(Parser(WithLine(ph, whole), m), LF)
      && StripCR(whole) == line
  {
    hide Step;
    if cr {
      RunWholeLine(ph, m, line);
    } else {
      RunAppend(Parser(WithLine(ph, []), m), line, [LF]);
      RunLine(ph, m, [], line);
      assert [] + line == line && line + [] == line;
      RunOne(Parser(WithLine(ph, line), m), LF);
    }
  }

  /** Blank lines in front of a message are passed over. */
  function BlankLines(crs: seq<bool>): (r: Bytes)
    decreases |crs|
  {
    if crs == [] then [] else LineEnd(crs[0]) + BlankLines(crs[1..])
  }

  lemma {:induction false} RunBlankLines(m: Msg, crs: seq<bool>)
    ensures Run(Parser(FirstLine([]), m), BlankLines(crs)) == Parser(FirstLine([]), m)
    decreases |crs|
  {
    if crs != [] {
      RunAppend(Parser(FirstLine([]), m), LineEnd(crs[0]), BlankLines(crs[1..]));
      RunLineEnd(FirstLine([]), m, [], crs[0]);
      assert [] + LineEnd(crs[0]) == LineEnd(crs[0]);
      RunBlankLines(m, crs[1..]);
    }
  }

  // ----- start lines -----

  /** Two words, with any white space before and between them, and whatever comes behind; either word
      may be missing at the end of the line. */
  datatype Words = Words(gap0: Bytes, first: Bytes, gap1: Bytes, second: Bytes, rest: Bytes)

  function WordsText(w: Words): (r: Bytes) {
    w.gap0 + w.first + w.gap1 + w.second + w.rest
  }

  predicate WordsOk(w: Words) {
    && AllSpace(w.gap0) && AllSpace(w.gap1) && SpaceFree(w.first) && SpaceFree(w.second)
    && (w.rest == [] || IsSpace(w.rest[0]))
    && (w.second != [] ==> w.gap1 != []) && (w.second == [] ==> w.rest == [])
    && (w.first == [] ==> w.gap1 == [] && w.second == [])
  }

  lemma WordsFound(w: Words)
    requires WordsOk(w)
    ensures var line := WordsText(w);
      var (first, p1) := Token(line, 0);
      first == w.first && Token(line, p1).0 == w.second
  {
    hide Token;
    var line := WordsText(w);
    var a := |w.gap0|;
    var b := a + |w.first|;
    var c := b + |w.gap1|;
    var d := c + |w.second|;
    WordPlaces(w);
    TokenAfter(line, 0, a, b);
    TokenAfter(line, b, c, d);
  }

  lemma WordPlaces(w: Words)
    requires WordsOk(w)
    ensures var line, a := WordsText(w), |w.gap0|;
      var b := a + |w.first|;
      var c := b + |w.gap1|;
      var d := c + |w.second|;
      && d <= |line| && line[a..b] == w.first && line[c..d] == w.second
      && (forall i :: 0 <= i < a ==> IsSpace(line[i])) && (forall i :: a <= i < b ==> !IsSpace(line[i]))
      && (forall i :: b <= i < c ==> IsSpace(line[i])) && (forall i :: c <= i < d ==> !IsSpace(line[i]))
      && (d < |line| ==> IsSpace(line[d]))
  {
    hide IsSpace;
    var line, a := WordsText(w), |w.gap0|;
    var b := a + |w.first|;
    var c := b + |w.gap1|;
    assert forall i :: 0 <= i < a ==> line[i] == w.gap0[i];
    assert forall i :: a <= i < b ==> line[i] == w.first[i - a];
    assert forall i :: b <= i < c ==> line[i] == w.gap1[i - b];
    assert forall i :: c <= i < c + |w.second| ==> line[i] == w.second[i - c];
  }

  /** The start line of a message: its first word is the verb and its second the URL, or its second is
      the status, whatever its first and its others are. */
  function StartMeant(isRequest: bool, w: Words): (m: Msg) {
    if isRequest then Blank(true).(verb := Http.AToVerb(w.first), url := UrlDecoded(w.second))
    else Blank(false).(status := ToInt32(StrToLL(w.second)))
  }

  lemma RunStartLine(isRequest: bool, w: Words, cr: bool)
    requires WordsOk(w) && LineOk(WordsText(w), cr) && WordsText(w) != []
    ensures Run(Initial(isRequest), WordsText(w) + LineEnd(cr))
         == Parser(Headers(ENTITY_UNKNOWN, []), StartMeant(isRequest, w))
  {
    hide WordsText, Token, Http.AToVerb, UrlDecoded, StrToLL, ToInt32;
    RunLineEnd(FirstLine([]), Blank(isRequest), WordsText(w), cr);
    WordsFound(w);
  }

  // ----- header and trailer lines -----

  /** A line with a name and a value on either side of its first colon, or a line without a colon. */
  datatype Header = Field(key: Bytes, value: Bytes, cr: bool) | Other(line: Bytes, cr: bool)

  function HeaderLineText(h: Header): (r: Bytes) {
    match h
    case Field(key, value, _) => key + [':'] + value
    case Other(line, _) => line
  }

  predicate HeaderOk(h: Header) {
    && LineOk(HeaderLineText(h), h.cr)
    && match h
       case Field(key, _, _) => ':' !in key
       case Other(line, _) => line != [] && ':' !in line
  }

  predicate HeadersOk(hs: seq<Header>) {
    forall i :: 0 <= i < |hs| ==> HeaderOk(hs[i])
  }

  function HeadersText(hs: seq<Header>): (r: Bytes)
    decreases |hs|
  {
    if hs == [] then [] else HeaderLineText(hs[0]) + LineEnd(hs[0].cr) + HeadersText(hs[1..])
  }

  function FieldMeant(h: Header): (r: seq<KeyValue>) {
    match h
    case Field(key, value, _) => [KeyValue(Trimmed(key), Trimmed(value))]
    case Other(_, _) => []
  }

  /** The fields among the lines, trimmed. */
  function FieldsMeant(hs: seq<Header>): (r: seq<KeyValue>)
    decreases |hs|
  {
    if hs == [] then [] else FieldMeant(hs[0]) + FieldsMeant(hs[1..])
  }

  lemma FieldFound(key: Bytes, value: Bytes)
    requires ':' !in key
    ensures var line := key + [':'] + value;
      HasColon(line) && Http11Format.Field(line) == KeyValue(Trimmed(key), Trimmed(value))
  {
    var line := key + [':'] + value;
    FindColonAfter(key, value);
    assert line[..|key|] == key && line[|key|+1..] == value;
  }

  lemma {:induction false} NoColon(line: Bytes)
    requires ':' !in line
    ensures !HasColon(line)
    decreases |line|
  {
    if line != [] {
      NoColon(line[1..]);
    }
  }

  lemma RunHeaderLine(mode: int, m: Msg, h: Header)
    requires HeaderOk(h)
    ensures Run(Parser(Headers(mode, []), m), HeaderLineText(h) + LineEnd(h.cr))
         == (var kvs := FieldMeant(h);
             Parser(Headers(ParsedModes(mode, kvs), []), m.(headers := m.headers + Kept(kvs))))
  {
    hide Trimmed, ParsedMode, IsDropped, FindColon, HasColon;
    RunLineEnd(Headers(mode, []), m, HeaderLineText(h), h.cr);
    assert m.headers + [] == m.headers;
    match h
    case Field(key, value, _) => FieldFound(key, value);
    case Other(line, _) => NoColon(line);
  }

  lemma ModesJoin(mode: int, a: KeyValue, rest: seq<KeyValue>)
    ensures ParsedModes(mode, [a] + rest) == ParsedModes(ParsedMode(mode, a), rest)
    ensures Kept([a] + rest) == Kept([a]) + Kept(rest)
  {
    hide ParsedMode, IsDropped;
    assert ([a] + rest)[1..] == rest;
    assert Kept([a][1..]) == [];
  }

  /** Lines without a colon say nothing; of the fields those that belong to the connection are kept
      back, and all of them say how the entity is framed. */
  lemma {:induction false} RunAnyHeaders(mode: int, m: Msg, hs: seq<Header>)
    requires HeadersOk(hs)
    ensures Run(Parser(Headers(mode, []), m), HeadersText(hs))
         == (var kvs := FieldsMeant(hs);
             Parser(Headers(ParsedModes(mode, kvs), []), m.(headers := m.headers + Kept(kvs))))
    decreases |hs|
  {
    hide Run, ParsedMode, IsDropped, HeaderLineText, Trimmed;
    if hs == [] {
      assert m.headers + [] == m.headers;
      RunNone(Parser(Headers(mode, []), m));
    } else {
      var one, rest := FieldMeant(hs[0]), FieldsMeant(hs[1..]);
      RunAppend(Parser(Headers(mode, []), m), HeaderLineText(hs[0]) + LineEnd(hs[0].cr), HeadersText(hs[1..]));
      RunHeaderLine(mode, m, hs[0]);
      RunAnyHeaders(ParsedModes(mode, one), m.(headers := m.headers + Kept(one)), hs[1..]);
      if one == [] {
        assert one + rest == rest && m.headers + [] == m.headers;
      } else {
        ModesJoin(mode, one[0], rest);
        assert one[1..] == [];
        Regroup(m.headers, Kept(one), Kept(rest));
      }
    }
  }

  lemma RunNone(p: Parser)
    ensures Run(p, []) == p
  {}

  lemma RunTrailerLine(m: Msg, h: Header)
    requires HeaderOk(h)
    ensures Run(Parser(Trailer([]), m), HeaderLineText(h) + LineEnd(h.cr))
         == Parser(Trailer([]), m.(footers := m.footers + FieldMeant(h)))
  {
    hide Trimmed, FindColon, HasColon;
    RunLineEnd(Trailer([]), m, HeaderLineText(h), h.cr);
    assert m.footers + [] == m.footers;
    match h
    case Field(key, value, _) => FieldFound(key, value);
    case Other(line, _) => NoColon(line);
  }

  /** Behind the last chunk all fields are kept. */
  lemma {:induction false} RunAnyTrailer(m: Msg, hs: seq<Header>)
    requires HeadersOk(hs)
    ensures Run(Parser(Trailer([]), m), HeadersText(hs))
         == Parser(Trailer([]), m.(footers := m.footers + FieldsMeant(hs)))
    decreases |hs|
  {
    hide Run, HeaderLineText, Trimmed;
    if hs == [] {
      assert m.footers + [] == m.footers;
      RunNone(Parser(Trailer([]), m));
    } else {
      var one, rest := FieldMeant(hs[0]), FieldsMeant(hs[1..]);
      RunAppend(Parser(Trailer([]), m), HeaderLineText(hs[0]) + LineEnd(hs[0].cr), HeadersText(hs[1..]));
      RunTrailerLine(m, hs[0]);
      RunAnyTrailer(m.(footers := m.footers + one), hs[1..]);
      Regroup(m.footers, one, rest);
    }
  }

  // ----- framing -----

  /** The number in the first content length, one of -1 being none. */
  function LengthMeant(kvs: seq<KeyValue>): (n: int)
    decreases |kvs|
  {
    if kvs == [] then ENTITY_UNKNOWN
    else if !Names(kvs[0].key, TRANSFER_ENCODING) && Names(kvs[0].key, CONTENT_LENGTH)
            && StrToLL(kvs[0].value) != ENTITY_UNKNOWN then StrToLL(kvs[0].value)
    else LengthMeant(kvs[1..])
  }

  /** Chunks win over any length, wherever they are asked for. */
  function FramingMeant(kvs: seq<KeyValue>): (mode: int) {
    if exists i :: 0 <= i < |kvs| && AsksChunks(kvs[i]) then ENTITY_CHUNKED else LengthMeant(kvs)
  }

  lemma {:induction false} ModesMean(kvs: seq<KeyValue>)
    ensures ParsedModes(ENTITY_UNKNOWN, kvs) == FramingMeant(kvs)
    decreases |kvs|
  {
    hide Names, StrToLL;
    if AnyAsksChunks(kvs) {
      ChunksStick(ENTITY_UNKNOWN, kvs);
    } else if kvs != [] {
      RestAsksNot(kvs);
      assert !AsksChunks(kvs[0]);
      var mode := ParsedMode(ENTITY_UNKNOWN, kvs[0]);
      if mode != ENTITY_UNKNOWN {
        SettledStays(mode, kvs[1..]);
      } else {
        ModesMean(kvs[1..]);
      }
    }
  }

  // ----- entities -----

  /** A chunk behind a size line, with an extension or without, and with anything up to the line end
      that follows its data. */
  datatype Chunk = Chunk(size: Bytes, extension: Option<Bytes>, data: Bytes, tail: Bytes)

  function ExtensionText(extension: Option<Bytes>): (r: Bytes) {
    if extension.Some? then [';'] + extension.value else []
  }

  predicate SizeLineOk(size: Bytes, extension: Option<Bytes>) {
    OneLine(size) && ';' !in size && (extension.Some? ==> OneLine(extension.value))
  }

  function SizeLineText(size: Bytes, extension: Option<Bytes>): (r: Bytes) {
    size + ExtensionText(extension) + [LF]
  }

  lemma {:induction false} RunExtension(m: Msg, size: nat, extension: Bytes)
    requires OneLine(extension)
    ensures Run(Parser(ChunkExtension(size), m), extension) == Parser(ChunkExtension(size), m)
    decreases |extension|
  {
    if extension != [] {
      RunExtension(m, size, extension[1..]);
    }
  }

  /** The size line of a chunk, with an extension or without: what counts is the digits before it. */
  lemma RunAnySizeLine(m: Msg, size: Bytes, extension: Option<Bytes>)
    requires SizeLineOk(size, extension)
    ensures Run(Parser(ChunkSize(0), m), SizeLineText(size, extension))
         == (var n := SizeTold(0, size);
             if n != 0 then Parser(ChunkData(n), m) else Parser(Trailer([]), m.(stage := FOOTER)))
  {
    hide IsHex, Run, SizeTold, ExtensionText;
    var p, n := Parser(ChunkSize(0), m), SizeTold(0, size);
    RunAppend(p, size + ExtensionText(extension), [LF]);
    RunAppend(p, size, ExtensionText(extension));
    RunDigits(m, 0, size);
    RunExtensionText(m, n, extension);
    RunOne(Parser(if extension.Some? then ChunkExtension(n) else ChunkSize(n), m), LF);
    NoHexLineEnd();
  }

  lemma NoHexLineEnd()
    ensures !IsHex(LF) && !IsHex(';')
  {}

  lemma RunExtensionText(m: Msg, size: nat, extension: Option<Bytes>)
    requires extension.Some? ==> OneLine(extension.value)
    ensures Run(Parser(ChunkSize(size), m), ExtensionText(extension))
         == Parser(if extension.Some? then ChunkExtension(size) else ChunkSize(size), m)
  {
    hide IsHex, ShiftOr, HexToI, Run;
    NoHexLineEnd();
    if extension.Some? {
      RunAppend(Parser(ChunkSize(size), m), [';'], extension.value);
      RunOne(Parser(ChunkSize(size), m), ';');
      RunExtension(m, size, extension.value);
    } else {
      RunNone(Parser(ChunkSize(size), m));
    }
  }

  /** The digits of a printed size are that size. */
  lemma SizeOfHex(n: nat)
    ensures SizeTold(0, Hex(n)) == n && OneLine(Hex(n)) && ';' !in Hex(n)
  {
    RunHex(Blank(false), n);
    assert forall c: Octet :: IsHex(c) ==> c != LF && c != ';';
    RunDigits(Blank(false), 0, Hex(n));
  }

  /** A printed size with an extension behind it. */
  lemma RunSizeWithExtension(m: Msg, n: nat, extension: Bytes)
    requires OneLine(extension)
    ensures Run(Parser(ChunkSize(0), m), Hex(n) + [';'] + extension + [LF])
         == if n != 0 then Parser(ChunkData(n), m) else Parser(Trailer([]), m.(stage := FOOTER))
  {
    hide Run, Hex, SizeTold;
    SizeOfHex(n);
    RunAnySizeLine(m, Hex(n), Some(extension));
    assert Hex(n) + [';'] + extension == Hex(n) + ([';'] + extension);
  }

  predicate ChunkOk(c: Chunk) {
    SizeLineOk(c.size, c.extension) && SizeTold(0, c.size) == |c.data| > 0 && OneLine(c.tail)
  }

  function AnyChunkText(c: Chunk): (r: Bytes) {
    SizeLineText(c.size, c.extension) + c.data + c.tail + [LF]
  }

  lemma {:induction false} RunTail(m: Msg, tail: Bytes)
    requires OneLine(tail)
    ensures Run(Parser(ChunkData(0), m), tail) == Parser(ChunkData(0), m)
    decreases |tail|
  {
    if tail != [] {
      RunTail(m, tail[1..]);
    }
  }

  /** A chunk delivers its data, whatever its extension (sections 4.1 and 4.1.1 of RFC 7230). */
  lemma RunAnyChunk(m: Msg, c: Chunk)
    requires ChunkOk(c)
    ensures Run(Parser(ChunkSize(0), m), AnyChunkText(c)) == Parser(ChunkSize(0), m.(entity := m.entity + c.data))
  {
    hide SizeLineText, SizeTold, Run;
    var p, line := Parser(ChunkSize(0), m), SizeLineText(c.size, c.extension);
    RunAppend(p, line + c.data + c.tail, [LF]);
    RunAppend(p, line + c.data, c.tail);
    RunAppend(p, line, c.data);
    RunAnySizeLine(m, c.size, c.extension);
    RunChunkData(m, c.data);
    RunTail(m.(entity := m.entity + c.data), c.tail);
    RunOne(Parser(ChunkData(0), m.(entity := m.entity + c.data)), LF);
  }

  predicate ChunksOk(cs: seq<Chunk>) {
    forall i :: 0 <= i < |cs| ==> ChunkOk(cs[i])
  }

  function ChunksText(cs: seq<Chunk>): (r: Bytes)
    decreases |cs|
  {
    if cs == [] then [] else AnyChunkText(cs[0]) + ChunksText(cs[1..])
  }

  function DataMeant(cs: seq<Chunk>): (r: Bytes)
    decreases |cs|
  {
    if cs == [] then [] else cs[0].data + DataMeant(cs[1..])
  }

  lemma {:induction false} RunAnyChunks(m: Msg, cs: seq<Chunk>)
    requires ChunksOk(cs)
    ensures Run(Parser(ChunkSize(0), m), ChunksText(cs)) == Parser(ChunkSize(0), m.(entity := m.entity + DataMeant(cs)))
    decreases |cs|
  {
    hide Run, AnyChunkText, ChunkOk;
    if cs == [] {
      assert m.entity + [] == m.entity;
      RunNone(Parser(ChunkSize(0), m));
    } else {
      RunAppend(Parser(ChunkSize(0), m), AnyChunkText(cs[0]), ChunksText(cs[1..]));
      RunAnyChunk(m, cs[0]);
      RunAnyChunks(m.(entity := m.entity + cs[0].data), cs[1..]);
      Regroup(m.entity, cs[0].data, DataMeant(cs[1..]));
    }
  }

  // ----- whole texts -----

  datatype Body =
    | Nothing
    | Counted(data: Bytes)
    | Chunked(chunks: seq<Chunk>, size: Bytes, extension: Option<Bytes>, trailer: seq<Header>, cr: bool)

  datatype Text = Text(
    isRequest: bool, blanks: seq<bool>, start: Words, startCr: bool, headers: seq<Header>, cr: bool, body: Body)

  /** The lines are lines, and the body is of the kind that the headers announce. */
  predicate TextOk(t: Text) {
    && WordsOk(t.start) && LineOk(WordsText(t.start), t.startCr) && WordsText(t.start) != []
    && HeadersOk(t.headers)
    && var mode := FramingMeant(FieldsMeant(t.headers));
       match t.body
       case Nothing => mode == 0 || mode == ENTITY_UNKNOWN
       case Counted(data) => mode == |data| > 0
       case Chunked(chunks, size, extension, trailer, _) =>
         && mode < ENTITY_UNKNOWN && ChunksOk(chunks)
         && SizeLineOk(size, extension) && SizeTold(0, size) == 0 && HeadersOk(trailer)
  }

  function HeadText(t: Text): (r: Bytes) {
    BlankLines(t.blanks) + (WordsText(t.start) + LineEnd(t.startCr)) + HeadersText(t.headers)
  }

  function BodyText(t: Text): (r: Bytes)
    ensures r != []
  {
    LineEnd(t.cr) +
    match t.body
    case Nothing => []
    case Counted(data) => data
    case Chunked(chunks, size, extension, trailer, cr) =>
      ChunksText(chunks) + SizeLineText(size, extension) + HeadersText(trailer) + LineEnd(cr)
  }

  function WholeText(t: Text): (r: Bytes) {
    HeadText(t) + BodyText(t)
  }

  function HeadMeant(t: Text): (m: Msg) {
    StartMeant(t.isRequest, t.start).(headers := Kept(FieldsMeant(t.headers)))
  }

  function MessageMeant(t: Text): (m: Msg) {
    match t.body
    case Nothing => HeadMeant(t).(stage := DONE)
    case Counted(data) => HeadMeant(t).(entity := data, stage := DONE)
    case Chunked(chunks, _, _, trailer, _) =>
      HeadMeant(t).(entity := DataMeant(chunks), footers := FieldsMeant(trailer), stage := DONE)
  }

  lemma RunHead(t: Text)
    requires TextOk(t)
    ensures Run(Initial(t.isRequest), HeadText(t))
         == Parser(Headers(FramingMeant(FieldsMeant(t.headers)), []), HeadMeant(t))
  {
    hide Run, WordsText, StartMeant, HeadersText, FramingMeant, FieldsMeant, Kept, ParsedModes, HeadersOk;
    var p, blanks, line := Initial(t.isRequest), BlankLines(t.blanks), WordsText(t.start) + LineEnd(t.startCr);
    RunAppend(p, blanks + line, HeadersText(t.headers));
    RunAppend(p, blanks, line);
    RunBlankLines(Blank(t.isRequest), t.blanks);
    RunStartLine(t.isRequest, t.start, t.startCr);
    RunAnyHeaders(ENTITY_UNKNOWN, StartMeant(t.isRequest, t.start), t.headers);
    ModesMean(FieldsMeant(t.headers));
    StartIsBare(t.isRequest, t.start);
    assert [] + Kept(FieldsMeant(t.headers)) == Kept(FieldsMeant(t.headers));
  }

  lemma StartIsBare(isRequest: bool, w: Words)
    ensures var m := StartMeant(isRequest, w); m.headers == [] && m.entity == [] && m.footers == []
  {}

  lemma CompleteJoin(p: Parser, a: Bytes, b: Bytes)
    requires b != [] && Http11Source.Complete(Run(p, a), b)
    ensures Http11Source.Complete(p, a + b)
  {
    hide Run;
    RunAppend(p, a, b);
    RunNone(Run(p, a));
    assert b[..0] == [];
    forall k | 0 <= k < |a + b| ensures !Stopped(Run(p, (a + b)[..k])) {
      if k < |a| {
        assert a == a[..k] + a[k..] && (a + b)[..k] == a[..k];
        RunAppend(p, a[..k], a[k..]);
        if Stopped(Run(p, a[..k])) {
          RunStopped(Run(p, a[..k]), a[k..]);
        }
      } else {
        assert (a + b)[..k] == a + b[..k-|a|];
        RunAppend(p, a, b[..k-|a|]);
      }
    }
  }

  /** A blank line that ends a message does so at its last byte. */
  lemma BlankEnds(ph: Phase, m: Msg, cr: bool)
    requires ph.Headers? || ph.Trailer?
    requires ph.Headers? ==> ph.mode == 0 || ph.mode == ENTITY_UNKNOWN
    ensures var p := Parser(WithLine(ph, []), m);
      Run(p, LineEnd(cr)) == Parser(Done, m.(stage := DONE)) && Http11Source.Complete(p, LineEnd(cr))
  {
    hide Run;
    var p := Parser(WithLine(ph, []), m);
    RunLineEnd(ph, m, [], cr);
    assert [] + LineEnd(cr) == LineEnd(cr);
    RunNone(p);
    RunOne(p, CR);
    assert LineEnd(cr)[..0] == [] && CRLF[..1] == [CR];
  }

  lemma CountedEnds(m: Msg, data: Bytes)
    requires data != []
    ensures var p := Parser(Fixed(|data|), m);
      && Run(p, data) == Parser(Done, m.(entity := m.entity + data, stage := DONE))
      && Http11Source.Complete(p, data)
  {
    hide Run;
    RunFixed(m, |data|, data);
    RunNone(Parser(Fixed(|data|), m));
    forall k | 0 <= k < |data| ensures !Stopped(Run(Parser(Fixed(|data|), m), data[..k])) {
      if k > 0 {
        RunFixed(m, |data|, data[..k]);
      } else {
        assert data[..0] == [];
      }
    }
  }

  /** The part of the body before its last line or its data. */
  lemma RunBodyStart(m: Msg, mode: int, cr: bool)
    requires mode != 0 && mode != ENTITY_UNKNOWN
    ensures Run(Parser(Headers(mode, []), m), LineEnd(cr))
         == Parser(if mode > 0 then Fixed(mode) else ChunkSize(0), m.(stage := ENTITY))
  {
    RunLineEnd(Headers(mode, []), m, [], cr);
    assert [] + LineEnd(cr) == LineEnd(cr);
  }

  lemma RunChunkedBody(m: Msg, b: Body)
    requires b.Chunked? && ChunksOk(b.chunks) && SizeLineOk(b.size, b.extension) && SizeTold(0, b.size) == 0
    requires HeadersOk(b.trailer)
    ensures var text := ChunksText(b.chunks) + SizeLineText(b.size, b.extension) + HeadersText(b.trailer);
      Run(Parser(ChunkSize(0), m), text)
         == Parser(Trailer([]), m.(entity := m.entity + DataMeant(b.chunks),
                                   footers := m.footers + FieldsMeant(b.trailer), stage := FOOTER))
  {
    hide Run, ChunksText, SizeLineText, HeadersText, FieldsMeant, DataMeant, ChunksOk, HeadersOk, SizeTold;
    var p, m' := Parser(ChunkSize(0), m), m.(entity := m.entity + DataMeant(b.chunks));
    RunAppend(p, ChunksText(b.chunks) + SizeLineText(b.size, b.extension), HeadersText(b.trailer));
    RunAppend(p, ChunksText(b.chunks), SizeLineText(b.size, b.extension));
    RunAnyChunks(m, b.chunks);
    RunAnySizeLine(m', b.size, b.extension);
    RunAnyTrailer(m'.(stage := FOOTER), b.trailer);
  }

  lemma RunBody(t: Text)
    requires TextOk(t)
    ensures var p := Parser(Headers(FramingMeant(FieldsMeant(t.headers)), []), HeadMeant(t));
      Run(p, BodyText(t)) == Parser(Done, MessageMeant(t)) && Http11Source.Complete(p, BodyText(t))
  {
    hide Run, ChunksText, SizeLineText, HeadersText, FieldsMeant, DataMeant, ChunksOk, HeadersOk, SizeTold;
    hide FramingMeant, StartMeant, Http11Source.Complete, Kept, WordsText, LineEnd;
    var mode, m := FramingMeant(FieldsMeant(t.headers)), HeadMeant(t);
    var p := Parser(Headers(mode, []), m);
    StartIsBare(t.isRequest, t.start);
    match t.body
    case Nothing =>
      BlankEnds(Headers(mode, []), m, t.cr);
      assert LineEnd(t.cr) + [] == LineEnd(t.cr);
    case Counted(data) =>
      RunBodyStart(m, mode, t.cr);
      CountedEnds(m.(stage := ENTITY), data);
      assert [] + data == data;
      RunAppend(p, LineEnd(t.cr), data);
      CompleteJoin(p, LineEnd(t.cr), data);
    case Chunked(chunks, size, extension, trailer, cr) =>
      var inner := ChunksText(chunks) + SizeLineText(size, extension) + HeadersText(trailer);
      var m' := m.(entity := DataMeant(chunks), footers := FieldsMeant(trailer), stage := FOOTER);
      RunBodyStart(m, mode, t.cr);
      RunChunkedBody(m.(stage := ENTITY), t.body);
      assert [] + DataMeant(chunks) == DataMeant(chunks) && [] + FieldsMeant(trailer) == FieldsMeant(trailer);
      BlankEnds(Trailer([]), m', cr);
      Regroup(LineEnd(t.cr), inner, LineEnd(cr));
      RunAppend(p, LineEnd(t.cr), inner);
      RunAppend(p, LineEnd(t.cr) + inner, LineEnd(cr));
      LineEndNotEmpty(cr);
      CompleteJoin(p, LineEnd(t.cr) + inner, LineEnd(cr));
  }

  lemma LineEndNotEmpty(cr: bool)
    ensures LineEnd(cr) != []
  {}

  /** The reader takes any text of this form for the message that it means, and comes to the end of it
      at its last byte and not before. */
  lemma ReadsText(t: Text)
    requires TextOk(t)
    ensures Run(Initial(t.isRequest), WholeText(t)) == Parser(Done, MessageMeant(t))
    ensures Http11Source.Complete(Initial(t.isRequest), WholeText(t))
  {
    hide Run, HeadText, BodyText, TextOk, MessageMeant, HeadMeant, Http11Source.Complete, FramingMeant, FieldsMeant;
    RunHead(t);
    RunBody(t);
    RunAppend(Initial(t.isRequest), HeadText(t), BodyText(t));
    CompleteJoin(Initial(t.isRequest), HeadText(t), BodyText(t));
  }
}
