/** HTTP/1.1 messages: a parser that takes one byte at a time and keeps only the current line,
    the text of each part of a message, and the lemmas that make them inverse. */
module Http11Format {
  import opened Octets
  import opened Messages
  import opened Common
  import Http

  // ----- how the entity is framed -----

  const ENTITY_UNKNOWN: int := -1
  const ENTITY_CHUNKED: int := -2

  const TRANSFER_ENCODING: Bytes := "Transfer-Encoding"
  const CONTENT_LENGTH: Bytes := "Content-Length"
  const CHUNKED: Bytes := "chunked"

  /** The header fields that are not passed on. */
  predicate IsDropped(key: Bytes) {
    || Names(key, TRANSFER_ENCODING)
    || Names(key, "Connection")
    || Names(key, "Proxy-Connection")
    || Names(key, "Keep-Alive")
    || Names(key, "TE")
    || Names(key, "Trailer")
  }

  /** In lower case, the names of the fields that are for one connection only. */
  predicate IsHopByHop(name: Bytes) {
    || name == "connection" || name == "keep-alive" || name == "proxy-connection"
    || name == "te" || name == "trailer" || name == "transfer-encoding"
  }

  /** Just these are left out, in whatever case they are written. */
  lemma DroppedIff(key: Bytes)
    ensures IsDropped(key) <==> IsHopByHop(FoldAll(CStr(key)))
  {
    hide FoldAll, CStr, Names;
    NamesIff(key, TRANSFER_ENCODING, "transfer-encoding");
    ConnectionNames(key);
    NamesIff(key, "TE", "te");
    NamesIff(key, "Trailer", "trailer");
  }

  lemma ConnectionNames(key: Bytes)
    ensures var lower := FoldAll(CStr(key));
      && (Names(key, "Connection") <==> lower == "connection")
      && (Names(key, "Proxy-Connection") <==> lower == "proxy-connection")
      && (Names(key, "Keep-Alive") <==> lower == "keep-alive")
  {
    hide FoldAll, CStr, Names;
    NamesIff(key, "Connection", "connection");
    NamesIff(key, "Proxy-Connection", "proxy-connection");
    NamesIff(key, "Keep-Alive", "keep-alive");
  }

  lemma NamesIff(key: Bytes, name: Bytes, lower: Bytes)
    requires |name| == |lower| && forall i :: 0 <= i < |name| ==> Fold(name[i]) == lower[i]
    ensures Names(key, name) <==> FoldAll(CStr(key)) == lower
  {
    CompareZero(CStr(key), name);
    assert FoldAll(name) == lower;
  }

  /** The framing after one more header, as the parser works it out: a length that is out of
      range is taken at the end of the range. */
  function ParsedMode(mode: int, kv: KeyValue): (mode': int) {
    if Names(kv.key, TRANSFER_ENCODING) then
      (if Names(kv.value, CHUNKED) then ENTITY_CHUNKED else mode)
    else if mode == ENTITY_UNKNOWN && Names(kv.key, CONTENT_LENGTH) then StrToLL(kv.value)
    else mode
  }

  /** The same as the printer works it out: a length that is out of range is ignored. */
  function PrintedMode(mode: int, kv: KeyValue): (mode': int) {
    if Names(kv.key, TRANSFER_ENCODING) then
      (if Names(kv.value, CHUNKED) then ENTITY_CHUNKED else mode)
    else if mode == ENTITY_UNKNOWN && Names(kv.key, CONTENT_LENGTH) then
      (if OutOfRange(kv.value) then ENTITY_UNKNOWN else StrToLL(kv.value))
    else mode
  }

  /** Parser and printer agree on the framing of a header exactly when they do not meet a
      content length that is out of range. */
  lemma ModesAgreeIff(mode: int, kv: KeyValue)
    ensures ParsedMode(mode, kv) == PrintedMode(mode, kv) <==>
      !(mode == ENTITY_UNKNOWN && Names(kv.key, CONTENT_LENGTH)
        && !Names(kv.key, TRANSFER_ENCODING) && OutOfRange(kv.value))
  {
    hide Names, Numeral;
  }

  function PrintedModes(mode: int, kvs: seq<KeyValue>): (mode': int)
    decreases |kvs|
  {
    if kvs == [] then mode else PrintedModes(PrintedMode(mode, kvs[0]), kvs[1..])
  }

  function ParsedModes(mode: int, kvs: seq<KeyValue>): (mode': int)
    decreases |kvs|
  {
    if kvs == [] then mode else ParsedModes(ParsedMode(mode, kvs[0]), kvs[1..])
  }

  predicate AsksChunks(kv: KeyValue) {
    Names(kv.key, TRANSFER_ENCODING) && Names(kv.value, CHUNKED)
  }

  predicate AnyAsksChunks(kvs: seq<KeyValue>) {
    exists i :: 0 <= i < |kvs| && AsksChunks(kvs[i])
  }

  /** The first header that would settle the framing is a content length out of range. */
  predicate FirstOut(kvs: seq<KeyValue>)
    decreases |kvs|
  {
    && kvs != []
    && if PrintedMode(ENTITY_UNKNOWN, kvs[0]) != ENTITY_UNKNOWN then false
       else ParsedMode(ENTITY_UNKNOWN, kvs[0]) != ENTITY_UNKNOWN || FirstOut(kvs[1..])
  }

  /** The end of the range that this length is taken for. */
  function EndOfRange(kvs: seq<KeyValue>): (n: int)
    requires FirstOut(kvs)
    decreases |kvs|
  {
    if ParsedMode(ENTITY_UNKNOWN, kvs[0]) != ENTITY_UNKNOWN then StrToLL(kvs[0].value) else EndOfRange(kvs[1..])
  }

  lemma {:induction false} ChunksStick(mode: int, kvs: seq<KeyValue>)
    requires mode == ENTITY_CHUNKED || AnyAsksChunks(kvs)
    ensures ParsedModes(mode, kvs) == PrintedModes(mode, kvs) == ENTITY_CHUNKED
    decreases |kvs|
  {
    hide Names, StrToLL, OutOfRange;
    if kvs != [] {
      BothModes(mode, ParsedMode(mode, kvs[0]), PrintedMode(mode, kvs[0]), kvs);
    }
  }

  lemma {:induction false} BothModes(mode: int, a: int, b: int, kvs: seq<KeyValue>)
    requires kvs != [] && (mode == ENTITY_CHUNKED || AnyAsksChunks(kvs))
    requires a == ParsedMode(mode, kvs[0]) && b == PrintedMode(mode, kvs[0])
    ensures ParsedModes(a, kvs[1..]) == ENTITY_CHUNKED && PrintedModes(b, kvs[1..]) == ENTITY_CHUNKED
    decreases |kvs|, 0
  {
    hide Names, StrToLL, OutOfRange;
    var rest := kvs[1..];
    if AsksChunks(kvs[0]) || mode == ENTITY_CHUNKED {
      if rest != [] { ChunksStick(ENTITY_CHUNKED, rest); }
    } else {
      var i :| 0 <= i < |kvs| && AsksChunks(kvs[i]);
      assert rest[i-1] == kvs[i];
      ChunksStick(a, rest);
      ChunksStick(b, rest);
    }
  }

  /** Without a request for chunks a framing once settled stays. */
  lemma {:induction false} SettledStays(mode: int, kvs: seq<KeyValue>)
    requires mode != ENTITY_UNKNOWN && !AnyAsksChunks(kvs)
    ensures ParsedModes(mode, kvs) == PrintedModes(mode, kvs) == mode
    decreases |kvs|
  {
    hide Names, StrToLL, OutOfRange;
    if kvs != [] {
      RestAsksNot(kvs);
      assert !AsksChunks(kvs[0]);
      SettledStays(mode, kvs[1..]);
    }
  }

  lemma RestAsksNot(kvs: seq<KeyValue>)
    requires kvs != [] && !AnyAsksChunks(kvs)
    ensures !AnyAsksChunks(kvs[1..]) && !AsksChunks(kvs[0])
  {
    hide AsksChunks;
    assert forall i :: 0 <= i < |kvs[1..]| ==> kvs[1..][i] == kvs[i+1];
  }

  /** Reader and printer draw the same framing from the headers of a message if and only if the
      first content length is not out of range, or chunks are asked for, or a later length is
      the very number that the reader takes the first one for. */
  lemma {:induction false} AllModesAgreeIff(kvs: seq<KeyValue>)
    ensures ParsedModes(ENTITY_UNKNOWN, kvs) == PrintedModes(ENTITY_UNKNOWN, kvs) <==>
      !FirstOut(kvs) || AnyAsksChunks(kvs) || PrintedModes(ENTITY_UNKNOWN, kvs) == EndOfRange(kvs)
    ensures FirstOut(kvs) && !AnyAsksChunks(kvs) ==> ParsedModes(ENTITY_UNKNOWN, kvs) == EndOfRange(kvs)
    decreases |kvs|
  {
    hide Names, StrToLL, OutOfRange;
    if AnyAsksChunks(kvs) {
      ChunksStick(ENTITY_UNKNOWN, kvs);
    } else if kvs != [] {
      RestAsksNot(kvs);
      var a, b := ParsedMode(ENTITY_UNKNOWN, kvs[0]), PrintedMode(ENTITY_UNKNOWN, kvs[0]);
      if b != ENTITY_UNKNOWN {
        assert a == b;
        SettledStays(a, kvs[1..]);
      } else if a != ENTITY_UNKNOWN {
        SettledStays(a, kvs[1..]);
      } else {
        AllModesAgreeIff(kvs[1..]);
      }
    }
  }

  // ----- the parser -----

  /** Where the parser stands; the byte strings are the part of the current line read so far. */
  datatype Phase =
    | FirstLine(line: Bytes)
    | Headers(mode: int, line: Bytes)
    | Fixed(left: nat)
    | ChunkSize(size: nat)
    | ChunkExtension(size: nat)
    | ChunkData(left: nat)   // with nothing left, the line end after the data
    | Trailer(line: Bytes)
    | Done

  datatype Parser = Parser(phase: Phase, msg: Msg)

  function Initial(isRequest: bool): (p: Parser) {
    Parser(FirstLine([]), Blank(isRequest))
  }

  predicate Stopped(p: Parser) {
    p.phase.Done?
  }

  function StripCR(line: Bytes): (r: Bytes) {
    if line != [] && line[|line|-1] == CR then line[..|line|-1] else line
  }

  function RequestLine(m: Msg, line: Bytes): (r: Msg)
    ensures r.stage == m.stage
  {
    var (verb, p1) := Token(line, 0);
    var (url, p2) := Token(line, p1);
    m.(verb := Http.AToVerb(verb), url := UrlDecoded(url))
  }

  function ResponseLine(m: Msg, line: Bytes): (r: Msg)
    ensures r.stage == m.stage
  {
    var (protocol, p1) := Token(line, 0);
    var (code, p2) := Token(line, p1);
    m.(status := ToInt32(StrToLL(code)))
  }

  function StartLine(m: Msg, line: Bytes): (r: Msg)
    ensures r.stage == m.stage
  {
    if m.isRequest then RequestLine(m, line) else ResponseLine(m, line)
  }

  /** The first colon of a line, or its length. */
  function FindColon(line: Bytes): (i: nat)
    ensures i <= |line|
    ensures i < |line| ==> line[i] == ':'
    ensures forall j :: 0 <= j < i ==> line[j] != ':'
    decreases |line|
  {
    if line == [] || line[0] == ':' then 0 else 1 + FindColon(line[1..])
  }

  predicate HasColon(line: Bytes) {
    FindColon(line) < |line|
  }

  function Field(line: Bytes): (kv: KeyValue)
    requires HasColon(line)
  {
    var colon := FindColon(line);
    KeyValue(Trimmed(line[..colon]), Trimmed(line[colon+1..]))
  }

  function HeaderLine(mode: int, m: Msg, line: Bytes): (r: (int, Msg))
    ensures r.1.stage == m.stage
  {
    if !HasColon(line) then (mode, m)
    else
      var kv := Field(line);
      (ParsedMode(mode, kv),
       if IsDropped(kv.key) then m else m.(headers := m.headers + [kv]))
  }

  function FooterLine(m: Msg, line: Bytes): (r: Msg)
    ensures r.stage == m.stage
  {
    if !HasColon(line) then m else m.(footers := m.footers + [Field(line)])
  }

  function EndOfHeaders(mode: int, m: Msg): (p: Parser) {
    if mode == 0 || mode == ENTITY_UNKNOWN then Parser(Done, m.(stage := DONE))
    else Parser(if mode > 0 then Fixed(mode) else ChunkSize(0), m.(stage := ENTITY))
  }

  function EndOfChunkSize(size: nat, m: Msg): (p: Parser) {
    if size != 0 then Parser(ChunkData(size), m) else Parser(Trailer([]), m.(stage := FOOTER))
  }

  function Step(p: Parser, ch: Octet): (p': Parser) {
    var m := p.msg;
    match p.phase
    case FirstLine(line) =>
      if ch != LF then Parser(FirstLine(line + [ch]), m)
      else if StripCR(line) == [] then Parser(FirstLine([]), m)
      else Parser(Headers(ENTITY_UNKNOWN, []), StartLine(m, StripCR(line)))
    case Headers(mode, line) =>
      if ch != LF then Parser(Headers(mode, line + [ch]), m)
      else if StripCR(line) == [] then EndOfHeaders(mode, m)
      else
        var (mode', m') := HeaderLine(mode, m, StripCR(line));
        Parser(Headers(mode', []), m')
    case Fixed(left) =>
      var m' := m.(entity := m.entity + [ch]);
      if left <= 1 then Parser(Done, m'.(stage := DONE)) else Parser(Fixed(left - 1), m')
    case ChunkSize(size) =>
      if IsHex(ch) then Parser(ChunkSize(ShiftOr(size, HexToI(ch))), m)
      else if ch == ';' then Parser(ChunkExtension(size), m)
      else if ch == LF then EndOfChunkSize(size, m)
      else p
    case ChunkExtension(size) =>
      if ch == LF then EndOfChunkSize(size, m) else p
    case ChunkData(left) =>
      if left > 0 then Parser(ChunkData(left - 1), m.(entity := m.entity + [ch]))
      else if ch == LF then Parser(ChunkSize(0), m)
      else p
    case Trailer(line) =>
      if ch != LF then Parser(Trailer(line + [ch]), m)
      else if StripCR(line) == [] then Parser(Done, m.(stage := DONE))
      else Parser(Trailer([]), FooterLine(m, StripCR(line)))
    case Done => p
  }

  function Run(p: Parser, bs: Bytes): (r: Parser)
    decreases |bs|
  {
    if bs == [] then p else Run(Step(p, bs[0]), bs[1..])
  }

  lemma {:induction false} RunAppend(p: Parser, a: Bytes, b: Bytes)
    ensures Run(p, a + b) == Run(Run(p, a), b)
    decreases |a|
  {
    hide Step;
    if a == [] {
      assert a + b == b;
    } else {
      assert (a + b)[1..] == a[1..] + b;
      RunAppend(Step(p, a[0]), a[1..], b);
    }
  }

  lemma {:induction false} RunStopped(p: Parser, bs: Bytes)
    requires Stopped(p)
    ensures Run(p, bs) == p
    decreases |bs|
  {
    if bs != [] {
      RunStopped(p, bs[1..]);
    }
  }

  lemma RunOne(p: Parser, ch: Octet)
    ensures Run(p, [ch]) == Step(p, ch)
  {
    hide Step;
    assert Run(Step(p, ch), [ch][1..]) == Step(p, ch);
  }

  // ----- whole lines -----

  predicate OneLine(s: Bytes) {
    LF !in s
  }

  /** The parser after a line has come in, the line end still to come. */
  function WithLine(ph: Phase, line: Bytes): (r: Phase)
    requires ph.FirstLine? || ph.Headers? || ph.Trailer?
  {
    match ph
    case FirstLine(_) => FirstLine(line)
    case Headers(mode, _) => Headers(mode, line)
    case Trailer(_) => Trailer(line)
  }

  lemma {:induction false} RunLine(ph: Phase, m: Msg, line: Bytes, more: Bytes)
    requires ph.FirstLine? || ph.Headers? || ph.Trailer?
    requires OneLine(more)
    ensures Run(Parser(WithLine(ph, line), m), more) == Parser(WithLine(ph, line + more), m)
    decreases |more|
  {
    hide HeaderLine, FooterLine, StartLine, EndOfHeaders;
    if more == [] {
      assert line + more == line;
    } else {
      assert line + more == line + [more[0]] + more[1..];
      assert Step(Parser(WithLine(ph, line), m), more[0]) == Parser(WithLine(ph, line + [more[0]]), m);
      RunLine(ph, m, line + [more[0]], more[1..]);
    }
  }

  /** A line that ends in CR LF is taken without its line end. */
  lemma RunWholeLine(ph: Phase, m: Msg, line: Bytes)
    requires ph.FirstLine? || ph.Headers? || ph.Trailer?
    requires OneLine(line)
    ensures var p := Parser(WithLine(ph, line + [CR]), m);
      && Run(Parser(WithLine(ph, []), m), line + CRLF) == Step(p, LF)
      && StripCR(line + [CR]) == line
  {
    hide Step;
    var p := Parser(WithLine(ph, []), m);
    assert line + CRLF == line + [CR] + [LF];
    RunAppend(p, line + [CR], [LF]);
    assert OneLine(line + [CR]);
    RunLine(ph, m, [], line + [CR]);
    assert [] + (line + [CR]) == line + [CR];
    RunOne(Parser(WithLine(ph, line + [CR]), m), LF);
  }

  // ----- header and footer lines -----

  const COLON_SP: Bytes := ": "

  function PairText(kv: KeyValue): (r: Bytes) {
    kv.key + COLON_SP + kv.value + CRLF
  }

  function PairsText(kvs: seq<KeyValue>): (r: Bytes)
    decreases |kvs|
  {
    if kvs == [] then [] else PairText(kvs[0]) + PairsText(kvs[1..])
  }

  /** A field that a line can carry and give back. */
  predicate LineSafe(kv: KeyValue) {
    && IsTrimmed(kv.key) && ':' !in kv.key && OneLine(kv.key)
    && IsTrimmed(kv.value) && OneLine(kv.value)
  }

  predicate LinesSafe(kvs: seq<KeyValue>) {
    forall i :: 0 <= i < |kvs| ==> LineSafe(kvs[i])
  }

  lemma {:induction false} FindColonAfter(key: Bytes, rest: Bytes)
    ensures ':' !in key ==> FindColon(key + [':'] + rest) == |key|
    ensures ':' in key ==> FindColon(key + [':'] + rest) < |key|
  {
    var line := key + [':'] + rest;
    if key != [] {
      assert line[0] == key[0];
      assert line[1..] == key[1..] + [':'] + rest;
      FindColonAfter(key[1..], rest);
      assert ':' in key <==> key[0] == ':' || ':' in key[1..];
    }
  }

  lemma TrimSpace(value: Bytes)
    ensures Trimmed([SP] + value) == Trimmed(value)
  {
    assert ([SP] + value)[1..] == value;
  }

  /** The text of a field splits back into it exactly when the name is trimmed and has no colon
      and the value is trimmed. */
  lemma FieldSurvivesIff(kv: KeyValue)
    ensures var line := kv.key + COLON_SP + kv.value;
      && HasColon(line)
      && (Field(line) == kv <==> IsTrimmed(kv.key) && ':' !in kv.key && IsTrimmed(kv.value))
  {
    var line := kv.key + COLON_SP + kv.value;
    assert line == kv.key + [':'] + ([SP] + kv.value);
    FindColonAfter(kv.key, [SP] + kv.value);
    if ':' !in kv.key {
      assert line[..|kv.key|] == kv.key;
      assert line[|kv.key|+1..] == [SP] + kv.value;
      TrimSpace(kv.value);
    }
  }

  lemma RunHeader(mode: int, m: Msg, kv: KeyValue)
    requires LineSafe(kv)
    ensures Run(Parser(Headers(mode, []), m), PairText(kv))
         == Parser(Headers(ParsedMode(mode, kv), []),
                   if IsDropped(kv.key) then m else m.(headers := m.headers + [kv]))
  {
    hide Names, IsDropped, ParsedMode;
    var line := kv.key + COLON_SP + kv.value;
    FieldSurvivesIff(kv);
    RunWholeLine(Headers(mode, []), m, line);
    assert line[|kv.key|] == ':';
  }

  lemma RunFooter(m: Msg, kv: KeyValue)
    requires LineSafe(kv)
    ensures Run(Parser(Trailer([]), m), PairText(kv))
         == Parser(Trailer([]), m.(footers := m.footers + [kv]))
  {
    hide HeaderLine, StartLine, EndOfHeaders, Field, IsTrimmed;
    var line := kv.key + COLON_SP + kv.value;
    assert OneLine(line) by {
      hide Run, FooterLine;
    }
    FieldSurvivesIff(kv);
    RunWholeLine(Trailer([]), m, line);
    assert line[|kv.key|] == ':';
  }

  function Kept(kvs: seq<KeyValue>): (r: seq<KeyValue>)
    decreases |kvs|
  {
    if kvs == [] then []
    else (if IsDropped(kvs[0].key) then [] else [kvs[0]]) + Kept(kvs[1..])
  }

  lemma {:induction false} RunHeaders(mode: int, m: Msg, kvs: seq<KeyValue>)
    requires LinesSafe(kvs)
    ensures Run(Parser(Headers(mode, []), m), PairsText(kvs))
         == Parser(Headers(ParsedModes(mode, kvs), []), m.(headers := m.headers + Kept(kvs)))
    decreases |kvs|
  {
    hide IsDropped, ParsedMode, Step, PairText;
    if kvs == [] {
      assert m.headers + Kept(kvs) == m.headers;
    } else {
      var p := Parser(Headers(mode, []), m);
      RunAppend(p, PairText(kvs[0]), PairsText(kvs[1..]));
      RunHeader(mode, m, kvs[0]);
      var kept := if IsDropped(kvs[0].key) then [] else [kvs[0]];
      var m' := m.(headers := m.headers + kept);
      assert m.headers + [] == m.headers;
      RunHeaders(ParsedMode(mode, kvs[0]), m', kvs[1..]);
      assert m.headers + (kept + Kept(kvs[1..])) == m.headers + kept + Kept(kvs[1..]);
    }
  }

  lemma {:induction false} RunFooters(m: Msg, kvs: seq<KeyValue>)
    requires LinesSafe(kvs)
    ensures Run(Parser(Trailer([]), m), PairsText(kvs))
         == Parser(Trailer([]), m.(footers := m.footers + kvs))
    decreases |kvs|
  {
    hide Step, PairText, LineSafe;
    if kvs == [] {
      assert m.footers + kvs == m.footers;
    } else {
      hide Run;
      RunAppend(Parser(Trailer([]), m), PairText(kvs[0]), PairsText(kvs[1..]));
      RunFooter(m, kvs[0]);
      RunFooters(m.(footers := m.footers + [kvs[0]]), kvs[1..]);
      assert m.footers + kvs == m.footers + [kvs[0]] + kvs[1..];
    }
  }

  lemma RunEndOfHeaders(mode: int, m: Msg)
    ensures Run(Parser(Headers(mode, []), m), CRLF) == EndOfHeaders(mode, m)
  {
    RunWholeLine(Headers(mode, []), m, []);
    assert [] + CRLF == CRLF;
  }

  lemma RunEndOfTrailer(m: Msg)
    ensures Run(Parser(Trailer([]), m), CRLF) == Parser(Done, m.(stage := DONE))
  {
    RunWholeLine(Trailer([]), m, []);
    assert [] + CRLF == CRLF;
  }

  // ----- start lines -----

  const HTTP11: Bytes := "HTTP/1.1"
  const FIXME: Bytes := "FIXME"

  /** The name of a verb; a code that is in no table has none. */
  function VerbName(verb: nat): (name: Bytes) {
    if verb < Http.VERB_UNKNOWN then Http.VerbToA(verb) else []
  }

  function RequestText(m: Msg): (r: Bytes) {
    VerbName(m.verb) + [SP] + UrlEncoded(m.url) + [SP] + HTTP11
  }

  function ResponseText(m: Msg): (r: Bytes) {
    HTTP11 + [SP] + Dec(m.status) + [SP] + FIXME
  }

  /** The start line as it is read back. */
  function ReadStart(m: Msg): (r: Msg) {
    if m.isRequest then
      Blank(true).(verb := Http.AToVerb(VerbName(m.verb)), url := m.url)
    else Blank(false).(status := m.status)
  }

  lemma VerbSpaceFree(verb: nat)
    requires verb < Http.VERB_UNKNOWN
    ensures Http.VerbToA(verb) != [] && SpaceFree(Http.VerbToA(verb))
  {}

  lemma RequestLineRoundTrip(m: Msg, line: Bytes)
    requires m.isRequest && m.verb < Http.VERB_UNKNOWN && m.url != []
    requires line == RequestText(m)
    ensures OneLine(line) && line != []
    ensures RequestLine(Blank(true), line) == ReadStart(m)
  {
    hide Http.AToVerb, Http.VerbToA, UrlEncoded, UrlDecoded, SkipSpaces, SkipToken;
    var verb, url := Http.VerbToA(m.verb), UrlEncoded(m.url);
    VerbSpaceFree(m.verb);
    UrlRoundTrip(m.url);
    assert line == [] + verb + ([SP] + url + [SP] + HTTP11);
    TokenBetween([], verb, [SP] + url + [SP] + HTTP11);
    assert line == (verb + [SP]) + url + ([SP] + HTTP11);
    TokenBetween(verb + [SP], url, [SP] + HTTP11);
    forall i | 0 <= i < |line| ensures line[i] != LF {
      assert line[i] in verb || line[i] in url || line[i] == SP || line[i] in HTTP11;
    }
  }

  lemma ResponseLineRoundTrip(m: Msg, line: Bytes)
    requires !m.isRequest && -0x8000_0000 <= m.status < 0x8000_0000
    requires line == ResponseText(m)
    ensures OneLine(line) && line != []
    ensures ResponseLine(Blank(false), line) == ReadStart(m)
  {
    hide Dec, StrToLL, OutOfRange, SkipSpaces, SkipToken;
    var code := Dec(m.status);
    DecRoundTrip(m.status);
    assert line == [] + HTTP11 + ([SP] + code + [SP] + FIXME);
    TokenBetween([], HTTP11, [SP] + code + [SP] + FIXME);
    assert line == (HTTP11 + [SP]) + code + ([SP] + FIXME);
    TokenBetween(HTTP11 + [SP], code, [SP] + FIXME);
    ResponseOneLine(code);
  }

  lemma ResponseOneLine(code: Bytes)
    requires SpaceFree(code)
    ensures OneLine(HTTP11 + [SP] + code + [SP] + FIXME)
  {
    var line := HTTP11 + [SP] + code + [SP] + FIXME;
    forall i | 0 <= i < |line| ensures line[i] != LF {
      assert line[i] in HTTP11 || line[i] in code || line[i] == SP || line[i] in FIXME;
    }
  }

  function StartText(m: Msg): (r: Bytes) {
    (if m.isRequest then RequestText(m) else ResponseText(m)) + CRLF
  }

  lemma RunStartText(m: Msg)
    requires if m.isRequest then m.verb < Http.VERB_UNKNOWN && m.url != []
             else -0x8000_0000 <= m.status < 0x8000_0000
    ensures Run(Initial(m.isRequest), StartText(m))
         == Parser(Headers(ENTITY_UNKNOWN, []), ReadStart(m))
  {
    hide RequestText, ResponseText, RequestLine, ResponseLine, ReadStart;
    var line := if m.isRequest then RequestText(m) else ResponseText(m);
    if m.isRequest {
      RequestLineRoundTrip(m, line);
    } else {
      ResponseLineRoundTrip(m, line);
    }
    RunWholeLine(FirstLine([]), Blank(m.isRequest), line);
  }

  // ----- entities -----

  lemma {:induction false} RunFixed(m: Msg, left: nat, e: Bytes)
    requires 0 < |e| <= left
    ensures Run(Parser(Fixed(left), m), e)
         == (var m' := m.(entity := m.entity + e);
             if |e| == left then Parser(Done, m'.(stage := DONE)) else Parser(Fixed(left - |e|), m'))
    decreases |e|
  {
    assert m.entity + e == m.entity + [e[0]] + e[1..];
    if |e| == 1 {
      assert e[1..] == [];
    } else {
      RunFixed(m.(entity := m.entity + [e[0]]), left - 1, e[1..]);
    }
  }

  lemma {:induction false} RunChunkData(m: Msg, e: Bytes)
    ensures Run(Parser(ChunkData(|e|), m), e) == Parser(ChunkData(0), m.(entity := m.entity + e))
    decreases |e|
  {
    if e == [] {
      assert m.entity + e == m.entity;
    } else {
      assert m.entity + e == m.entity + [e[0]] + e[1..];
      RunChunkData(m.(entity := m.entity + [e[0]]), e[1..]);
    }
  }

  /** The accumulator inverts hexadecimal printing. */
  lemma {:induction false} RunHex(m: Msg, n: nat)
    ensures Run(Parser(ChunkSize(0), m), Hex(n)) == Parser(ChunkSize(n), m)
    decreases n
  {
    var d := IToHex(n % 16);
    if n < 16 {
      RunOne(Parser(ChunkSize(0), m), d);
    } else {
      RunHex(m, n / 16);
      RunAppend(Parser(ChunkSize(0), m), Hex(n / 16), [d]);
      RunOne(Parser(ChunkSize(n / 16), m), d);
    }
  }

  lemma RunSizeLine(m: Msg, n: nat)
    ensures Run(Parser(ChunkSize(0), m), Hex(n) + CRLF) == EndOfChunkSize(n, m)
  {
    hide Run, Hex, EndOfChunkSize;
    RunHex(m, n);
    RunAppend(Parser(ChunkSize(0), m), Hex(n), CRLF);
    SizeLineEnds(m, n);
  }

  lemma SizeLineEnds(m: Msg, n: nat)
    ensures Run(Parser(ChunkSize(n), m), CRLF) == EndOfChunkSize(n, m)
  {
    var p := Parser(ChunkSize(n), m);
    assert CRLF == [CR] + [LF];
    RunAppend(p, [CR], [LF]);
    RunOne(p, CR);
    RunOne(p, LF);
  }

  /** The size printed for a chunk is the size read back exactly below 2^32. */
  lemma SizeSurvivesIff(m: Msg, n: nat)
    ensures Run(Parser(ChunkSize(0), m), HexOfSize(n)) == Parser(ChunkSize(n), m) <==> n < 0x1_0000_0000
  {
    RunHex(m, n % 0x1_0000_0000);
  }

  // ----- chunk sizes read from other programs -----

  /** The size after the digits of a line, all other bytes being passed over. */
  function SizeTold(size: nat, line: Bytes): (n: nat)
    decreases |line|
  {
    if line == [] then size
    else SizeTold(if IsHex(line[0]) then ShiftOr(size, HexToI(line[0])) else size, line[1..])
  }

  /** The size by section 4.1 of RFC 7230, where only hexadecimal digits count. */
  function SizeMeant(size: nat, line: Bytes): (n: nat)
    decreases |line|
  {
    if line == [] then size
    else
      IsHexIff(line[0]);
      SizeMeant(if IsDigit16(line[0]) then size * 16 + HexToI(line[0]) else size, line[1..])
  }

  predicate NoMisread(line: Bytes) {
    forall i :: 0 <= i < |line| ==> !Misread(line[i])
  }

  /** A byte that passes for a digit makes the size too large for good. */
  lemma {:induction false} SizeOrder(told: nat, meant: nat, line: Bytes)
    requires told >= meant
    ensures SizeTold(told, line) >= SizeMeant(meant, line)
    ensures SizeTold(told, line) == SizeMeant(meant, line) <==> told == meant && NoMisread(line)
    decreases |line|
  {
    hide IsHex, IsDigit16, Misread, ShiftOr, HexToI;
    if line != [] {
      var ch := line[0];
      IsHexIff(ch);
      SizeOrder(if IsHex(ch) then ShiftOr(told, HexToI(ch)) else told,
                if IsDigit16(ch) then meant * 16 + HexToI(ch) else meant, line[1..]);
      assert NoMisread(line) <==> !Misread(ch) && NoMisread(line[1..]) by {
        assert forall i :: 0 < i < |line| ==> line[i] == line[1..][i-1];
        assert forall i :: 0 <= i < |line[1..]| ==> line[1..][i] == line[i+1];
      }
    }
  }

  lemma {:induction false} RunDigits(m: Msg, size: nat, line: Bytes)
    requires LF !in line && ';' !in line
    ensures Run(Parser(ChunkSize(size), m), line) == Parser(ChunkSize(SizeTold(size, line)), m)
    decreases |line|
  {
    hide IsHex, ShiftOr, HexToI;
    if line != [] {
      RunDigits(m, if IsHex(line[0]) then ShiftOr(size, HexToI(line[0])) else size, line[1..]);
    }
  }

  /** The size of a chunk is understood if and only if no byte before the extension or the line end
      is taken for a digit without being one. */
  lemma ChunkSizeRightIff(m: Msg, line: Bytes)
    requires LF !in line && ';' !in line
    ensures Run(Parser(ChunkSize(0), m), line) == Parser(ChunkSize(SizeMeant(0, line)), m) <==> NoMisread(line)
  {
    RunDigits(m, 0, line);
    SizeOrder(0, 0, line);
  }

  /** A size line "1G" is taken for 16 bytes instead of 1. */
  lemma MisreadSizeExample()
    ensures SizeTold(0, "1G") == 16 && SizeMeant(0, "1G") == 1
  {
    var line: Bytes := "1G";
    assert line[1..] == "G" && line[1..][1..] == [];
  }

  function ChunkText(e: Bytes): (r: Bytes) {
    HexOfSize(|e|) + CRLF + e + CRLF
  }

  const LAST_CHUNK: Bytes := "0\r\n"

  /** A chunk of fewer than 2^32 bytes is read back whole. */
  lemma RunChunk(m: Msg, e: Bytes)
    requires 0 < |e| < 0x1_0000_0000
    ensures Run(Parser(ChunkSize(0), m), ChunkText(e))
         == Parser(ChunkSize(0), m.(entity := m.entity + e))
  {
    hide Hex;
    var p := Parser(ChunkSize(0), m);
    var size := Hex(|e|) + CRLF;
    assert ChunkText(e) == size + e + [CR] + [LF];
    RunAppend(p, size + e + [CR], [LF]);
    RunAppend(p, size + e, [CR]);
    RunAppend(p, size, e);
    RunSizeLine(m, |e|);
    RunChunkData(m, e);
    var q := Parser(ChunkData(0), m.(entity := m.entity + e));
    RunOne(q, CR);
    RunOne(q, LF);
  }

  lemma RunLastChunk(m: Msg)
    ensures Run(Parser(ChunkSize(0), m), LAST_CHUNK) == Parser(Trailer([]), m.(stage := FOOTER))
  {
    RunSizeLine(m, 0);
    assert Hex(0) + CRLF == LAST_CHUNK;
  }

  // ----- a parser fills its message legally -----

  /** The start line is blank until it has been read. */
  predicate WellBegun(p: Parser) {
    && (p.phase.FirstLine? ==> p.msg == Blank(p.msg.isRequest))
    && (match p.phase
        case Headers(_, _) => p.msg.stage == HEADER
        case Fixed(_) => p.msg.stage == ENTITY
        case ChunkSize(_) => p.msg.stage == ENTITY
        case ChunkExtension(_) => p.msg.stage == ENTITY
        case ChunkData(_) => p.msg.stage == ENTITY
        case Trailer(_) => p.msg.stage == FOOTER
        case _ => true)
  }

  lemma StepFills(p: Parser, ch: Octet)
    requires WellBegun(p)
    ensures WellBegun(Step(p, ch)) && FilledTo(p.msg, Step(p, ch).msg)
  {
    hide FilledTo, StartLine, HeaderLine, FooterLine, EndOfHeaders, EndOfChunkSize, IsHex, ShiftOr, HexToI, StripCR;
    var m := p.msg;
    FilledToItself(m);
    match p.phase
    case FirstLine(line) =>
      if ch == LF && StripCR(line) != [] { StartLineFills(m, StripCR(line)); }
    case Headers(mode, line) =>
      if ch == LF {
        if StripCR(line) == [] { EndOfHeadersFills(mode, m); } else { HeaderLineFills(mode, m, StripCR(line)); }
      }
    case Fixed(left) =>
      var m' := m.(entity := m.entity + [ch]);
      EntityFills(m, [ch]);
      StageFills(m', DONE);
      FilledToTransitive(m, m', m'.(stage := DONE));
    case ChunkSize(size) => EndOfChunkSizeFills(size, m);
    case ChunkExtension(size) => EndOfChunkSizeFills(size, m);
    case ChunkData(left) => EntityFills(m, [ch]);
    case Trailer(line) =>
      StageFills(m, DONE);
      if ch == LF && StripCR(line) != [] { FooterLineFills(m, StripCR(line)); }
    case Done =>
  }

  lemma StartLineFills(m: Msg, line: Bytes)
    requires m == Blank(m.isRequest)
    ensures FilledTo(m, StartLine(m, line)) && StartLine(m, line).stage == HEADER
  {
    hide FilledTo, Http.AToVerb, Token, UrlDecoded, StrToLL, ToInt32;
    var m' := StartLine(m, line);
    StartFills(m, m'.verb, m'.url, m'.status);
    assert m' == m.(verb := m'.verb, url := m'.url, status := m'.status);
  }

  lemma HeaderLineFills(mode: int, m: Msg, line: Bytes)
    requires m.stage == HEADER
    ensures FilledTo(m, HeaderLine(mode, m, line).1)
  {
    hide FilledTo, FindColon, Field, IsDropped, ParsedMode;
    FilledToItself(m);
    if HasColon(line) {
      HeaderFills(m, Field(line));
    }
  }

  lemma FooterLineFills(m: Msg, line: Bytes)
    requires m.stage == FOOTER
    ensures FilledTo(m, FooterLine(m, line))
  {
    hide FilledTo, FindColon, Field;
    FilledToItself(m);
    if HasColon(line) {
      FooterFills(m, Field(line));
    }
  }

  lemma EndOfHeadersFills(mode: int, m: Msg)
    requires m.stage == HEADER
    ensures FilledTo(m, EndOfHeaders(mode, m).msg) && WellBegun(EndOfHeaders(mode, m))
  {
    hide FilledTo;
    StageFills(m, DONE);
    StageFills(m, ENTITY);
  }

  lemma EndOfChunkSizeFills(size: nat, m: Msg)
    requires m.stage == ENTITY
    ensures FilledTo(m, EndOfChunkSize(size, m).msg) && WellBegun(EndOfChunkSize(size, m))
  {
    hide FilledTo;
    FilledToItself(m);
    StageFills(m, FOOTER);
  }

  /** Whatever bytes a reader is given, what it does to its message is a legal filling. */
  lemma {:induction false} RunFills(p: Parser, bs: Bytes)
    requires WellBegun(p)
    ensures WellBegun(Run(p, bs)) && FilledTo(p.msg, Run(p, bs).msg)
    decreases |bs|
  {
    hide Step, WellBegun, FilledTo;
    if bs == [] {
      FilledToItself(p.msg);
    } else {
      StepFills(p, bs[0]);
      RunFills(Step(p, bs[0]), bs[1..]);
      FilledToTransitive(p.msg, Step(p, bs[0]).msg, Run(p, bs).msg);
    }
  }
}
