/** From end to end: a message printed in one format, cut up on the way and read again, and a
    message that goes from HTTP/1.1 to GNY and back through two proxies. */
module Transcoding {
  import opened Octets
  import opened Messages
  import Common
  import G = GnyFormat
  import GnySink
  import GnySource
  import Sockets
  import H = Http11Format
  import Http
  import Http11Lengths
  import Http11Sink
  import Http11Source
  import MessageCopier

  // ----- one hop -----

  /** GNY: however the message is filled, drained and sent, and however the stream is cut into
      reads that cut cleanly, the reader gets the message and leaves what is behind it. */
  lemma GnyEndToEnd(
    isRequest: bool, events: seq<GnySink.Event>, c: GnySink.Channel, rest: Bytes, sizes: seq<nat>)
    requires GnySink.Reaches(GnySink.Opened(isRequest), events + [GnySink.Look], c)
    requires c.added.stage == DONE && GnySink.Ready(c.added) && GnySink.Safe(c.added)
    requires var wire := c.sent + c.printer.data;
      GnySource.CleanCuts(G.Initial(isRequest), wire + rest, sizes) && Sockets.Total(sizes) >= |wire|
    ensures GnySource.Session(GnySource.Reader(G.Initial(isRequest), 0), c.sent + c.printer.data + rest, sizes)
      == (GnySource.Reader(G.Gny(G.Done, GnySink.Decoded(c.added)), 0), rest)
  {
    hide G.Run, GnySink.Decoded, GnySink.Reaches, GnySource.CleanCuts, GnySink.Safe;
    GnySink.PrintedDecodes(isRequest, events, c);
    GnySource.SessionReadsMessage(G.Initial(isRequest), c.sent + c.printer.data, rest, sizes);
  }

  /** HTTP/1.1: the same, for any cutting at all. */
  lemma Http11EndToEnd(
    isRequest: bool, events: seq<Http11Sink.Event>, c: Http11Sink.Channel, rest: Bytes, sizes: seq<nat>)
    requires Http11Sink.Reaches(Http11Sink.Opened(isRequest), events + [Http11Sink.Look], c)
    requires c.added.stage == DONE && StartKnown(c.added) && Http11Sink.Safe(c.added)
    requires Sockets.Total(sizes) >= |c.sent + c.printer.data|
    ensures c.added.isRequest ==> c.added.verb < Http.VERB_UNKNOWN
    ensures Http11Source.Session(H.Initial(isRequest), c.sent + c.printer.data + rest, sizes)
      == (H.Parser(H.Done, Http11Sink.ReadBack(c.added)), rest)
  {
    hide H.Run, Http11Sink.ReadBack, Http11Sink.Reaches, H.Initial, Http11Sink.Safe;
    Http11Sink.PrintedParses(isRequest, events, c);
    Http11Source.SessionReadsMessage(H.Initial(isRequest), c.sent + c.printer.data, rest, sizes);
  }

  // ----- what a parsed HTTP/1.1 message looks like -----

  predicate NoneDropped(kvs: seq<KeyValue>) {
    forall i :: 0 <= i < |kvs| ==> !H.IsDropped(kvs[i].key)
  }

  /** The part of the start line that the other kind of message uses is blank, and a verb that was
      found is found again by its own name. */
  predicate OneKind(m: Msg) {
    if m.isRequest then
      m.status == -1 && (m.verb < Http.VERB_UNKNOWN ==> Http.AToVerb(Http.VerbToA(m.verb)) == m.verb)
    else m.verb == Http.VERB_UNKNOWN && m.url == []
  }

  predicate LineOf(ph: H.Phase) {
    match ph
    case FirstLine(line) => H.OneLine(line)
    case Headers(_, line) => H.OneLine(line)
    case Trailer(line) => H.OneLine(line)
    case _ => true
  }

  predicate Shaped(p: H.Parser) {
    && LineOf(p.phase) && OneKind(p.msg) && (p.phase.Done? ==> p.msg.stage == DONE)
    && H.LinesSafe(p.msg.headers) && NoneDropped(p.msg.headers) && H.LinesSafe(p.msg.footers)
  }

  lemma FieldSafe(line: Bytes)
    requires H.OneLine(line) && H.HasColon(line)
    ensures H.LineSafe(H.Field(line))
  {
    var colon := H.FindColon(line);
    var kv := H.Field(line);
    assert forall c :: c in kv.key ==> c in line[..colon];
    assert forall c :: c in line[..colon] ==> c in line && c != ':';
    assert forall c :: c in kv.value ==> c in line[colon+1..];
    assert forall c :: c in line[colon+1..] ==> c in line;
  }

  lemma {:induction false} CompareFolded(a: Bytes, b: Bytes, c: Bytes)
    requires FoldAll(a) == FoldAll(b)
    ensures Compare(a, c) == Compare(b, c)
  {
    assert |FoldAll(a)| == |a| && |FoldAll(b)| == |b|;
    if a != [] && c != [] {
      assert Fold(a[0]) == FoldAll(a)[0] == FoldAll(b)[0] == Fold(b[0]);
      assert FoldAll(a[1..]) == FoldAll(a)[1..] && FoldAll(b[1..]) == FoldAll(b)[1..];
      CompareFolded(a[1..], b[1..], c[1..]);
    }
  }

  lemma {:induction false} SearchFolded(a: Bytes, b: Bytes, table: seq<Bytes>, low: nat, high: nat)
    requires FoldAll(a) == FoldAll(b) && low <= high <= |table|
    ensures Http.Search(a, table, low, high) == Http.Search(b, table, low, high)
    decreases high - low
  {
    if low < high {
      var mid := (high + low) / 2;
      CompareFolded(a, b, table[mid]);
      SearchFolded(a, b, table, low, mid);
      SearchFolded(a, b, table, mid + 1, high);
    }
  }

  /** A verb that the search has found is one that it finds by its own name. */
  lemma FoundVerb(key: Bytes)
    requires Http.AToVerb(key) < Http.VERB_UNKNOWN
    ensures Http.AToVerb(Http.VerbToA(Http.AToVerb(key))) == Http.AToVerb(key)
  {
    var name := Http.VerbToA(Http.AToVerb(key));
    Http.VerbNulFree(Http.AToVerb(key));
    CStrIdentity(name);
    CompareZero(CStr(key), name);
    SearchFolded(CStr(key), name, Http.VERB_STRINGS, 0, |Http.VERB_STRINGS|);
  }

  lemma StartKeepsKind(m: Msg, line: Bytes)
    requires OneKind(m)
    ensures OneKind(H.StartLine(m, line))
    ensures H.StartLine(m, line).headers == m.headers && H.StartLine(m, line).footers == m.footers
  {
    hide Http.AToVerb, Http.VerbToA, Common.UrlDecoded, Common.StrToLL, Common.SkipSpaces, Common.SkipToken;
    if m.isRequest {
      var verb := Common.Token(line, 0).0;
      if Http.AToVerb(verb) < Http.VERB_UNKNOWN {
        FoundVerb(verb);
      }
    }
  }

  lemma StepShaped(p: H.Parser, ch: Octet)
    requires Shaped(p)
    ensures Shaped(H.Step(p, ch))
  {
    hide H.IsDropped, H.StartLine, H.LineSafe, H.ParsedMode, OneKind, H.FindColon, H.Field, H.EndOfChunkSize;
    match p.phase
    case FirstLine(line) =>
      if ch == LF { StartKeepsKind(p.msg, H.StripCR(line)); }
    case Headers(mode, line) =>
      if ch == LF {
        KindIgnores(p.msg);
        if H.HasColon(H.StripCR(line)) { FieldSafe(H.StripCR(line)); }
      }
    case Trailer(line) =>
      if ch == LF {
        KindIgnores(p.msg);
        if H.HasColon(H.StripCR(line)) { FieldSafe(H.StripCR(line)); }
      }
    case ChunkSize(size) => SizeShaped(p, size);
    case ChunkExtension(size) => SizeShaped(p, size);
    case _ => KindIgnores(p.msg);
  }

  lemma SizeShaped(p: H.Parser, size: nat)
    requires Shaped(p)
    ensures Shaped(H.EndOfChunkSize(size, p.msg))
  {
    hide H.IsDropped, H.LineSafe;
  }

  lemma KindIgnores(m: Msg)
    requires OneKind(m)
    ensures forall hs, e, fs, s :: OneKind(m.(headers := hs, entity := e, footers := fs, stage := s))
  {
    hide Http.AToVerb, Http.VerbToA;
  }

  lemma {:induction false} RunShaped(p: H.Parser, w: Bytes)
    requires Shaped(p)
    ensures Shaped(H.Run(p, w))
    decreases |w|
  {
    hide H.Step, Shaped;
    if w != [] {
      StepShaped(p, w[0]);
      RunShaped(H.Step(p, w[0]), w[1..]);
    }
  }

  /** Whatever the bytes, the fields of a parsed message fit on a line, none of its headers is
      hop-by-hop, and its verb, if known, prints and parses back. */
  lemma ParsedIsShaped(isRequest: bool, w: Bytes)
    ensures Shaped(H.Run(H.Initial(isRequest), w))
  {
    assert Shaped(H.Initial(isRequest));
    RunShaped(H.Initial(isRequest), w);
  }

  // ----- the length of a message that was never chunked -----

  /** No header of the message asks for chunks. */
  predicate NeverChunked(p: H.Parser, w: Bytes)
    decreases |w|
  {
    && !(p.phase.Headers? && p.phase.mode == H.ENTITY_CHUNKED)
    && (w == [] || NeverChunked(H.Step(p, w[0]), w[1..]))
  }

  /** While the message is parsed without chunks, its framing is what its headers say. */
  predicate LengthSoFar(p: H.Parser) {
    var mode := H.ParsedModes(H.ENTITY_UNKNOWN, p.msg.headers);
    match p.phase
    case FirstLine(_) => p.msg.headers == [] && p.msg.entity == []
    case Headers(m, _) => m == mode && p.msg.entity == []
    case Fixed(left) => left > 0 && |p.msg.entity| + left == mode
    case Done => (mode >= 0 ==> |p.msg.entity| == mode) && (mode == H.ENTITY_UNKNOWN ==> p.msg.entity == [])
    case _ => mode < H.ENTITY_UNKNOWN
  }

  lemma StepLength(p: H.Parser, ch: Octet)
    requires LengthSoFar(p)
    requires !(H.Step(p, ch).phase.Headers? && H.Step(p, ch).phase.mode == H.ENTITY_CHUNKED)
    ensures LengthSoFar(H.Step(p, ch))
  {
    hide H.ParsedModes, H.StartLine, H.FindColon, H.Field, H.IsDropped, H.ParsedMode;
    match p.phase
    case FirstLine(line) =>
      if ch == LF && H.StripCR(line) != [] {
        StartAddsNothing(p.msg, H.StripCR(line));
      }
    case Headers(mode, line) =>
      if ch == LF && H.StripCR(line) != [] && H.HasColon(H.StripCR(line)) {
        var kv := H.Field(H.StripCR(line));
        Http11Sink.ParsedModesAppend(H.ENTITY_UNKNOWN, p.msg.headers, kv);
        if H.IsDropped(kv.key) {
          DroppedMode(mode, kv);
        }
      }
    case _ =>
  }

  lemma StartAddsNothing(m: Msg, line: Bytes)
    ensures H.StartLine(m, line).headers == m.headers && H.StartLine(m, line).entity == m.entity
    ensures H.ParsedModes(H.ENTITY_UNKNOWN, []) == H.ENTITY_UNKNOWN
  {
    hide Http.AToVerb, Common.UrlDecoded, Common.StrToLL, Common.SkipSpaces, Common.SkipToken;
  }

  /** A header that is dropped settles the framing only if it asks for chunks. */
  lemma DroppedMode(mode: int, kv: KeyValue)
    requires H.IsDropped(kv.key)
    ensures H.ParsedMode(mode, kv) == mode || H.ParsedMode(mode, kv) == H.ENTITY_CHUNKED
  {
    hide Common.StrToLL, H.IsDropped;
    if Names(kv.key, H.CONTENT_LENGTH) {
      Http11Source.LengthKept(kv.key);
    }
  }

  lemma {:induction false} RunLength(p: H.Parser, w: Bytes)
    requires LengthSoFar(p) && NeverChunked(p, w)
    ensures LengthSoFar(H.Run(p, w))
    decreases |w|
  {
    hide H.Step, LengthSoFar;
    if w != [] {
      StepLength(p, w[0]);
      RunLength(H.Step(p, w[0]), w[1..]);
    }
  }

  /** A message without a header that asks for chunks has exactly the entity that its content
      length announces, or none. */
  lemma LengthAgrees(isRequest: bool, w: Bytes)
    requires NeverChunked(H.Initial(isRequest), w)
    requires H.Run(H.Initial(isRequest), w).phase.Done?
    ensures var m := H.Run(H.Initial(isRequest), w).msg;
      var mode := H.ParsedModes(H.ENTITY_UNKNOWN, m.headers);
      && (mode >= 0 ==> |m.entity| == mode) && (mode == H.ENTITY_UNKNOWN ==> m.entity == [])
  {
    hide H.ParsedModes;
    RunLength(H.Initial(isRequest), w);
  }

  // ----- names in the other format -----

  /** Two bytes mean the same to a parser of header lines. */
  predicate SameMark(a: Octet, b: Octet) {
    IsSpace(a) == IsSpace(b) && (a == ':') == (b == ':') && (a == LF) == (b == LF)
  }

  lemma CanonChars(key: Bytes)
    requires NulFree(key)
    ensures var name := Http.Canon(key);
      |name| == |key|
      && forall i :: 0 <= i < |key| ==> SameMark(name[i], key[i])
  {
    hide Http.Canon;
    Http.CanonFolds(key);
    var name := Http.Canon(key);
    assert |FoldAll(name)| == |name| && |FoldAll(key)| == |key|;
    forall i | 0 <= i < |key| ensures SameMark(name[i], key[i]) {
      assert Fold(name[i]) == FoldAll(name)[i] == FoldAll(key)[i] == Fold(key[i]);
    }
  }

  lemma CanonLine(kv: KeyValue)
    requires NulFree(kv.key) && H.LineSafe(kv)
    ensures H.LineSafe(G.CanonPair(kv))
  {
    hide Http.Canon;
    CanonChars(kv.key);
  }

  lemma CanonNames(key: Bytes, name: Bytes)
    requires NulFree(key)
    ensures Names(Http.Canon(key), name) == Names(key, name)
  {
    hide Http.Canon;
    Http.CanonFolds(key);
    NamesFolded(Http.Canon(key), key, name);
  }

  /** A header survives compression to a code as the same header: it fits on a line, is passed on
      and frames the entity just as before. */
  lemma CanonSame(kv: KeyValue, mode: int)
    requires G.PairSafe(kv)
    ensures H.LineSafe(kv) ==> H.LineSafe(G.CanonPair(kv))
    ensures H.IsDropped(G.CanonPair(kv).key) == H.IsDropped(kv.key)
    ensures H.PrintedMode(mode, G.CanonPair(kv)) == H.PrintedMode(mode, kv)
    ensures H.ParsedMode(mode, G.CanonPair(kv)) == H.ParsedMode(mode, kv)
  {
    hide Http.Canon, Names, Common.StrToLL, Common.OutOfRange, H.LineSafe;
    if H.LineSafe(kv) {
      CanonLine(kv);
    }
    CanonNames(kv.key, H.TRANSFER_ENCODING);
    CanonNames(kv.key, "Connection");
    CanonNames(kv.key, "Proxy-Connection");
    CanonNames(kv.key, "Keep-Alive");
    CanonNames(kv.key, "TE");
    CanonNames(kv.key, "Trailer");
    CanonNames(kv.key, H.CONTENT_LENGTH);
  }

  lemma {:induction false} CanonModes(mode: int, kvs: seq<KeyValue>)
    requires G.PairsSafe(kvs)
    ensures H.PrintedModes(mode, G.CanonPairs(kvs)) == H.PrintedModes(mode, kvs)
    decreases |kvs|
  {
    hide H.PrintedMode, H.ParsedMode, Http.Canon;
    if kvs != [] {
      CanonSame(kvs[0], mode);
      G.CanonPairsFirst(kvs);
      var rest := G.CanonPairs(kvs[1..]);
      assert ([G.CanonPair(kvs[0])] + rest)[1..] == rest;
      CanonModes(H.PrintedMode(mode, kvs[0]), kvs[1..]);
    }
  }

  lemma {:induction false} CanonParsedModes(mode: int, kvs: seq<KeyValue>)
    requires G.PairsSafe(kvs)
    ensures H.ParsedModes(mode, G.CanonPairs(kvs)) == H.ParsedModes(mode, kvs)
    decreases |kvs|
  {
    hide H.PrintedMode, H.ParsedMode, Http.Canon;
    if kvs != [] {
      CanonSame(kvs[0], mode);
      G.CanonPairsFirst(kvs);
      var rest := G.CanonPairs(kvs[1..]);
      assert ([G.CanonPair(kvs[0])] + rest)[1..] == rest;
      CanonParsedModes(H.ParsedMode(mode, kvs[0]), kvs[1..]);
    }
  }

  lemma {:induction false} KeptAll(kvs: seq<KeyValue>)
    requires NoneDropped(kvs)
    ensures H.Kept(kvs) == kvs
    decreases |kvs|
  {
    hide H.IsDropped;
    if kvs != [] {
      KeptAll(kvs[1..]);
      assert kvs == [kvs[0]] + kvs[1..];
    }
  }

  lemma CanonNoneDropped(kvs: seq<KeyValue>)
    requires NoneDropped(kvs) && G.PairsSafe(kvs)
    ensures NoneDropped(G.CanonPairs(kvs))
  {
    hide H.IsDropped, Http.Canon;
    forall i | 0 <= i < |kvs| ensures !H.IsDropped(G.CanonPairs(kvs)[i].key) {
      CanonSame(kvs[i], 0);
    }
  }

  // ----- from HTTP/1.1 to GNY and back -----

  /** The message with the header names that have a code in lower case. */
  function Lowered(m: Msg): (r: Msg) {
    m.(headers := G.CanonPairs(m.headers), footers := G.CanonPairs(m.footers))
  }

  /** The message after GNY and then HTTP/1.1 have carried it. */
  function Transcoded(m: Msg): (r: Msg)
    requires m.isRequest ==> m.verb < Http.VERB_UNKNOWN
  {
    hide G.CanonPairs;
    Http11Sink.ReadBack(GnySink.Decoded(m))
  }

  /** A parsed message that GNY carries unchanged comes back as the same message up to the case of
      names, if and only if it has no footers or is framed by chunks again, which is to say that
      it has an entity and no content length. */
  lemma TranscodedIff(m: Msg)
    requires OneKind(m) && NoneDropped(m.headers)
    requires G.PairsSafe(m.headers) && G.PairsSafe(m.footers)
    requires StartKnown(m) && (!m.isRequest ==> 0 <= m.status <= 65534)
    requires m.isRequest ==> m.verb < Http.VERB_UNKNOWN
    ensures Transcoded(m) == Lowered(m) <==>
      m.footers == [] || Http11Sink.Framing(m) == H.ENTITY_CHUNKED
  {
    hide Http.AToVerb, Http.VerbToA, H.PrintedModes, H.Kept, Http.Canon;
    var d := GnySink.Decoded(m);
    CanonNoneDropped(m.headers);
    KeptAll(d.headers);
    CanonModes(H.ENTITY_UNKNOWN, m.headers);
    assert Http11Sink.Framing(d) == Http11Sink.Framing(m);
    assert G.CanonPairs(m.footers) == [] <==> m.footers == [];
  }

  /** The destination of a copy keeps the other kind's part of the start line blank. */
  predicate DestinationKind(l: MessageCopier.Link) {
    if l.dst.isRequest then l.dst.status == -1 else l.dst.verb == Http.VERB_UNKNOWN && l.dst.url == []
  }

  lemma {:induction false} RunKind(l: MessageCopier.Link, events: seq<MessageCopier.Event>, l': MessageCopier.Link)
    requires DestinationKind(l) && MessageCopier.Reaches(l, events, l')
    ensures DestinationKind(l')
    decreases |events|
  {
    hide Fills;
    if events != [] {
      RunKind(MessageCopier.Next(l, events[0]), events[1..], l');
    }
  }

  /** A copy that has caught up holds the very same message, field by field. */
  lemma CopiedWhole(isRequest: bool, events: seq<MessageCopier.Event>, l: MessageCopier.Link)
    requires MessageCopier.Reaches(MessageCopier.Opened(isRequest), events, l)
    requires OneKind(l.srcAdded)
    ensures MessageCopier.Next(l, MessageCopier.Copy).dstAdded == l.srcAdded
  {
    hide MessageCopier.Copied, MessageCopier.Left, Suffix, Http.AToVerb, Http.VerbToA;
    var l' := MessageCopier.Next(l, MessageCopier.Copy);
    RunKind(MessageCopier.Opened(isRequest), events, l);
    RunKind(l, [MessageCopier.Copy], l');
    MessageCopier.CopyCatchesUp(isRequest, events, l);
    MessageCopier.RunConserves(MessageCopier.Opened(isRequest), events, l);
    MessageCopier.CopyConserves(l);
  }

  lemma DecodedKind(m: Msg)
    requires OneKind(m) && (m.isRequest ==> m.verb < Http.VERB_UNKNOWN)
    requires StartKnown(m) && (!m.isRequest ==> 0 <= m.status <= 65534)
    ensures var d := GnySink.Decoded(m);
      OneKind(d) && StartKnown(d) && d.stage == m.stage && d.isRequest == m.isRequest
  {
    hide Http.AToVerb, Http.VerbToA;
  }

  /** What the text of a message must be like for two proxies to carry it: a start line that both
      formats can express, no NUL in its fields, no content length out of the range of a long, and
      less than 4 GB. */
  predicate Portable(isRequest: bool, text: Bytes) {
    var m := H.Run(H.Initial(isRequest), text).msg;
    && StartKnown(m)
    && (if isRequest then m.verb < Http.VERB_UNKNOWN else 0 <= m.status <= 65534)
    && GnySink.Safe(m) && |m.entity| < 0x1_0000_0000
    && !H.FirstOut(m.headers)
  }

  /** The framing that the headers of a parsed message ask for: their content length, or one of the
      two numbers that stand for something else. A request for chunks is no longer among them. */
  function LengthAsked(m: Msg): (mode: int) {
    H.ParsedModes(H.ENTITY_UNKNOWN, m.headers)
  }

  /** The content length, if there is one, is that of the entity. */
  predicate LengthRight(m: Msg) {
    LengthAsked(m) == H.ENTITY_UNKNOWN || LengthAsked(m) == H.ENTITY_CHUNKED || LengthAsked(m) == |m.entity|
  }

  /** Only a message that has come in chunks and announced a length all the same, or one below zero,
      can have a wrong one. */
  lemma WrongLengthIsChunked(isRequest: bool, text: Bytes)
    requires Http11Source.Complete(H.Initial(isRequest), text)
    requires !LengthRight(H.Run(H.Initial(isRequest), text).msg)
    ensures !NeverChunked(H.Initial(isRequest), text) || LengthAsked(H.Run(H.Initial(isRequest), text).msg) < 0
  {
    hide H.Run, NeverChunked, H.ParsedModes, H.Initial;
    if NeverChunked(H.Initial(isRequest), text) {
      LengthAgrees(isRequest, text);
    }
  }

  /** The headers of a portable text whose length is right frame its entity. */
  lemma RightFrames(isRequest: bool, text: Bytes)
    requires Http11Source.Complete(H.Initial(isRequest), text) && Portable(isRequest, text)
    requires LengthRight(H.Run(H.Initial(isRequest), text).msg)
    ensures Http11Sink.Frames(H.Run(H.Initial(isRequest), text).msg)
  {
    hide H.Run, H.ParsedModes, H.PrintedModes, H.FirstOut, H.AnyAsksChunks, H.Initial, GnySink.Safe;
    H.AllModesAgreeIff(H.Run(H.Initial(isRequest), text).msg.headers);
  }

  lemma CanonLinesSafe(kvs: seq<KeyValue>)
    requires H.LinesSafe(kvs) && G.PairsSafe(kvs)
    ensures H.LinesSafe(G.CanonPairs(kvs))
  {
    hide H.LineSafe, Http.Canon, G.CanonPair;
    forall i | 0 <= i < |kvs| ensures H.LineSafe(G.CanonPairs(kvs)[i]) {
      CanonSame(kvs[i], 0);
    }
  }

  /** A portable message whose length is right, carried by GNY, is safe for the HTTP/1.1 printer. */
  lemma SafeAfterHop(isRequest: bool, text: Bytes)
    requires Http11Source.Complete(H.Initial(isRequest), text) && Portable(isRequest, text)
    requires LengthRight(H.Run(H.Initial(isRequest), text).msg)
    ensures Http11Sink.Safe(GnySink.Decoded(H.Run(H.Initial(isRequest), text).msg))
  {
    hide H.Run, H.ParsedModes, H.PrintedModes, H.Initial, OneKind, NoneDropped, H.FirstOut;
    hide H.LinesSafe, G.PairsSafe, G.CanonPairs;
    var m := H.Run(H.Initial(isRequest), text).msg;
    ParsedIsShaped(isRequest, text);
    RightFrames(isRequest, text);
    CanonLinesSafe(m.headers);
    CanonLinesSafe(m.footers);
    CanonModes(H.ENTITY_UNKNOWN, m.headers);
    CanonParsedModes(H.ENTITY_UNKNOWN, m.headers);
    ParsedKind(isRequest, text);
  }

  /** A portable message with a wrong content length still announces it behind GNY. */
  lemma AnnouncedAfterHop(isRequest: bool, text: Bytes)
    requires Http11Source.Complete(H.Initial(isRequest), text) && Portable(isRequest, text)
    requires !LengthRight(H.Run(H.Initial(isRequest), text).msg)
    ensures var m := H.Run(H.Initial(isRequest), text).msg;
      Http11Lengths.Announces(GnySink.Decoded(m), LengthAsked(m))
  {
    hide H.Run, H.ParsedModes, H.PrintedModes, H.Initial, OneKind, NoneDropped, H.FirstOut, H.AnyAsksChunks;
    hide H.LinesSafe, G.PairsSafe, G.CanonPairs;
    var m := H.Run(H.Initial(isRequest), text).msg;
    ParsedIsShaped(isRequest, text);
    H.AllModesAgreeIff(m.headers);
    CanonLinesSafe(m.headers);
    CanonModes(H.ENTITY_UNKNOWN, m.headers);
    CanonParsedModes(H.ENTITY_UNKNOWN, m.headers);
    ParsedKind(isRequest, text);
  }

  lemma ParsedKind(isRequest: bool, text: Bytes)
    ensures H.Run(H.Initial(isRequest), text).msg.isRequest == isRequest
  {
    hide H.Run, FilledTo;
    H.RunFills(H.Initial(isRequest), text);
    FilledKind(Blank(isRequest), H.Run(H.Initial(isRequest), text).msg);
  }

  lemma FilledKind(m: Msg, m': Msg)
    requires FilledTo(m, m')
    ensures m'.isRequest == m.isRequest
  {}

  /** The first proxy reads a text and copies it to a GNY printer, the second reads what that emits
      and copies it to an HTTP/1.1 printer, whatever the schedules. */
  ghost predicate CarriedTwice(
    isRequest: bool, text: Bytes,
    copies: seq<MessageCopier.Event>, l: MessageCopier.Link,
    events: seq<GnySink.Event>, c: GnySink.Channel,
    copies': seq<MessageCopier.Event>, l': MessageCopier.Link,
    events': seq<Http11Sink.Event>, c': Http11Sink.Channel)
  {
    && MessageCopier.Reaches(MessageCopier.Opened(isRequest), copies, l)
    && l.srcAdded == H.Run(H.Initial(isRequest), text).msg
    && GnySink.Reaches(GnySink.Opened(isRequest), events + [GnySink.Look], c)
    && c.added == MessageCopier.Next(l, MessageCopier.Copy).dstAdded
    && MessageCopier.Reaches(MessageCopier.Opened(isRequest), copies', l')
    && l'.srcAdded == G.Run(G.Initial(isRequest), c.sent + c.printer.data).msg
    && Http11Sink.Reaches(Http11Sink.Opened(isRequest), events' + [Http11Sink.Look], c')
    && c'.added == MessageCopier.Next(l', MessageCopier.Copy).dstAdded
  }

  /** What reaches the second HTTP/1.1 printer is what GNY makes of the text. */
  lemma ArrivesDecoded(
    isRequest: bool, text: Bytes,
    copies: seq<MessageCopier.Event>, l: MessageCopier.Link,
    events: seq<GnySink.Event>, c: GnySink.Channel,
    copies': seq<MessageCopier.Event>, l': MessageCopier.Link,
    events': seq<Http11Sink.Event>, c': Http11Sink.Channel)
    requires Http11Source.Complete(H.Initial(isRequest), text) && Portable(isRequest, text)
    requires CarriedTwice(isRequest, text, copies, l, events, c, copies', l', events', c')
    ensures var m := H.Run(H.Initial(isRequest), text).msg;
      && c'.added == GnySink.Decoded(m) && StartKnown(c'.added) && c'.added.stage == DONE
      && m.stage == DONE && m.isRequest == isRequest
  {
    hide H.Run, G.Run, GnySink.Decoded, OneKind, H.Initial, GnySink.Safe;
    hide MessageCopier.Next, MessageCopier.Reaches, GnySink.Reaches, Http11Sink.Reaches, H.ParsedModes, H.FirstOut;
    ParsedIsShaped(isRequest, text);
    ParsedKind(isRequest, text);
    CopiedWhole(isRequest, copies, l);
    GnySink.PrintedDecodes(isRequest, events, c);
    DecodedKind(l.srcAdded);
    CopiedWhole(isRequest, copies', l');
  }

  /** From HTTP/1.1 to GNY and back, whatever the schedules: of a portable text one whole message
      comes out if and only if its content length, if any, is right, and then it is the message
      that went in, up to the case of names, if and only if its footers, if any, have chunks to
      follow again. */
  lemma ThroughTwoProxies(
    isRequest: bool, text: Bytes,
    copies: seq<MessageCopier.Event>, l: MessageCopier.Link,
    events: seq<GnySink.Event>, c: GnySink.Channel,
    copies': seq<MessageCopier.Event>, l': MessageCopier.Link,
    events': seq<Http11Sink.Event>, c': Http11Sink.Channel)
    requires Http11Source.Complete(H.Initial(isRequest), text) && Portable(isRequest, text)
    requires CarriedTwice(isRequest, text, copies, l, events, c, copies', l', events', c')
    ensures var m, out := H.Run(H.Initial(isRequest), text).msg, c'.sent + c'.printer.data;
      && (Http11Source.Complete(H.Initial(isRequest), out) <==> LengthRight(m))
      && (LengthRight(m) ==>
           (H.Run(H.Initial(isRequest), out).msg == Lowered(m) <==>
             m.footers == [] || Http11Sink.Framing(m) == H.ENTITY_CHUNKED))
  {
    hide H.Run, GnySink.Decoded, Http11Sink.ReadBack, Lowered, OneKind, H.Initial, Http11Sink.Framing;
    hide CarriedTwice, Http11Sink.Reaches, Http11Sink.Safe, GnySink.Safe, H.ParsedModes, H.FirstOut;
    hide Http11Lengths.Announces;
    var m := H.Run(H.Initial(isRequest), text).msg;
    ArrivesDecoded(isRequest, text, copies, l, events, c, copies', l', events', c');
    PrinterRuns(isRequest, text, copies, l, events, c, copies', l', events', c');
    if LengthRight(m) {
      SafeAfterHop(isRequest, text);
      Http11Sink.PrintedParses(isRequest, events', c');
      ComesBack(isRequest, text);
    } else {
      AnnouncedAfterHop(isRequest, text);
      Http11Lengths.LengthMustBeRight(isRequest, events', c', LengthAsked(m));
      SameEntity(m);
    }
  }

  lemma PrinterRuns(
    isRequest: bool, text: Bytes,
    copies: seq<MessageCopier.Event>, l: MessageCopier.Link,
    events: seq<GnySink.Event>, c: GnySink.Channel,
    copies': seq<MessageCopier.Event>, l': MessageCopier.Link,
    events': seq<Http11Sink.Event>, c': Http11Sink.Channel)
    requires CarriedTwice(isRequest, text, copies, l, events, c, copies', l', events', c')
    ensures Http11Sink.Reaches(Http11Sink.Opened(isRequest), events' + [Http11Sink.Look], c')
  {
    hide MessageCopier.Next, MessageCopier.Reaches, GnySink.Reaches, Http11Sink.Reaches, H.Run, G.Run;
  }

  lemma SameEntity(m: Msg)
    ensures GnySink.Decoded(m).entity == m.entity
  {}

  /** What the second reader makes of a portable text. */
  lemma ComesBack(isRequest: bool, text: Bytes)
    requires Http11Source.Complete(H.Initial(isRequest), text) && Portable(isRequest, text)
    ensures var m := H.Run(H.Initial(isRequest), text).msg;
      Http11Sink.ReadBack(GnySink.Decoded(m)) == Lowered(m) <==>
        m.footers == [] || Http11Sink.Framing(m) == H.ENTITY_CHUNKED
  {
    hide H.Run, GnySink.Decoded, Http11Sink.ReadBack, Lowered, H.Initial, Http11Sink.Framing, H.ParsedModes;
    hide OneKind, H.FirstOut;
    ParsedIsShaped(isRequest, text);
    ParsedKind(isRequest, text);
    TranscodedIff(H.Run(H.Initial(isRequest), text).msg);
  }

  // ----- a chunked message with a wrong length -----

  const LENGTH_FIVE: KeyValue := KeyValue(H.CONTENT_LENGTH, Common.Dec(5))
  const IN_CHUNKS: KeyValue := KeyValue(H.TRANSFER_ENCODING, H.CHUNKED)

  lemma LengthFive()
    ensures !H.IsDropped(LENGTH_FIVE.key)
    ensures H.ParsedMode(H.ENTITY_UNKNOWN, LENGTH_FIVE) == H.PrintedMode(H.ENTITY_UNKNOWN, LENGTH_FIVE) == 5
    ensures H.LineSafe(LENGTH_FIVE) && G.PairSafe(LENGTH_FIVE)
  {
    hide Common.Dec, Common.StrToLL, Common.OutOfRange, Names, H.IsDropped, H.LineSafe;
    LengthName();
    Common.DecRoundTrip(5);
    LengthLine(Common.Dec(5));
  }

  lemma LengthName()
    ensures Names(H.CONTENT_LENGTH, H.CONTENT_LENGTH) && !H.IsDropped(H.CONTENT_LENGTH)
    ensures !Names(H.CONTENT_LENGTH, H.TRANSFER_ENCODING)
  {
    hide Names, H.IsDropped;
    OwnName(H.CONTENT_LENGTH);
    Http11Source.LengthKept(H.CONTENT_LENGTH);
    DropsEncoding(H.CONTENT_LENGTH);
  }

  lemma LengthLine(value: Bytes)
    requires Common.SpaceFree(value)
    ensures H.LineSafe(KeyValue(H.CONTENT_LENGTH, value))
  {
    assert forall c :: c in value ==> !IsSpace(c);
  }

  lemma DropsEncoding(key: Bytes)
    ensures Names(key, H.TRANSFER_ENCODING) ==> H.IsDropped(key)
  {
    hide Names;
  }

  lemma InChunks()
    ensures H.IsDropped(IN_CHUNKS.key) && H.AsksChunks(IN_CHUNKS) && H.LineSafe(IN_CHUNKS)
  {
    hide Names, H.IsDropped, H.LineSafe;
    OwnName(H.TRANSFER_ENCODING);
    OwnName(H.CHUNKED);
    DropsEncoding(H.TRANSFER_ENCODING);
    ChunksLine();
  }

  lemma ChunksLine()
    ensures H.LineSafe(IN_CHUNKS)
  {}

  /** A response of two bytes in one chunk that announces five bytes as well. */
  function WrongResponse(): (m: Msg) {
    Msg(false, Http.VERB_UNKNOWN, [], 200, [LENGTH_FIVE, IN_CHUNKS], "ab", [], DONE)
  }

  lemma WrongResponseSafe()
    ensures Http11Sink.Safe(WrongResponse())
    ensures Http11Sink.ReadBack(WrongResponse()).headers == [LENGTH_FIVE]
  {
    hide H.LineSafe, H.PrintedModes, H.ParsedModes, Names, H.IsDropped, Common.Dec;
    var m := WrongResponse();
    LengthFive();
    InChunks();
    assert m.headers[1..] == [IN_CHUNKS] && m.headers[1..][1..] == [];
    assert H.AsksChunks(m.headers[1]);
    H.ChunksStick(H.ENTITY_UNKNOWN, m.headers);
    assert H.Kept([]) == [] && H.Kept([IN_CHUNKS]) == [];
    assert H.Kept(m.headers) == [LENGTH_FIVE] + H.Kept([IN_CHUNKS]);
  }

  lemma OnlyLengthFive(m: Msg)
    requires m.headers == [LENGTH_FIVE]
    ensures LengthAsked(m) == 5 && !H.FirstOut(m.headers) && G.PairsSafe(m.headers)
  {
    hide Names, Common.Dec, H.ParsedMode, H.PrintedMode, G.PairSafe;
    LengthFive();
    assert m.headers[0] == LENGTH_FIVE && m.headers[1..] == [];
    assert H.ParsedModes(5, []) == 5;
  }

  /** There is a portable text whose content length is wrong: a response that comes in one chunk of
      two bytes and announces five bytes as well. */
  lemma WrongLengthExample() returns (text: Bytes)
    ensures Http11Source.Complete(H.Initial(false), text) && Portable(false, text)
    ensures var m := H.Run(H.Initial(false), text).msg;
      m.entity == "ab" && LengthAsked(m) == 5 && !LengthRight(m)
  {
    hide Http11Sink.Safe, Http11Sink.Updated, LengthAsked, H.FirstOut, G.PairSafe, H.Run, Http11Sink.Framing, H.Kept;
    var m := WrongResponse();
    var c0 := Http11Sink.Opened(false);
    assert Fills(c0.held, m);
    assert [] + m.headers == m.headers && [] + m.entity == m.entity && [] + m.footers == m.footers;
    var c1 := Http11Sink.Next(c0, Http11Sink.Fill(m));
    var c := Http11Sink.Next(c1, Http11Sink.Look);
    var events := [Http11Sink.Fill(m)] + [Http11Sink.Look];
    assert events[1..] == [Http11Sink.Look] && events[1..][1..] == [];
    assert Http11Sink.Reaches(c1, events[1..], c);
    WrongResponseSafe();
    Http11Sink.PrintedParses(false, [Http11Sink.Fill(m)], c);
    text := c.sent + c.printer.data;
    OnlyLengthFive(H.Run(H.Initial(false), text).msg);
  }
}
