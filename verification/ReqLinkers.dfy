/** The upstream side of one virtual connection: it is used for one request after the other, and
    each request is over when it has gone out whole and its response has come in whole. */
module ReqLinkers {
  import opened Basics
  import opened Codecs
  import opened Messages
  import opened Octets
  import opened Pipeline
  import HttpServer
  import Sockets

  /** How much of a response its generator has taken. */
  datatype Counts = Counts(headers: nat, entity: nat, footers: nat)

  function Everything(m: Msg): (c: Counts) {
    Counts(|m.headers|, |m.entity|, |m.footers|)
  }

  /** One request and its response under way: the generator, the request and its printer, the
      response's reader and what it has consumed, and whether no read so far has cut a value. */
  datatype Talk = Talk(
    gen: nat, out: Cell, writer: Writer, reader: Reader, got: Bytes, taken: Counts, clean: bool)

  /** One request and its response that are over, with the bytes of each. */
  datatype Exchange = Exchange(gen: nat, request: Msg, sent: Bytes, response: Msg, got: Bytes, clean: bool)

  /** A connection upstream: idle or with one request under way; and its history. */
  datatype Linker = Linker(
    codec: Codec, talk: Option<Talk>, past: seq<Exchange>, written: Bytes, read: Bytes)

  function Idle(codec: Codec): (l: Linker) {
    Linker(codec, None, [], [], [])
  }

  function Begun(codec: Codec, gen: nat): (t: Talk) {
    Talk(gen, NewCell(true), NewWriter(codec), NewReader(codec, false), [], Counts(0, 0, 0), true)
  }

  function SentOf(past: seq<Exchange>): (r: seq<Bytes>)
    ensures |r| == |past| && forall i :: 0 <= i < |r| ==> r[i] == past[i].sent
  {
    seq(|past|, i requires 0 <= i < |past| => past[i].sent)
  }

  function GotOf(past: seq<Exchange>): (r: seq<Bytes>)
    ensures |r| == |past| && forall i :: 0 <= i < |r| ==> r[i] == past[i].got
  {
    seq(|past|, i requires 0 <= i < |past| => past[i].got)
  }

  // ----- the invariant -----

  /** What the one-byte parser makes of the beginning of a response. */
  function Parsed(codec: Codec, got: Bytes): (r: Reader)
    ensures r.Codec() == codec
  {
    Fed(NewReader(codec, false), got)
  }

  /** The reader is where the one-byte parser is after these bytes, and has not gone past the end of
      the message; and it is just like it if no read has cut a value. */
  ghost predicate ReadSoFar(got: Bytes, reader: Reader, clean: bool) {
    && SamePlace(reader, Parsed(reader.Codec(), got)) && Parsed(reader.Codec(), got).Proper()
    && (clean ==> reader == Parsed(reader.Codec(), got))
    && (forall k :: 0 <= k < |got| ==> !Parsed(reader.Codec(), got[..k]).Stopped())
  }

  ghost predicate TalkOk(codec: Codec, t: Talk) {
    && t.out.held.isRequest && Kept(t.out) && Working(t.out, t.writer)
    && t.writer.printer.Codec() == t.reader.Codec() == codec
    && ReadSoFar(t.got, t.reader, t.clean) && !t.reader.Lost()
    && t.taken.headers <= |t.reader.Message().headers|
    && t.taken.entity <= |t.reader.Message().entity|
    && t.taken.footers <= |t.reader.Message().footers|
  }

  ghost predicate ExchangeOk(codec: Codec, x: Exchange) {
    && x.request.isRequest && (Safe(codec, x.request) ==> SentAs(codec, x.request, x.sent))
    && Complete(NewReader(codec, false), x.got)
    && Alike(codec, x.response, Parsed(codec, x.got).Message())
    && (x.clean ==> x.response == Parsed(codec, x.got).Message())
  }

  /** Everything written is whole requests and the start of one more, everything read is whole
      responses and the start of one more, and they belong together one by one. */
  ghost predicate LinkerOk(l: Linker) {
    && (forall k :: 0 <= k < |l.past| ==> ExchangeOk(l.codec, l.past[k]))
    && (l.talk.Some? ==> TalkOk(l.codec, l.talk.value))
    && l.written == Sockets.Concat(SentOf(l.past)) + (if l.talk.Some? then l.talk.value.writer.sent else [])
    && l.read == Sockets.Concat(GotOf(l.past)) + (if l.talk.Some? then l.talk.value.got else [])
  }

  // ----- what each call does -----

  function Asked(l: Linker, gen: nat): (l': Linker)
    requires l.talk.None?
    ensures l'.codec == l.codec
  {
    l.(talk := Some(Begun(l.codec, gen)))
  }

  function TalkLooked(t: Talk): (t': Talk) {
    var (c, w) := Looked(t.out, t.writer);
    t.(out := c, writer := w)
  }

  predicate ResponseSent(t: Talk) {
    t.reader.Message().stage == DONE && t.taken == Everything(t.reader.Message())
  }

  predicate IsDone(t: Talk) {
    t.writer.printer.Data() == [] && ResponseSent(t) && Sent(t.out.held)
  }

  function Over(t: Talk): (x: Exchange) {
    Exchange(t.gen, t.out.added, t.writer.sent, t.reader.Message(), t.got, t.clean)
  }

  /** `check_done`. */
  function Checked(l: Linker): (l': Linker) {
    if l.talk.None? then l
    else
      var t := TalkLooked(l.talk.value);
      if IsDone(t) then l.(talk := None, past := l.past + [Over(t)])
      else l.(talk := Some(t))
  }

  /** `get_write_size`: the generator adds d to the request. */
  function Polled(l: Linker, d: Msg): (l': Linker) {
    if l.talk.None? then l
    else Checked(l.(talk := Some(TalkLooked(l.talk.value.(out := Filled(l.talk.value.out, d))))))
  }

  /** What there is to write once the generator has added d to the request. */
  function Offered(l: Linker, d: Msg): (b: Bytes) {
    if l.talk.None? then []
    else TalkLooked(l.talk.value.(out := Filled(l.talk.value.out, d))).writer.printer.Data()
  }

  function ToSend(l: Linker): (b: Bytes) {
    if l.talk.None? then [] else TalkLooked(l.talk.value).writer.printer.Data()
  }

  /** `write`: the socket takes n bytes. */
  function Wrote(l: Linker, n: nat): (l': Linker)
    requires n <= |ToSend(l)|
  {
    if l.talk.None? then l
    else
      var t := TalkLooked(l.talk.value);
      Checked(l.(talk := Some(t.(writer := SentOn(t.writer, n))), written := l.written + ToSend(l)[..n]))
  }

  /** Which parts of the response the generator takes; it takes all there is of a part. */
  datatype Take = Take(headers: bool, entity: bool, footers: bool)

  function AfterTake(c: Counts, m: Msg, take: Take): (c': Counts) {
    Counts(if take.headers then |m.headers| else c.headers,
           if take.entity then |m.entity| else c.entity,
           if take.footers then |m.footers| else c.footers)
  }

  /** How many bytes of a chunk the reader consumes. */
  function Consumed(l: Linker, chunk: Bytes): (n: nat)
    ensures n <= |chunk|
  {
    if l.talk.None? then 0 else AfterRead(l.talk.value.reader, chunk).1
  }

  /** `read`: the reader sees a chunk, and the generator takes something of the response. */
  function ReadMore(l: Linker, chunk: Bytes, take: Take): (l': Linker) {
    if l.talk.None? then l
    else
      var t := l.talk.value;
      var (r, n) := AfterRead(t.reader, chunk);
      Checked(l.(talk := Some(t.(reader := r, got := t.got + chunk[..n],
                                 taken := AfterTake(t.taken, r.Message(), take),
                                 clean := t.clean && !CutsValue(t.reader, chunk))),
                 read := l.read + chunk[..n]))
  }

  /** The reader does not get lost in this chunk. */
  predicate CanRead(l: Linker, chunk: Bytes) {
    l.talk.Some? ==> !AfterRead(l.talk.value.reader, chunk).0.Lost()
  }

  // ----- every call keeps the invariant -----

  lemma AskedOk(l: Linker, gen: nat)
    requires LinkerOk(l) && l.talk.None?
    ensures LinkerOk(Asked(l, gen))
  {
    hide ExchangeOk, Working, Kept, Fed;
    NewCellSound(true);
    NewWriterWorks(NewCell(true), l.codec);
    NewReaderProper(l.codec, false);
    FedNothing(l.codec, false);
    AlreadyThere(NewReader(l.codec, false));
    NewIsNotLost(l.codec);
    assert ReadSoFar([], NewReader(l.codec, false), true);
  }

  lemma NewIsNotLost(codec: Codec)
    ensures !NewReader(codec, false).Lost()
  {}

  lemma LookOk(codec: Codec, t: Talk)
    requires TalkOk(codec, t)
    ensures var t' := TalkLooked(t);
      && TalkOk(codec, t') && t' == t.(out := t'.out, writer := t'.writer)
      && t'.writer.sent == t.writer.sent && t'.out.added == t.out.added
      && (IsDone(t') && Safe(codec, t'.out.added) ==> SentAs(codec, t'.out.added, t'.writer.sent))
  {
    hide Looked, Working, Kept, Safe, SentAs, ReadSoFar, ResponseSent;
    LookWorks(t.out, t.writer);
    LookKeepsRest(t.out, t.writer);
  }

  /** A response whose stage is DONE has come in whole, and nothing behind it has been taken in. */
  lemma WholeResponse(codec: Codec, t: Talk)
    requires TalkOk(codec, t) && t.reader.Message().stage == DONE
    ensures Complete(NewReader(codec, false), t.got)
  {
    hide Working, Kept, Fed, SamePlace, NewReader;
    SamePlaceMeans(t.reader, Parsed(codec, t.got));
    FinishedIsDone(Parsed(codec, t.got));
    forall k | 0 <= k < |t.got| ensures !Fed(NewReader(codec, false), t.got[..k]).Stopped() {
      assert !Parsed(codec, t.got[..k]).Stopped();
    }
  }

  /** A call that may end the request under way keeps the linker in order: the request ends
      exactly when it has gone out whole and its response has come in whole and been taken. */
  lemma CheckedOk(l: Linker)
    requires LinkerOk(l)
    ensures LinkerOk(Checked(l))
    ensures l.past <= Checked(l).past
    ensures l.talk.Some? ==> var t := TalkLooked(l.talk.value);
      && (Checked(l).talk.None? <==> IsDone(t))
      && Checked(l).past == l.past + (if IsDone(t) then [Over(t)] else [])
      && t.gen == l.talk.value.gen
      && (Checked(l).talk.Some? ==> Checked(l).talk.value.gen == t.gen)
  {
    hide TalkLooked, Working, Kept, Safe, SentAs, ReadSoFar, Fed, Sockets.Concat, Complete;
    if l.talk.Some? {
      LookOk(l.codec, l.talk.value);
      var t := TalkLooked(l.talk.value);
      assert l.past + [] == l.past;
      if IsDone(t) {
        WholeResponse(l.codec, t);
        TalkIsRequest(l.codec, t);
        ReadIsAlike(l.codec, t);
        Sockets.ConcatAppend(SentOf(l.past), t.writer.sent);
        Sockets.ConcatAppend(GotOf(l.past), t.got);
        assert SentOf(l.past + [Over(t)]) == SentOf(l.past) + [t.writer.sent];
        assert GotOf(l.past + [Over(t)]) == GotOf(l.past) + [t.got];
        assert Checked(l).written + [] == Checked(l).written && Checked(l).read + [] == Checked(l).read;
      }
    }
  }

  /** A linker is free again, and can be asked once more, only when its request is complete and all
      of it is out, and of a complete response the generator has taken every part. */
  lemma FreedIff(l: Linker)
    requires l.talk.Some?
    ensures var t := TalkLooked(l.talk.value);
      var request, response := t.out.held, t.reader.Message();
      Checked(l).talk.None? <==>
        && request.stage == DONE && request.headers == [] && request.entity == [] && request.footers == []
        && t.writer.printer.Data() == []
        && response.stage == DONE && t.taken.headers == |response.headers|
        && t.taken.entity == |response.entity| && t.taken.footers == |response.footers|
  {
    hide TalkLooked;
  }

  /** No call leaves a linker with a request that is over. */
  lemma NeverLeftDone(l: Linker, d: Msg, n: nat, chunk: Bytes, take: Take)
    requires l.talk.Some?
    ensures var l' := Polled(l, d); l'.talk.Some? ==> !IsDone(l'.talk.value)
    ensures n <= |ToSend(l)| ==> var l' := Wrote(l, n); l'.talk.Some? ==> !IsDone(l'.talk.value)
    ensures var l' := ReadMore(l, chunk, take); l'.talk.Some? ==> !IsDone(l'.talk.value)
  {
    hide TalkLooked, IsDone, AfterRead, Filled;
  }

  lemma TalkIsRequest(codec: Codec, t: Talk)
    requires TalkOk(codec, t)
    ensures t.out.added.isRequest
  {
    hide Working, ReadSoFar;
  }

  lemma ReadIsAlike(codec: Codec, t: Talk)
    requires TalkOk(codec, t)
    ensures SamePlace(t.reader, Parsed(codec, t.got)) && Parsed(codec, t.got).Proper()
    ensures Alike(codec, t.reader.Message(), Parsed(codec, t.got).Message())
    ensures t.clean ==> t.reader == Parsed(codec, t.got)
  {
    hide Working, Kept, Fed, SamePlace, Alike;
    SamePlaceMeans(t.reader, Parsed(codec, t.got));
  }

  lemma PolledOk(l: Linker, d: Msg)
    requires LinkerOk(l) && (l.talk.Some? ==> Fills(l.talk.value.out.held, d))
    ensures LinkerOk(Polled(l, d))
  {
    hide TalkLooked, Checked, Working, Kept, Fills, ReadSoFar, ExchangeOk;
    if l.talk.Some? {
      var t := l.talk.value;
      FillWorks(t.out, t.writer, d);
      FillSameKind(t.out.held, d);
      var t1 := t.(out := Filled(t.out, d));
      assert TalkOk(l.codec, t1);
      LookOk(l.codec, t1);
      CheckedOk(l.(talk := Some(TalkLooked(t1))));
    }
  }

  lemma WroteOk(l: Linker, n: nat)
    requires LinkerOk(l) && n <= |ToSend(l)|
    ensures LinkerOk(Wrote(l, n))
  {
    hide TalkLooked, Checked, Working, Kept, ReadSoFar, ExchangeOk, Sockets.Concat;
    if l.talk.Some? {
      LookOk(l.codec, l.talk.value);
      var t := TalkLooked(l.talk.value);
      SendWorks(t.out, t.writer, n);
      var before := Sockets.Concat(SentOf(l.past));
      assert before + t.writer.sent + ToSend(l)[..n] == before + (t.writer.sent + ToSend(l)[..n]);
      CheckedOk(l.(talk := Some(t.(writer := SentOn(t.writer, n))), written := l.written + ToSend(l)[..n]));
    }
  }

  /** A read consumes exactly up to the end of the message, if that is in the chunk. */
  lemma ReadKeepsSoFar(got: Bytes, reader: Reader, clean: bool, chunk: Bytes)
    requires ReadSoFar(got, reader, clean) && !AfterRead(reader, chunk).0.Lost()
    ensures var (r, n) := AfterRead(reader, chunk);
      ReadSoFar(got + chunk[..n], r, clean && !CutsValue(reader, chunk))
  {
    hide Fed, AfterRead, CutsValue, NewReader, SamePlace;
    var codec := reader.Codec();
    var start, parsed := NewReader(codec, false), Parsed(codec, got);
    var (r, n) := AfterRead(reader, chunk);
    ReadFollows(reader, parsed, chunk);
    FedAppend(start, got, chunk[..n]);
    FedProper(parsed, chunk);
    if clean && !CutsValue(reader, chunk) {
      ParsedUnskewed(codec, got);
      ReadExactIff(reader, chunk);
    }
    forall k | 0 <= k < |got| + n ensures !Parsed(codec, (got + chunk[..n])[..k]).Stopped() {
      if k < |got| {
        assert (got + chunk[..n])[..k] == got[..k];
        assert !Parsed(codec, got[..k]).Stopped();
      } else {
        assert (got + chunk[..n])[..k] == got + chunk[..k-|got|];
        FedAppend(start, got, chunk[..k-|got|]);
      }
    }
  }

  lemma ParsedUnskewed(codec: Codec, got: Bytes)
    ensures var r := Parsed(codec, got); r.GnyReader? ==> r.gny.skew == 0
  {}

  /** However a response is read, its parts only grow. */
  lemma ReadGrows(codec: Codec, got: Bytes, more: Bytes, before: Reader, after: Reader)
    requires SamePlace(before, Parsed(codec, got)) && SamePlace(after, Parsed(codec, got + more))
    requires Parsed(codec, got).Proper()
    ensures var m, m' := before.Message(), after.Message();
      |m.headers| <= |m'.headers| && |m.entity| <= |m'.entity| && |m.footers| <= |m'.footers|
  {
    hide Fed, SamePlace, NewReader;
    SamePlaceMeans(before, Parsed(codec, got));
    SamePlaceMeans(after, Parsed(codec, got + more));
    FedAppend(NewReader(codec, false), got, more);
    FedExtends(Parsed(codec, got), more);
  }

  lemma SoFarIsPlace(got: Bytes, reader: Reader, clean: bool)
    requires ReadSoFar(got, reader, clean)
    ensures SamePlace(reader, Parsed(reader.Codec(), got))
  {}

  lemma ReadMoreOk(l: Linker, chunk: Bytes, take: Take)
    requires LinkerOk(l) && CanRead(l, chunk)
    ensures LinkerOk(ReadMore(l, chunk, take))
  {
    hide TalkLooked, Checked, Working, Kept, ReadSoFar, ExchangeOk, Sockets.Concat, Fed, AfterRead, CutsValue;
    hide SamePlace, Parsed;
    if l.talk.Some? {
      var t := l.talk.value;
      var (r, n) := AfterRead(t.reader, chunk);
      var clean := t.clean && !CutsValue(t.reader, chunk);
      ReadKeepsSoFar(t.got, t.reader, t.clean, chunk);
      ReadIsAlike(l.codec, t);
      SoFarIsPlace(t.got + chunk[..n], r, clean);
      ReadGrows(l.codec, t.got, chunk[..n], t.reader, r);
      var before := Sockets.Concat(GotOf(l.past));
      assert before + t.got + chunk[..n] == before + (t.got + chunk[..n]);
      var t1 := t.(reader := r, got := t.got + chunk[..n], taken := AfterTake(t.taken, r.Message(), take),
                   clean := clean);
      assert TalkOk(l.codec, t1);
      CheckedOk(l.(talk := Some(t1), read := l.read + chunk[..n]));
    }
  }

  /** A linker that goes on with its request, or ends it. */
  predicate GoesOn(l: Linker, l': Linker) {
    && l'.codec == l.codec
    && (l.talk.None? ==> l' == l)
    && (l.talk.Some? && l'.talk.Some? ==> l'.past == l.past && l'.talk.value.gen == l.talk.value.gen)
    && (l.talk.Some? && l'.talk.None? ==>
         |l'.past| == |l.past| + 1 && l'.past[..|l.past|] == l.past && l'.past[|l.past|].gen == l.talk.value.gen)
  }

  lemma CheckedGoesOn(l: Linker, l1: Linker)
    requires l.talk.Some? && l1.talk.Some? && l1.past == l.past && l1.codec == l.codec
    requires l1.talk.value.gen == l.talk.value.gen
    ensures GoesOn(l, Checked(l1))
  {
    hide Looked, ResponseSent;
  }

  lemma CallsGoOn(l: Linker)
    ensures forall d :: GoesOn(l, Polled(l, d))
    ensures forall n: nat :: n <= |ToSend(l)| ==> GoesOn(l, Wrote(l, n))
    ensures forall chunk, take :: GoesOn(l, ReadMore(l, chunk, take))
  {
    hide Looked, Checked, GoesOn, AfterRead, CutsValue;
    if l.talk.None? {
      assert GoesOn(l, l) by { NoneGoesOn(l); }
    } else {
      forall d ensures GoesOn(l, Polled(l, d)) {
        CheckedGoesOn(l, l.(talk := Some(TalkLooked(l.talk.value.(out := Filled(l.talk.value.out, d))))));
      }
      forall n: nat | n <= |ToSend(l)| ensures GoesOn(l, Wrote(l, n)) {
        var t := TalkLooked(l.talk.value);
        CheckedGoesOn(l, l.(talk := Some(t.(writer := SentOn(t.writer, n))), written := l.written + ToSend(l)[..n]));
      }
      forall chunk, take ensures GoesOn(l, ReadMore(l, chunk, take)) {
        var t := l.talk.value;
        var (r, n) := AfterRead(t.reader, chunk);
        CheckedGoesOn(l, l.(talk := Some(t.(reader := r, got := t.got + chunk[..n],
                                            taken := AfterTake(t.taken, r.Message(), take),
                                            clean := t.clean && !CutsValue(t.reader, chunk))),
                            read := l.read + chunk[..n]));
      }
    }
  }

  lemma NoneGoesOn(l: Linker)
    requires l.talk.None?
    ensures GoesOn(l, l)
  {}

  // ----- the k-th response is the answer to the k-th request -----

  /** If the peer sends complete responses one after the other, then what the k-th generator of a
      linker got is the k-th of them, byte for byte and, but for values that a read has cut, as a
      message, however the stream was cut into reads and whatever the generators were doing. */
  lemma KthResponse(l: Linker, responses: seq<Bytes>, stream: Bytes)
    requires LinkerOk(l) && l.read <= stream && Sockets.Concat(responses) <= stream
    requires forall k :: 0 <= k < |responses| ==> Complete(NewReader(l.codec, false), responses[k])
    ensures forall k :: 0 <= k < |l.past| && k < |responses| ==>
      && l.past[k].got == responses[k]
      && Alike(l.codec, l.past[k].response, Parsed(l.codec, responses[k]).Message())
      && (l.past[k].clean ==> l.past[k].response == Parsed(l.codec, responses[k]).Message())
  {
    hide LinkerOk, Parsed, Complete, Sockets.Concat, NewReader, Alike;
    GotInOrder(l);
    OneDivision(l.codec, false, GotOf(l.past), responses, stream);
  }

  lemma GotInOrder(l: Linker)
    requires LinkerOk(l)
    ensures Sockets.Concat(GotOf(l.past)) <= l.read
    ensures forall k :: 0 <= k < |l.past| ==>
      && Complete(NewReader(l.codec, false), l.past[k].got)
      && Alike(l.codec, l.past[k].response, Parsed(l.codec, l.past[k].got).Message())
      && (l.past[k].clean ==> l.past[k].response == Parsed(l.codec, l.past[k].got).Message())
  {
    hide TalkOk, Parsed, Complete, Sockets.Concat, SentAs, Safe, NewReader, Alike;
    assert forall k :: 0 <= k < |l.past| ==> ExchangeOk(l.codec, l.past[k]);
  }

  /** What has gone out of the request under way. */
  function SentNow(l: Linker): (b: Bytes) {
    if l.talk.Some? then l.talk.value.writer.sent else []
  }

  function RequestsOf(past: seq<Exchange>): (r: seq<Msg>)
    ensures |r| == |past| && forall i :: 0 <= i < |r| ==> r[i] == past[i].request
  {
    seq(|past|, i requires 0 <= i < |past| => past[i].request)
  }

  /** Every request that is over could be printed. */
  predicate RequestsFit(l: Linker) {
    forall k :: 0 <= k < |l.past| ==> Safe(l.codec, l.past[k].request)
  }

  /** Which of the requests that are over have gone out as something. */
  function Asking(l: Linker): (at: seq<nat>)
    ensures |at| <= |l.past| && forall j :: 0 <= j < |at| ==> at[j] < |l.past|
  {
    ReadyAt(l.codec, RequestsOf(l.past))
  }

  function AskingBytes(l: Linker): (pieces: seq<Bytes>) {
    Pick(SentOf(l.past), Asking(l))
  }

  lemma SentInOrder(l: Linker)
    requires LinkerOk(l) && RequestsFit(l)
    ensures l.written == Sockets.Concat(SentOf(l.past)) + SentNow(l)
    ensures AllSentAs(l.codec, true, RequestsOf(l.past), SentOf(l.past))
  {
    hide TalkOk, Parsed, Complete, Sockets.Concat, SentAs, Safe, NewReader;
    assert forall k :: 0 <= k < |l.past| ==> ExchangeOk(l.codec, l.past[k]);
  }

  /** What has been written is one whole message for each request that was ready, and the start of the
      one under way. */
  lemma RequestsWhole(l: Linker)
    requires LinkerOk(l) && RequestsFit(l)
    ensures l.written == Sockets.Concat(AskingBytes(l)) + SentNow(l)
    ensures var at := Asking(l);
      forall j :: 0 <= j < |at| ==> Means(l.codec, true, l.past[at[j]].sent, l.past[at[j]].request)
  {
    hide LinkerOk, Means, Sockets.Concat, Safe, ReadyAt, AllSentAs;
    SentInOrder(l);
    ReadyPieces(l.codec, true, RequestsOf(l.past), SentOf(l.past));
  }

  /** The server has read these pieces of a stream, one complete request after the other. */
  ghost predicate HasRead(codec: Codec, s: HttpServer.Server, pieces: seq<Bytes>) {
    && |pieces| <= |s.arrived|
    && forall k :: 0 <= k < |pieces| ==>
         && Complete(NewReader(codec, true), pieces[k])
         && s.arrived[k] < |s.line.messages|
         && Alike(codec, s.line.messages[s.arrived[k]].added, Fed(NewReader(codec, true), pieces[k]).Message())
  }

  /** When the server of this program has read what a linker has written, cut anywhere, its k-th
      request is the k-th that a generator had ready. */
  lemma KthRequestOfServer(l: Linker, s: HttpServer.Server, pieces: seq<Bytes>)
    requires LinkerOk(l) && RequestsFit(l)
    requires HasRead(l.codec, s, pieces) && Sockets.Concat(pieces) <= l.written
    ensures var at := Asking(l);
      forall k :: 0 <= k < |at| && k < |pieces| ==>
        Alike(l.codec, s.line.messages[s.arrived[k]].added, Understood(l.codec, l.past[at[k]].request))
  {
    hide LinkerOk, Safe, Understood, Fed, NewReader, RequestsFit, Alike;
    hide Sockets.Concat, Complete, ReadyAt, SentNow;
    RequestsWhole(l);
    AskedPieces(l);
    OneDivision(l.codec, true, AskingBytes(l), pieces, l.written);
  }

  /** A linker whose peer is the server of this program, over any runs of both, when the linker reads
      what the server has written, cut anywhere: the response that the k-th generator got is the k-th
      that the server had ready, and that is the answer to the request with which it was queued. */
  lemma KthResponseOfServer(l: Linker, events: seq<HttpServer.Event>, s: HttpServer.Server)
    requires LinkerOk(l)
    requires HttpServer.Reaches(HttpServer.Start(l.codec), events, s) && AllFit(l.codec, s.line.finished)
    requires l.read <= s.line.written
    ensures |s.line.finished| <= |s.pairs| == |s.arrived|
    ensures var at := Spoken(l.codec, s.line.finished);
      forall k :: 0 <= k < |l.past| && k < |at| ==>
        var f, p := s.line.finished[at[k]], s.pairs[at[k]];
        && Alike(l.codec, l.past[k].response, Understood(l.codec, f.msg))
        && (l.past[k].clean ==> l.past[k].response == Understood(l.codec, f.msg))
        && f.res == p.res && p.req == s.arrived[at[k]]
  {
    hide LinkerOk, Safe, Understood, HttpServer.Reaches, Fed, Wire, NewReader, AllSent, Alike;
    hide Sockets.Concat, Complete, ReadyAt, InProgress;
    HttpServer.ServesInOrder(l.codec, events, s);
    SpokenPieces(l.codec, s.line.finished);
    KthResponse(l, SpokenBytes(l.codec, s.line.finished), s.line.written);
  }

  lemma AskedPieces(l: Linker)
    requires LinkerOk(l) && RequestsFit(l)
    ensures forall k :: 0 <= k < |AskingBytes(l)| ==> Complete(NewReader(l.codec, true), AskingBytes(l)[k])
  {
    hide LinkerOk, RequestsFit, Fed, NewReader, Complete, Sockets.Concat, Understood, ReadyAt;
    RequestsWhole(l);
  }

  lemma SpokenPieces(codec: Codec, finished: seq<Finished>)
    requires AllSent(codec, finished) && AllFit(codec, finished)
    ensures Sockets.Concat(SpokenBytes(codec, finished)) == Wire(finished)
    ensures var at := Spoken(codec, finished);
      forall j :: 0 <= j < |at| ==>
        && Complete(NewReader(codec, false), SpokenBytes(codec, finished)[j])
        && Parsed(codec, SpokenBytes(codec, finished)[j]).Message() == Understood(codec, finished[at[j]].msg)
  {
    hide Safe, SentAs, Understood, Fed, Complete, NewReader, Wire, Sockets.Concat, ReadyAt, AllSent;
    WireIsConcat(finished);
    FinishedSent(codec, finished);
    ReadyPieces(codec, false, MessagesOf(finished), Encodings(finished));
  }

  /** The peer that reads what a linker has written with a fresh reader for each request that was ready
      gets these in the order in which they were accepted, and behind them what has gone out of the
      next. */
  lemma PeerReadsRequests(l: Linker, behind: Bytes, sizes: seq<seq<nat>>)
    requires LinkerOk(l) && RequestsFit(l)
    requires |sizes| == |Asking(l)| && ReadsReach(AskingBytes(l), sizes)
    requires CutClean(l.codec, true, AskingBytes(l), sizes, SentNow(l) + behind)
      || Intact(l.codec, true, l.written + behind, sizes)
    ensures var at := Asking(l);
      var (ms, left) := Sessions(l.codec, true, l.written + behind, sizes);
      && left == SentNow(l) + behind && |ms| == |at|
      && forall j :: 0 <= j < |ms| ==>
        var m := Understood(l.codec, l.past[at[j]].request);
        && Alike(l.codec, ms[j], m)
        && (CutClean(l.codec, true, AskingBytes(l), sizes, SentNow(l) + behind) ==> ms[j] == m)
    ensures InPlace(Asking(l), |l.past|) <==> forall k :: 0 <= k < |l.past| ==> Ready(l.codec, l.past[k].request)
  {
    hide LinkerOk, Fed, Understood, RequestsFit, Complete, NewReader, ReadsReach, Sessions, Sockets.Concat, Alike;
    hide CutClean, Intact, Ready, SentNow, ReadyAt;
    RequestsWhole(l);
    AllReadyIff(l.codec, RequestsOf(l.past));
    assert l.written + behind == Sockets.Concat(AskingBytes(l)) + (SentNow(l) + behind);
    SessionsRecoverAll(l.codec, true, AskingBytes(l), sizes, SentNow(l) + behind);
  }
}
