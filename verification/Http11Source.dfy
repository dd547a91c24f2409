/** The resumable HTTP/1.1 reader: whatever the fragmentation, it follows the one-byte parser
    exactly and takes from the stream the bytes of one message and no other. */
module Http11Source {
  import opened Octets
  import opened Messages
  import opened Http11Format
  import opened Sockets
  import Common
  import Http

  // ----- sessions: a reader called again and again on a stream -----

  /** How many bytes of a chunk belong to the message. */
  function Need(p: Parser, chunk: Bytes): (n: nat)
    ensures n <= |chunk|
    decreases |chunk|
  {
    if chunk == [] || Stopped(p) then 0 else 1 + Need(Step(p, chunk[0]), chunk[1..])
  }

  lemma {:induction false} NeedStops(p: Parser, chunk: Bytes)
    ensures var n := Need(p, chunk);
      && (n < |chunk| ==> Stopped(Run(p, chunk[..n])))
      && (forall k :: 0 <= k < n ==> !Stopped(Run(p, chunk[..k])))
      && Run(p, chunk[..n]) == Run(p, chunk)
    decreases |chunk|
  {
    hide Step;
    var n := Need(p, chunk);
    if chunk == [] {
      assert chunk[..n] == chunk;
    } else if Stopped(p) {
      RunStopped(p, chunk);
      assert chunk[..n] == [];
    } else {
      var p1 := Step(p, chunk[0]);
      NeedStops(p1, chunk[1..]);
      assert chunk[..n][1..] == chunk[1..][..n-1];
      forall k | 0 <= k < n ensures !Stopped(Run(p, chunk[..k])) {
        if k > 0 {
          assert chunk[..k][1..] == chunk[1..][..k-1];
        }
      }
    }
  }

  function Session(p: Parser, wire: Bytes, sizes: seq<nat>): (res: (Parser, Bytes))
    decreases |sizes|
  {
    if sizes == [] then (p, wire)
    else
      var chunk := wire[..Min(sizes[0], |wire|)];
      Session(Run(p, chunk), wire[Need(p, chunk)..], sizes[1..])
  }

  /** The bytes of `message` end a message, and no shorter prefix of them does. */
  ghost predicate Complete(p: Parser, message: Bytes) {
    && Stopped(Run(p, message))
    && forall k :: 0 <= k < |message| ==> !Stopped(Run(p, message[..k]))
  }

  lemma CompleteTail(p: Parser, message: Bytes, n: nat)
    requires Complete(p, message) && n <= |message|
    ensures Complete(Run(p, message[..n]), message[n..])
    ensures Run(Run(p, message[..n]), message[n..]) == Run(p, message)
  {
    hide Run;
    assert message[..n] + message[n..] == message;
    RunAppend(p, message[..n], message[n..]);
    forall k | 0 <= k < |message[n..]| ensures !Stopped(Run(Run(p, message[..n]), message[n..][..k])) {
      assert message[..n] + message[n..][..k] == message[..n+k];
      RunAppend(p, message[..n], message[n..][..k]);
    }
  }

  /** One read of a chunk of a stream that begins with a complete message. */
  lemma ReadWithin(p: Parser, message: Bytes, rest: Bytes, size: nat)
    requires Complete(p, message)
    ensures var wire := message + rest;
      var chunk := wire[..Min(size, |wire|)];
      var n := Min(size, |message|);
      && Need(p, chunk) == n
      && Run(p, chunk) == Run(p, message[..n])
      && wire[n..] == message[n..] + rest
  {
    hide Run, Step;
    var wire := message + rest;
    var chunk := wire[..Min(size, |wire|)];
    var n, k := Min(size, |message|), Need(p, chunk);
    NeedStops(p, chunk);
    assert chunk[..n] == message[..n];
    assert message[..|message|] == message;
    var j := Min(k, n);
    assert chunk[..j] == message[..j];
  }

  /** Fragmentation independence and exact consumption: any session whose reads together reach
      the end of a message leaves the reader with what the one-byte parser makes of that message,
      and has taken from the stream its bytes and no other. */
  lemma {:induction false} SessionReadsMessage(p: Parser, message: Bytes, rest: Bytes, sizes: seq<nat>)
    requires Complete(p, message) && Total(sizes) >= |message|
    ensures Session(p, message + rest, sizes) == (Run(p, message), rest)
    decreases |sizes|
  {
    hide Run, Step;
    if message == [] {
      assert Run(p, message) == p by {
        RunNothing(p);
      }
      SessionAfterDone(p, rest, sizes);
      assert message + rest == rest;
    } else {
      var n := Min(sizes[0], |message|);
      ReadWithin(p, message, rest, sizes[0]);
      CompleteTail(p, message, n);
      var p' := Run(p, message[..n]);
      if n == |message| {
        assert message[..n] == message;
        SessionAfterDone(p', rest, sizes[1..]);
        assert message[n..] + rest == rest;
      } else {
        SessionReadsMessage(p', message[n..], rest, sizes[1..]);
      }
    }
  }

  lemma RunNothing(p: Parser)
    ensures Run(p, []) == p
  {}

  lemma {:induction false} SessionAfterDone(p: Parser, wire: Bytes, sizes: seq<nat>)
    requires Stopped(p)
    ensures Session(p, wire, sizes) == (p, wire)
    decreases |sizes|
  {
    if sizes != [] {
      RunStopped(p, wire[..Min(sizes[0], |wire|)]);
      assert wire[0..] == wire;
      SessionAfterDone(p, wire, sizes[1..]);
    }
  }

  // ----- several messages one after the other -----

  /** A fresh reader for each message, one after the other on the same stream. */
  function Sessions(isRequest: bool, wire: Bytes, sizes: seq<seq<nat>>): (res: (seq<Msg>, Bytes))
    decreases |sizes|
  {
    if sizes == [] then ([], wire)
    else
      var (p, wire1) := Session(Initial(isRequest), wire, sizes[0]);
      var (ms, wire2) := Sessions(isRequest, wire1, sizes[1..]);
      ([p.msg] + ms, wire2)
  }

  /** Successive fresh readers recover the messages of a stream in order, with nothing lost and
      nothing read twice. */
  lemma {:induction false} SessionsRecoverAll(
    isRequest: bool, messages: seq<Bytes>, sizes: seq<seq<nat>>, rest: Bytes)
    requires |messages| == |sizes|
    requires forall i :: 0 <= i < |messages| ==>
      Complete(Initial(isRequest), messages[i]) && Total(sizes[i]) >= |messages[i]|
    ensures var (ms, left) := Sessions(isRequest, Concat(messages) + rest, sizes);
      && left == rest
      && |ms| == |messages|
      && forall i :: 0 <= i < |ms| ==> ms[i] == Run(Initial(isRequest), messages[i]).msg
    decreases |messages|
  {
    hide Run, Initial, Complete, Total;
    if messages == [] {
      assert Concat(messages) + rest == rest;
    } else {
      var after := Concat(messages[1..]) + rest;
      assert Concat(messages) + rest == messages[0] + after;
      SessionReadsMessage(Initial(isRequest), messages[0], after, sizes[0]);
      SessionsRecoverAll(isRequest, messages[1..], sizes[1..], rest);
    }
  }

  // ----- the class -----

  const MAX_READ_SIZE: nat := 1024

  datatype State = FIRSTLINE | HEADERS | ENTITYDATA | FINISHED

  /** The stage of the message in each phase. */
  predicate Proper(p: Parser) {
    match p.phase
    case FirstLine(_) => p.msg.stage == HEADER
    case Headers(_, _) => p.msg.stage == HEADER
    case Fixed(left) => p.msg.stage == ENTITY && left > 0
    case ChunkSize(_) => p.msg.stage == ENTITY
    case ChunkExtension(_) => p.msg.stage == ENTITY
    case ChunkData(_) => p.msg.stage == ENTITY
    case Trailer(_) => p.msg.stage == FOOTER
    case Done => p.msg.stage == DONE
  }

  /** `last` tells whether the current line ends in CR so far. In particular `last` is CR only if
      the line is not empty, so the length of a line is never negative. */
  predicate LastTells(line: Bytes, last: Octet) {
    last == CR <==> line != [] && line[|line|-1] == CR
  }

  /** How the fields stand for the parser; `line` is the kept part of the buffer. */
  predicate Stands(line: Bytes, last: Octet, state: State, mode: int, state1: nat, state2: nat, p: Parser) {
    match p.phase
    case FirstLine(l) => state == FIRSTLINE && line == l && LastTells(l, last) && mode == ENTITY_UNKNOWN
    case Headers(m, l) => state == HEADERS && line == l && LastTells(l, last) && mode == m
    case Fixed(left) => state == ENTITYDATA && mode == left > 0 && line == []
    case ChunkSize(size) =>
      state == ENTITYDATA && mode < 0 && state1 == 0 && state2 == size && line == []
    case ChunkExtension(size) =>
      state == ENTITYDATA && mode < 0 && state1 == 1 && state2 == size && line == []
    case ChunkData(left) =>
      state == ENTITYDATA && mode < 0 && state1 == 2 && state2 == left && line == []
    case Trailer(l) =>
      state == ENTITYDATA && mode < 0 && state1 == 3 && line == l && LastTells(l, last)
    case Done => state == FINISHED
  }

  function Plus(m: Msg, entity: Bytes): (r: Msg) {
    if entity == [] then m else m.(entity := m.entity + entity)
  }

  lemma FinishedIsStopped(
    line: Bytes, last: Octet, state: State, mode: int, state1: nat, state2: nat, p: Parser)
    requires Stands(line, last, state, mode, state1, state2, p)
    ensures Stopped(p) <==> state == FINISHED
  {}

  lemma StoppedAnyLine(
    line: Bytes, line': Bytes, last: Octet, state: State, mode: int, state1: nat, state2: nat, p: Parser)
    requires Stands(line, last, state, mode, state1, state2, p) && Stopped(p)
    ensures Stands(line', last, state, mode, state1, state2, p)
  {}

  class MessageSource11 {
    const msg: HttpMessage
    var buf: Bytes
    var last: Octet
    var state: State
    var entityMode: int
    var entityState1: nat
    var entityState2: nat

    // the parser these fields stand for
    ghost var parser: Parser

    constructor (message: HttpMessage)
      requires message.Valid() && message.added == Blank(message.isRequest)
      ensures msg == message && Valid() && parser == Initial(message.isRequest)
    {
      msg := message;
      buf := [];
      last := NUL;
      state := FIRSTLINE;
      entityMode := ENTITY_UNKNOWN;
      entityState1, entityState2 := 0, 0;
      parser := Initial(message.isRequest);
    }

    /** The fields stand for the parser with `line` kept in the buffer and `entity` taken in but
        not yet appended to the message. */
    ghost predicate Standing(line: Bytes, entity: Bytes)
      reads this, msg
    {
      && msg.Valid()
      && Proper(parser)
      && Stands(line, last, state, entityMode, entityState1, entityState2, parser)
      && parser.msg == Plus(msg.added, entity)
      && (entity != [] ==> msg.state == ENTITY)
    }

    /** Between reads every entity byte seen has been delivered. */
    ghost predicate Valid()
      reads this, msg
    {
      Standing(buf, [])
    }

    method ParseRequestLine(line: Bytes)
      requires msg.Valid()
      modifies msg
      ensures msg.Valid() && msg.added == RequestLine(old(msg.added), line)
    {
      var verb, pos := Common.GetToken(line, 0);
      msg.SetVerb(Http.AToVerb(verb));
      var token, pos' := Common.GetToken(line, pos);
      var url := Common.UrlDecode(token);
      msg.SetUrl(url);
    }

    method ParseResponseLine(line: Bytes)
      requires msg.Valid()
      modifies msg
      ensures msg.Valid() && msg.added == ResponseLine(old(msg.added), line)
    {
      var protocol, pos := Common.GetToken(line, 0);
      var responseCode, pos' := Common.GetToken(line, pos);
      msg.SetStatus(Common.ToInt32(Common.StrToLL(responseCode)));
    }

    method ParseStartLine(line: Bytes)
      requires msg.Valid()
      modifies msg
      ensures msg.Valid() && msg.added == StartLine(old(msg.added), line)
    {
      hide RequestLine, ResponseLine;
      if msg.isRequest {
        ParseRequestLine(line);
      } else {
        ParseResponseLine(line);
      }
    }

    method ParseHeader(line: Bytes)
      requires msg.Valid() && msg.state == HEADER
      modifies msg, this`entityMode
      ensures msg.Valid()
      ensures (entityMode, msg.added) == HeaderLine(old(entityMode), old(msg.added), line)
    {
      hide Names, Common.StrToLL, Common.Trimmed, FindColon, Backlog;
      var colon := FindColon(line);
      if colon == |line| {
        return;
      }
      var key := Common.Trim(line[..colon]);
      var value := Common.Trim(line[colon+1..]);
      if Names(key, TRANSFER_ENCODING) {
        if Names(value, CHUNKED) {
          entityMode := ENTITY_CHUNKED;
        }
      } else if entityMode == ENTITY_UNKNOWN && Names(key, CONTENT_LENGTH) {
        entityMode := Common.StrToLL(value);
        LengthKept(key);
        msg.AddHeader(key, value);
      } else if Names(key, "Connection") || Names(key, "Proxy-Connection") || Names(key, "Keep-Alive")
                || Names(key, "TE") || Names(key, "Trailer") {
      } else {
        msg.AddHeader(key, value);
      }
    }

    method ParseFooter(line: Bytes)
      requires msg.Valid() && msg.state == FOOTER
      modifies msg
      ensures msg.Valid() && msg.added == FooterLine(old(msg.added), line)
    {
      hide Common.Trimmed;
      var colon := FindColon(line);
      if colon == |line| {
        return;
      }
      var key := Common.Trim(line[..colon]);
      var value := Common.Trim(line[colon+1..]);
      msg.AddFooter(key, value);
    }

    /** The body of the read loop: one byte of the buffer. `pos` is where the kept part starts and
        `entity` what has been taken in but not yet appended. */
    method Accept(i: nat, pos: nat, entity: Bytes) returns (pos': nat, entity': Bytes)
      requires 0 <= pos <= i < |buf|
      requires Standing(buf[pos..i], entity) && !Stopped(parser)
      modifies this, msg
      ensures buf == old(buf) && pos <= pos' <= i + 1
      ensures Standing(buf[pos'..i+1], entity')
      ensures parser == Step(old(parser), buf[i])
    {
      hide Step, Backlog;
      match state
      case FIRSTLINE => pos' := AcceptFirstLine(i, pos); entity' := entity;
      case HEADERS => pos' := AcceptHeaders(i, pos); entity' := entity;
      case ENTITYDATA => pos', entity' := AcceptEntity(i, pos, entity);
      case FINISHED => assert false;
    }

    method AcceptFirstLine(i: nat, pos: nat) returns (pos': nat)
      requires 0 <= pos <= i < |buf|
      requires Standing(buf[pos..i], []) && state == FIRSTLINE
      modifies this, msg
      ensures buf == old(buf) && pos <= pos' <= i + 1
      ensures Standing(buf[pos'..i+1], [])
      ensures parser == Step(old(parser), buf[i])
    {
      hide StartLine, Backlog, HeaderLine, FooterLine, EndOfHeaders, EndOfChunkSize;
      var ch := buf[i];
      pos' := pos;
      LineWithoutCR(buf, pos, i, last);
      parser := Step(parser, ch);
      if ch == LF {
        var line := buf[pos..i - (if last == CR then 1 else 0)];
        assert buf[i+1..i+1] == [];
        if line != [] {
          ParseStartLine(line);
          state := HEADERS;
        }
        pos' := i + 1;
      } else {
        assert buf[pos..i+1] == buf[pos..i] + [ch];
      }
      last := ch;
    }

    method AcceptHeaders(i: nat, pos: nat) returns (pos': nat)
      requires 0 <= pos <= i < |buf|
      requires Standing(buf[pos..i], []) && state == HEADERS
      modifies this, msg
      ensures buf == old(buf) && pos <= pos' <= i + 1
      ensures Standing(buf[pos'..i+1], [])
      ensures parser == Step(old(parser), buf[i])
    {
      hide HeaderLine, Backlog, EndOfHeaders;
      var ch := buf[i];
      pos' := pos;
      assert buf[i+1..i+1] == [];
      if ch == LF {
        EndHeaderLine(buf[pos..i]);
        pos' := i + 1;
      } else {
        assert buf[pos..i+1] == buf[pos..i] + [ch];
        parser := Step(parser, ch);
        last := ch;
      }
    }

    /** The end of a line: one more header, or the end of the headers. */
    method EndHeaderLine(kept: Bytes)
      requires Standing(kept, []) && state == HEADERS
      modifies this, msg
      ensures buf == old(buf)
      ensures Standing([], []) && parser == Step(old(parser), LF)
    {
      hide HeaderLine, Backlog;
      assert kept[0..|kept|] == kept;
      LineWithoutCR(kept, 0, |kept|, last);
      var line := kept[0..|kept| - (if last == CR then 1 else 0)];
      parser := Step(parser, LF);
      last := LF;
      if line != [] {
        ParseHeader(line);
      } else {
        msg.EndHeader();
        if entityMode == 0 || entityMode == ENTITY_UNKNOWN {
          msg.EndEntity();
          msg.EndFooter();
          state := FINISHED;
        } else {
          state := ENTITYDATA;
          entityState1, entityState2 := 0, 0;
        }
      }
    }

    method AcceptEntity(i: nat, pos: nat, entity: Bytes) returns (pos': nat, entity': Bytes)
      requires 0 <= pos <= i < |buf|
      requires Standing(buf[pos..i], entity) && state == ENTITYDATA
      modifies this, msg
      ensures buf == old(buf) && pos <= pos' <= i + 1
      ensures Standing(buf[pos'..i+1], entity')
      ensures parser == Step(old(parser), buf[i])
    {
      hide Step, Backlog;
      var ch := buf[i];
      pos', entity' := i + 1, entity;
      assert buf[pos'..i+1] == [];
      if entityMode > 0 {
        entity' := AcceptFixed(ch, entity);
      } else if entityState1 == 0 || entityState1 == 1 {
        entity' := AcceptSize(ch, entity);
      } else if entityState1 == 2 {
        entity' := AcceptData(ch, entity);
      } else {
        pos' := AcceptTrailer(i, pos);
      }
    }

    method AcceptFixed(ch: Octet, entity: Bytes) returns (entity': Bytes)
      requires Standing([], entity) && parser.phase.Fixed?
      modifies this, msg
      ensures buf == old(buf)
      ensures Standing([], entity') && parser == Step(old(parser), ch)
    {
      hide Backlog;
      parser := Step(parser, ch);
      entity' := entity + [ch];
      assert msg.added.entity + entity' == msg.added.entity + entity + [ch];
      entityMode := entityMode - 1;
      if entityMode == 0 {
        state := FINISHED;
        entity' := FlushEntity(entity');
        msg.EndEntity();
        msg.EndFooter();
      }
      last := ch;
    }

    method AcceptData(ch: Octet, entity: Bytes) returns (entity': Bytes)
      requires Standing([], entity) && parser.phase.ChunkData?
      modifies this
      ensures buf == old(buf)
      ensures Standing([], entity') && parser == Step(old(parser), ch)
    {
      hide Backlog;
      parser := Step(parser, ch);
      entity' := entity;
      if entityState2 != 0 {
        entity' := entity + [ch];
        assert msg.added.entity + entity' == msg.added.entity + entity + [ch];
        entityState2 := entityState2 - 1;
      } else if ch == LF {
        entityState1 := 0;
      }
      last := ch;
    }

    method AcceptTrailer(i: nat, pos: nat) returns (pos': nat)
      requires 0 <= pos <= i < |buf|
      requires Standing(buf[pos..i], []) && parser.phase.Trailer?
      modifies this, msg
      ensures buf == old(buf) && pos <= pos' <= i + 1 && last == buf[i]
      ensures Standing(buf[pos'..i+1], [])
      ensures parser == Step(old(parser), buf[i])
    {
      hide FooterLine, Backlog;
      var ch := buf[i];
      pos' := i + 1;
      LineWithoutCR(buf, pos, i, last);
      parser := Step(parser, ch);
      if ch == LF {
        var line := buf[pos..i - (if last == CR then 1 else 0)];
        assert buf[i+1..i+1] == [];
        if line == [] {
          state := FINISHED;
          msg.EndFooter();
        } else {
          ParseFooter(line);
        }
      } else {
        assert buf[pos..i+1] == buf[pos..i] + [ch];
        pos' := pos;
      }
      last := ch;
    }

    method FlushEntity(entity: Bytes) returns (empty: Bytes)
      requires msg.Valid() && msg.state == ENTITY
      modifies msg
      ensures msg.Valid() && empty == []
      ensures msg.added == old(msg.added).(entity := old(msg.added).entity + entity)
    {
      msg.AppendEntity(entity);
      empty := [];
    }

    method AcceptSize(ch: Octet, entity: Bytes) returns (entity': Bytes)
      requires Standing([], entity) && (parser.phase.ChunkSize? || parser.phase.ChunkExtension?)
      modifies this, msg
      ensures buf == old(buf) && last == ch
      ensures Standing([], entity') && parser == Step(old(parser), ch)
    {
      hide Backlog, HeaderLine, FooterLine, StartLine, EndOfHeaders, Common.IsHex, Common.HexToI, Common.ShiftOr;
      entity' := entity;
      parser := Step(parser, ch);
      var ends := false;
      if entityState1 == 0 {
        if Common.IsHex(ch) {
          entityState2 := Common.ShiftOr(entityState2, Common.HexToI(ch));
        } else if ch == ';' {
          entityState1 := 1;
        } else if ch == LF {
          ends := true;
        }
      } else if ch == LF {
        ends := true;
      }
      if ends {
        if entityState2 != 0 {
          entityState1 := 2;
        } else {
          entityState1 := 3;
          entity' := FlushEntity(entity);
          msg.EndEntity();
        }
      }
      last := ch;
    }

    /** One readiness event: peek at a chunk, take it in byte by byte, consume what belongs to
        the message and keep the unfinished line. */
    method Read(s: Socket, maxRead: nat) returns (amt: nat, ghost chunk: Bytes)
      requires Valid()
      modifies this, msg, s`incoming
      ensures Valid()
      ensures chunk <= old(s.incoming) && |chunk| <= Min(MAX_READ_SIZE, maxRead)
      ensures old(s.incoming) != [] && maxRead > 0 ==> chunk != []
      ensures parser == Run(old(parser), chunk) && amt == Need(old(parser), chunk)
      ensures s.incoming == old(s.incoming)[amt..]
    {
      hide Step, Proper, Backlog, Stands;
      var rbuf := s.Peek(Min(MAX_READ_SIZE, maxRead));
      chunk := rbuf;
      amt := |rbuf|;
      if rbuf == [] {
        return;
      }
      ghost var p0, held := parser, |buf|;
      assert (buf + rbuf)[0..held] == buf;
      buf := buf + rbuf;
      assert buf[held..] == rbuf;
      var i, pos, entity := ScanBuffer(|buf| - amt);
      NeedStops(p0, rbuf);
      assert i == |buf| ==> buf[pos..i] == buf[pos..];
      ghost var line := buf[pos..i];
      if entity != [] {
        msg.AppendEntity(entity);
      }
      amt := amt - (|buf| - i);
      s.Take(amt);
      if pos > 0 {
        buf := buf[pos..];
      }
      if i < |old(buf) + rbuf| {
        StoppedAnyLine(line, buf, last, state, entityMode, entityState1, entityState2, parser);
      }
    }

    method ScanBuffer(from: nat) returns (i: nat, pos: nat, entity: Bytes)
      requires from <= |buf| && Standing(buf[0..from], [])
      modifies this, msg
      ensures buf == old(buf) && from <= i <= |buf| && pos <= i
      ensures Standing(buf[pos..i], entity)
      ensures i - from == Need(old(parser), buf[from..])
      ensures parser == Run(old(parser), buf[from..])
    {
      hide Step, Proper, Backlog, Stands;
      pos, entity := 0, [];
      i := from;
      while i < |buf| && state != FINISHED
        invariant buf == old(buf) && from <= i <= |buf| && pos <= i
        invariant Standing(buf[pos..i], entity)
        invariant i - from + Need(parser, buf[i..]) == Need(old(parser), buf[from..])
        invariant Run(parser, buf[i..]) == Run(old(parser), buf[from..])
      {
        FinishedIsStopped(buf[pos..i], last, state, entityMode, entityState1, entityState2, parser);
        assert buf[i..][1..] == buf[i+1..];
        pos, entity := Accept(i, pos, entity);
        i := i + 1;
      }
      FinishedIsStopped(buf[pos..i], last, state, entityMode, entityState1, entityState2, parser);
      if state == FINISHED {
        RunStopped(parser, buf[i..]);
      }
    }
  }

  /** The line that ends before i, without the CR that may be its last byte. */
  lemma LineWithoutCR(buf: Bytes, pos: nat, i: nat, last: Octet)
    requires pos <= i <= |buf| && LastTells(buf[pos..i], last)
    ensures last == CR ==> pos < i
    ensures buf[pos..i - (if last == CR then 1 else 0)] == StripCR(buf[pos..i])
  {
    var line := buf[pos..i];
    assert line != [] ==> line[..|line|-1] == buf[pos..i-1];
  }

  /** A content length is not one of the headers left out. */
  lemma LengthKept(key: Bytes)
    requires Names(key, CONTENT_LENGTH)
    ensures !IsDropped(key)
  {
    DroppedIff(key);
    CompareZero(CStr(key), CONTENT_LENGTH);
  }
}
