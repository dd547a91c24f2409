/** The staged copy from one message to another while the first is still being filled and the
    second is already being drained. */
module MessageCopier {
  import opened Basics
  import opened Octets
  import opened Messages
  import Http

  /** The start line after a copy: a URL that is there already stays. */
  function WithStart(src: Msg, dst: Msg): (r: Msg) {
    if dst.isRequest then dst.(verb := src.verb, url := if dst.url == [] then src.url else dst.url)
    else dst.(status := src.status)
  }

  /** What one copy adds to the destination: everything the source holds, up to the stage that
      both have reached. */
  function Copied(src: Msg, dst: Msg): (d: Msg) {
    WithStart(src, dst).(
      headers := if dst.stage == HEADER then src.headers else [],
      entity := if dst.stage.AtMost(ENTITY) && ENTITY.AtMost(src.stage) then src.entity else [],
      footers := if dst.stage.AtMost(FOOTER) && FOOTER.AtMost(src.stage) then src.footers else [],
      stage := if dst.stage.AtMost(src.stage) then src.stage else dst.stage)
  }

  /** What one copy leaves in the source. */
  function Left(src: Msg, dst: Msg): (r: Msg) {
    src.(
      headers := if dst.stage == HEADER then [] else src.headers,
      entity := if dst.stage.AtMost(ENTITY) && ENTITY.AtMost(src.stage) then [] else src.entity,
      footers := if dst.stage.AtMost(FOOTER) && FOOTER.AtMost(src.stage) then [] else src.footers)
  }

  // ----- runs: any interleaving of source fills, copies and destination drains -----

  /** Two mailboxes, each with everything ever put into it. */
  datatype Link = Link(srcAdded: Msg, src: Msg, dstAdded: Msg, dst: Msg)

  datatype Event =
    | FillSource(d: Msg)
    | Copy
    | TakeHeaders   // the destination's sink drains one part of it
    | TakeEntity
    | TakeFooters

  predicate Enabled(l: Link, e: Event) {
    match e
    case FillSource(d) => Fills(l.src, d)
    case _ => true
  }

  function Next(l: Link, e: Event): (l': Link)
    requires Enabled(l, e)
  {
    match e
    case FillSource(d) => l.(srcAdded := Grown(l.srcAdded, d), src := Grown(l.src, d))
    case Copy =>
      var d := Copied(l.src, l.dst);
      Link(l.srcAdded, Left(l.src, l.dst), Grown(l.dstAdded, d), Grown(l.dst, d))
    case TakeHeaders => l.(dst := l.dst.(headers := []))
    case TakeEntity => l.(dst := l.dst.(entity := []))
    case TakeFooters => l.(dst := l.dst.(footers := []))
  }

  ghost predicate Reaches(l: Link, events: seq<Event>, l': Link)
    decreases |events|
  {
    if events == [] then l == l'
    else Enabled(l, events[0]) && Reaches(Next(l, events[0]), events[1..], l')
  }

  /** Conservation: what was put into the source is what was put into the destination followed by
      what the source still holds, part by part and in order; the destination is never ahead. */
  predicate Conserved(l: Link) {
    && Backlog(l.srcAdded, l.src) && Backlog(l.dstAdded, l.dst)
    && l.src.isRequest == l.dst.isRequest
    && l.dst.stage.AtMost(l.src.stage)
    && l.srcAdded.headers == l.dstAdded.headers + l.src.headers
    && l.srcAdded.entity == l.dstAdded.entity + l.src.entity
    && l.srcAdded.footers == l.dstAdded.footers + l.src.footers
    && (l.dst.stage != HEADER ==> l.src.headers == [])
    && (FOOTER.AtMost(l.dst.stage) ==> l.src.entity == [])
    && (l.dst.stage == DONE ==> l.src.footers == [])
    && StartsAgree(l.src, l.dst)
  }

  /** The part of the start line that a message of its kind uses. */
  predicate SameLine(a: Msg, b: Msg) {
    a.isRequest == b.isRequest
    && if a.isRequest then a.verb == b.verb && a.url == b.url else a.status == b.status
  }

  predicate StartsAgree(src: Msg, dst: Msg) {
    && (StartKnown(dst) ==> StartKnown(src) && SameLine(src, dst))
    && (dst.isRequest ==> dst.url == [] || dst.url == src.url)
  }

  /** Two fresh messages of the same kind. */
  function Opened(isRequest: bool): (l: Link)
    ensures Conserved(l)
  {
    Link(Blank(isRequest), Blank(isRequest), Blank(isRequest), Blank(isRequest))
  }

  lemma EmptySuffix<T>(s: seq<T>)
    ensures Suffix([], s)
  {}

  /** A copy is a legal filling of the destination: no stage assertion fails and a start line
      already complete is not touched. */
  lemma CopyFills(l: Link)
    requires Conserved(l)
    ensures Fills(l.dst, Copied(l.src, l.dst))
  {
    hide Suffix;
  }

  lemma LeftBacklog(l: Link)
    requires Backlog(l.srcAdded, l.src)
    ensures Backlog(l.srcAdded, Left(l.src, l.dst))
  {}

  lemma CopyConserves(l: Link)
    requires Conserved(l)
    ensures Conserved(Next(l, Copy))
  {
    hide Backlog, Fills;
    CopyFills(l);
    CopyBacklogs(l);
    CopyMoves(l);
  }

  lemma CopyBacklogs(l: Link)
    requires Conserved(l)
    ensures var l' := Next(l, Copy); Backlog(l'.srcAdded, l'.src) && Backlog(l'.dstAdded, l'.dst)
  {
    hide Suffix, Fills, Copied, Left, StartsAgree;
    CopyFills(l);
    LeftBacklog(l);
    FillKeepsBacklog(l.dstAdded, l.dst, Copied(l.src, l.dst));
  }

  /** A copy moves bytes and fields from one side of the account to the other. */
  lemma CopyMoves(l: Link)
    requires Conserved(l)
    ensures var l' := Next(l, Copy);
      && l'.srcAdded.headers == l'.dstAdded.headers + l'.src.headers
      && l'.srcAdded.entity == l'.dstAdded.entity + l'.src.entity
      && l'.srcAdded.footers == l'.dstAdded.footers + l'.src.footers
      && l'.dst.stage == l'.src.stage
      && l'.src.headers == [] && l'.src.entity == [] && l'.src.footers == []
  {
    hide Suffix, StartsAgree;
    assert l.dstAdded.headers + [] == l.dstAdded.headers;
    assert l.dstAdded.entity + [] == l.dstAdded.entity;
    assert l.dstAdded.footers + [] == l.dstAdded.footers;
    assert l.src.stage == HEADER ==> l.srcAdded.entity == [];
    assert l.src.stage.AtMost(ENTITY) ==> l.srcAdded.footers == [];
  }

  lemma FillConserves(l: Link, d: Msg)
    requires Conserved(l) && Fills(l.src, d)
    ensures Conserved(Next(l, FillSource(d)))
  {
    hide Suffix;
    FillKeepsBacklog(l.srcAdded, l.src, d);
    Regroup(l.dstAdded.headers, l.src.headers, d.headers);
    Regroup(l.dstAdded.entity, l.src.entity, d.entity);
    Regroup(l.dstAdded.footers, l.src.footers, d.footers);
  }

  /** Conservation holds over every run of fills, copies and drains. */
  lemma {:induction false} RunConserves(l: Link, events: seq<Event>, l': Link)
    requires Conserved(l) && Reaches(l, events, l')
    ensures Conserved(l')
    decreases |events|
  {
    hide Fills, Copied, Left, Suffix;
    if events != [] {
      match events[0] {
        case FillSource(d) => FillConserves(l, d);
        case Copy => CopyConserves(l);
        case TakeHeaders => EmptySuffix(l.dstAdded.headers);
        case TakeEntity => EmptySuffix(l.dstAdded.entity);
        case TakeFooters => EmptySuffix(l.dstAdded.footers);
      }
      RunConserves(Next(l, events[0]), events[1..], l');
    }
  }

  /** Nothing of what was put into the source is missing from the destination. */
  predicate InStep(l: Link) {
    && l.dst.stage == l.src.stage
    && SameLine(l.src, l.dst)
    && l.dstAdded.headers == l.srcAdded.headers
    && l.dstAdded.entity == l.srcAdded.entity
    && l.dstAdded.footers == l.srcAdded.footers
    && l.src.headers == [] && l.src.entity == [] && l.src.footers == []
  }

  /** Right after a copy, in any run, source and destination have received the same message as
      far as it goes and the source is empty; copying again changes nothing. */
  lemma CopyCatchesUp(isRequest: bool, events: seq<Event>, l: Link)
    requires Reaches(Opened(isRequest), events, l)
    ensures InStep(Next(l, Copy))
    ensures Next(Next(l, Copy), Copy) == Next(l, Copy)
  {
    RunConserves(Opened(isRequest), events, l);
    CopyConserves(l);
    CopyInStep(l);
    SecondCopyIdle(Next(l, Copy));
  }

  lemma CopyInStep(l: Link)
    requires Conserved(l)
    ensures InStep(Next(l, Copy))
  {
    hide Suffix;
    CopyMoves(l);
    var l' := Next(l, Copy);
    assert l'.dstAdded.headers + [] == l'.dstAdded.headers;
    assert l'.dstAdded.entity + [] == l'.dstAdded.entity;
    assert l'.dstAdded.footers + [] == l'.dstAdded.footers;
  }

  lemma SecondCopyIdle(l: Link)
    requires Conserved(l) && InStep(l)
    ensures Next(l, Copy) == l
  {
    hide Suffix;
    assert l.dstAdded.headers + [] == l.dstAdded.headers && l.dst.headers + [] == l.dst.headers;
    assert l.dstAdded.entity + [] == l.dstAdded.entity && l.dst.entity + [] == l.dst.entity;
    assert l.dstAdded.footers + [] == l.dstAdded.footers && l.dst.footers + [] == l.dst.footers;
  }

  // ----- the four parts of a copy, one after the other -----

  function StartDone(l: Link): (l': Link) {
    l.(dst := WithStart(l.src, l.dst), dstAdded := WithStart(l.src, l.dstAdded))
  }

  function HeadersDone(l: Link): (l': Link) {
    if l.dst.stage != HEADER then l
    else
      var stage := if l.src.stage == HEADER then HEADER else ENTITY;
      l.(src := l.src.(headers := []),
         dst := l.dst.(headers := l.dst.headers + l.src.headers, stage := stage),
         dstAdded := l.dstAdded.(headers := l.dstAdded.headers + l.src.headers, stage := stage))
  }

  function EntityDone(l: Link): (l': Link) {
    if l.dst.stage != ENTITY then l
    else
      var stage := if l.src.stage.AtMost(ENTITY) then ENTITY else FOOTER;
      l.(src := l.src.(entity := []),
         dst := l.dst.(entity := l.dst.entity + l.src.entity, stage := stage),
         dstAdded := l.dstAdded.(entity := l.dstAdded.entity + l.src.entity, stage := stage))
  }

  function FootersDone(l: Link): (l': Link) {
    if l.dst.stage != FOOTER then l
    else
      var stage := if l.src.stage.AtMost(FOOTER) then FOOTER else DONE;
      l.(src := l.src.(footers := []),
         dst := l.dst.(footers := l.dst.footers + l.src.footers, stage := stage),
         dstAdded := l.dstAdded.(footers := l.dstAdded.footers + l.src.footers, stage := stage))
  }

  /** The four parts together move exactly what the stages allow. */
  lemma CopyBySteps(l: Link)
    requires Conserved(l)
    ensures FootersDone(EntityDone(HeadersDone(StartDone(l)))) == Next(l, Copy)
  {
    hide Suffix;
    assert l.dstAdded.headers + [] == l.dstAdded.headers && l.dst.headers + [] == l.dst.headers;
    assert l.dstAdded.entity + [] == l.dstAdded.entity && l.dst.entity + [] == l.dst.entity;
    assert l.dstAdded.footers + [] == l.dstAdded.footers && l.dst.footers + [] == l.dst.footers;
  }

  // ----- the class -----

  class MessageCopier {
    const msgReq: HttpMessage
    const msgRes: HttpMessage

    constructor (msgReq: HttpMessage, msgRes: HttpMessage)
      ensures this.msgReq == msgReq && this.msgRes == msgRes
    {
      this.msgReq := msgReq;
      this.msgRes := msgRes;
    }

    /** The link between two mailboxes on the heap. */
    ghost function LinkOf(src: HttpMessage, dst: HttpMessage): (l: Link)
      reads src, dst
    {
      Link(src.added, src.Contents(), dst.added, dst.Contents())
    }

    method DumpMessage(src: HttpMessage, dst: HttpMessage)
      requires src != dst && src.Valid() && dst.Valid()
      requires Conserved(LinkOf(src, dst))
      modifies src, dst
      ensures src.Valid() && dst.Valid()
      ensures LinkOf(src, dst) == Next(old(LinkOf(src, dst)), Copy)
      ensures Conserved(LinkOf(src, dst)) && InStep(LinkOf(src, dst))
    {
      hide Conserved, InStep, Copied, Left, StartDone, HeadersDone, EntityDone, FootersDone, Backlog;
      ghost var l := LinkOf(src, dst);
      CopyConserves(l);
      CopyInStep(l);
      CopyBySteps(l);
      DumpStart(src, dst);
      DumpHeaders(src, dst);
      DumpEntity(src, dst);
      DumpFooters(src, dst);
    }

    method DumpStart(src: HttpMessage, dst: HttpMessage)
      requires src != dst && src.Valid() && dst.Valid()
      modifies dst
      ensures dst.Valid() && LinkOf(src, dst) == StartDone(old(LinkOf(src, dst)))
    {
      if dst.isRequest {
        dst.SetVerb(src.verb);
        if dst.url == [] {
          dst.SetUrl(src.url);
        }
      } else {
        dst.SetStatus(src.status);
      }
    }

    method DumpHeaders(src: HttpMessage, dst: HttpMessage)
      requires src != dst && src.Valid() && dst.Valid()
      modifies src, dst
      ensures src.Valid() && dst.Valid()
      ensures LinkOf(src, dst) == HeadersDone(old(LinkOf(src, dst)))
    {
      if dst.state == HEADER {
        var headers := src.GetHeaders();
        AddHeaders(dst, headers);
        if src.state != HEADER {
          dst.EndHeader();
        }
      }
    }

    method AddHeaders(dst: HttpMessage, headers: seq<KeyValue>)
      requires dst.Valid() && dst.state == HEADER
      modifies dst
      ensures dst.Valid()
      ensures dst.Contents() == old(dst.Contents()).(headers := old(dst.headers) + headers)
      ensures dst.added == old(dst.added).(headers := old(dst.added).headers + headers)
    {
      hide Backlog;
      var i := 0;
      while i < |headers|
        invariant 0 <= i <= |headers|
        invariant dst.Valid()
        invariant dst.Contents() == old(dst.Contents()).(headers := old(dst.headers) + headers[..i])
        invariant dst.added == old(dst.added).(headers := old(dst.added).headers + headers[..i])
      {
        assert headers[..i+1] == headers[..i] + [headers[i]];
        dst.AddHeader(headers[i].key, headers[i].value);
        i := i + 1;
      }
      assert headers[..|headers|] == headers;
    }

    method DumpEntity(src: HttpMessage, dst: HttpMessage)
      requires src != dst && src.Valid() && dst.Valid()
      modifies src, dst
      ensures src.Valid() && dst.Valid()
      ensures LinkOf(src, dst) == EntityDone(old(LinkOf(src, dst)))
    {
      hide Backlog;
      if dst.state == ENTITY {
        var entity := src.GetEntity();
        dst.AppendEntity(entity);
        if !src.state.AtMost(ENTITY) {
          dst.EndEntity();
        }
      }
    }

    method DumpFooters(src: HttpMessage, dst: HttpMessage)
      requires src != dst && src.Valid() && dst.Valid()
      modifies src, dst
      ensures src.Valid() && dst.Valid()
      ensures LinkOf(src, dst) == FootersDone(old(LinkOf(src, dst)))
    {
      if dst.state == FOOTER {
        var footers := src.GetFooters();
        AddFooters(dst, footers);
        if !src.state.AtMost(FOOTER) {
          dst.EndFooter();
        }
      }
    }

    method AddFooters(dst: HttpMessage, footers: seq<KeyValue>)
      requires dst.Valid() && dst.state == FOOTER
      modifies dst
      ensures dst.Valid()
      ensures dst.Contents() == old(dst.Contents()).(footers := old(dst.footers) + footers)
      ensures dst.added == old(dst.added).(footers := old(dst.added).footers + footers)
    {
      hide Backlog;
      var i := 0;
      while i < |footers|
        invariant 0 <= i <= |footers|
        invariant dst.Valid()
        invariant dst.Contents() == old(dst.Contents()).(footers := old(dst.footers) + footers[..i])
        invariant dst.added == old(dst.added).(footers := old(dst.added).footers + footers[..i])
      {
        assert footers[..i+1] == footers[..i] + [footers[i]];
        dst.AddFooter(footers[i].key, footers[i].value);
        i := i + 1;
      }
      assert footers[..|footers|] == footers;
    }

    method GenerateRequest(msg: HttpMessage)
      requires msgReq != msg && msgReq.Valid() && msg.Valid()
      requires Conserved(LinkOf(msgReq, msg))
      modifies msgReq, msg
      ensures msgReq.Valid() && msg.Valid()
      ensures LinkOf(msgReq, msg) == Next(old(LinkOf(msgReq, msg)), Copy)
      ensures Conserved(LinkOf(msgReq, msg)) && InStep(LinkOf(msgReq, msg))
    {
      DumpMessage(msgReq, msg);
    }

    method ReadResponse(msg: HttpMessage)
      requires msg != msgRes && msgRes.Valid() && msg.Valid()
      requires Conserved(LinkOf(msg, msgRes))
      modifies msg, msgRes
      ensures msgRes.Valid() && msg.Valid()
      ensures LinkOf(msg, msgRes) == Next(old(LinkOf(msg, msgRes)), Copy)
      ensures Conserved(LinkOf(msg, msgRes)) && InStep(LinkOf(msg, msgRes))
    {
      DumpMessage(msg, msgRes);
    }
  }
}
