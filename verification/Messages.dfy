/** The `http_message` mailbox: a message that a source fills stage by stage while a sink
    drains it. */
module Messages {
  import opened Octets
  import Http

  datatype Stage = HEADER | ENTITY | FOOTER | DONE {
    function Rank(): (r: nat) {
      match this
      case HEADER => 0
      case ENTITY => 1
      case FOOTER => 2
      case DONE => 3
    }

    predicate AtMost(other: Stage) {
      Rank() <= other.Rank()
    }
  }

  datatype KeyValue = KeyValue(key: Bytes, value: Bytes)

  /** The value of a mailbox, or of everything ever put into one. */
  datatype Msg = Msg(
    isRequest: bool,
    verb: nat,
    url: Bytes,
    status: int,
    headers: seq<KeyValue>,
    entity: Bytes,
    footers: seq<KeyValue>,
    stage: Stage)

  function Blank(isRequest: bool): Msg {
    Msg(isRequest, Http.VERB_UNKNOWN, [], -1, [], [], [], HEADER)
  }

  predicate SameStart(a: Msg, b: Msg) {
    a.isRequest == b.isRequest && a.verb == b.verb && a.url == b.url && a.status == b.status
  }

  /** Whether the start line is complete, so that a printer may begin. */
  predicate StartKnown(m: Msg) {
    if m.isRequest then m.url != [] && m.verb != Http.VERB_UNKNOWN else m.status != -1
  }

  predicate Sent(m: Msg) {
    m.stage == DONE && m.headers == [] && m.entity == [] && m.footers == []
  }

  /** Nothing is left in a mailbox that could be taken out of it by now. */
  predicate Emptied(m: Msg) {
    && m.headers == []
    && (ENTITY.AtMost(m.stage) ==> m.entity == [])
    && (FOOTER.AtMost(m.stage) ==> m.footers == [])
  }

  // ----- filling -----

  /** The message m after the additions d, whose start line and stage are the new ones. */
  function Grown(m: Msg, d: Msg): (r: Msg) {
    d.(headers := m.headers + d.headers,
       entity := m.entity + d.entity,
       footers := m.footers + d.footers)
  }

  /** The additions d respect the stage assertions, and leave a complete start line and a URL
      that is there already alone. */
  predicate Fills(m: Msg, d: Msg) {
    && m.isRequest == d.isRequest
    && m.stage.AtMost(d.stage)
    && (StartKnown(m) ==> SameStart(m, d))
    && (m.url != [] ==> d.url == m.url)
    && (d.headers != [] ==> m.stage == HEADER)
    && (d.entity != [] ==> m.stage.AtMost(ENTITY) && ENTITY.AtMost(d.stage))
    && (d.footers != [] ==> m.stage.AtMost(FOOTER) && FOOTER.AtMost(d.stage))
  }

  // ----- what has been added and what is still held -----

  predicate Suffix<T(==)>(s: seq<T>, t: seq<T>) {
    |s| <= |t| && t[|t|-|s|..] == s
  }

  /** `held` is what remains in a mailbox into which `added` was put over time. */
  predicate Backlog(added: Msg, held: Msg) {
    && SameStart(added, held)
    && added.stage == held.stage
    && Suffix(held.headers, added.headers)
    && Suffix(held.entity, added.entity)
    && Suffix(held.footers, added.footers)
    && (added.stage == HEADER ==> added.entity == [])
    && (added.stage.AtMost(ENTITY) ==> added.footers == [])
  }

  /** What has left the mailbox. */
  function Taken(added: Msg, held: Msg): (r: Msg)
    requires Backlog(added, held)
    ensures added.headers == r.headers + held.headers
    ensures added.entity == r.entity + held.entity
    ensures added.footers == r.footers + held.footers
  {
    added.(headers := added.headers[..|added.headers|-|held.headers|],
           entity := added.entity[..|added.entity|-|held.entity|],
           footers := added.footers[..|added.footers|-|held.footers|])
  }

  /** What was added is what has been taken and then what is held. */
  predicate Divided(added: Msg, taken: Msg, held: Msg) {
    && SameStart(added, held)
    && added.stage == held.stage
    && added.headers == taken.headers + held.headers
    && added.entity == taken.entity + held.entity
    && added.footers == taken.footers + held.footers
    && (added.stage == HEADER ==> added.entity == [])
    && (added.stage.AtMost(ENTITY) ==> added.footers == [])
  }

  lemma TakenDivides(added: Msg, held: Msg)
    requires Backlog(added, held)
    ensures Divided(added, Taken(added, held), held)
  {}

  lemma DividedIsBacklog(added: Msg, taken: Msg, held: Msg)
    requires Divided(added, taken, held)
    ensures Backlog(added, held)
  {
    assert Suffix(held.headers, added.headers);
    assert Suffix(held.entity, added.entity);
    assert Suffix(held.footers, added.footers);
  }

  /** Filling puts the additions behind what is held and takes nothing away. */
  lemma FillKeepsBacklog(added: Msg, held: Msg, d: Msg)
    requires Backlog(added, held) && Fills(held, d)
    ensures Backlog(Grown(added, d), Grown(held, d))
    ensures var t, t' := Taken(added, held), Taken(Grown(added, d), Grown(held, d));
      t'.headers == t.headers && t'.entity == t.entity && t'.footers == t.footers
  {
    SuffixGrows(held.headers, added.headers, d.headers);
    SuffixGrows(held.entity, added.entity, d.entity);
    SuffixGrows(held.footers, added.footers, d.footers);
  }

  /** Once the start line is complete a filling changes nothing but the stage of what has left. */
  lemma FillKeepsTaken(added: Msg, held: Msg, d: Msg, stage: Stage)
    requires Backlog(added, held) && Fills(held, d) && StartKnown(held)
    ensures Backlog(Grown(added, d), Grown(held, d))
    ensures Taken(Grown(added, d), Grown(held, d)).(stage := stage) == Taken(added, held).(stage := stage)
  {
    hide Suffix;
    FillKeepsBacklog(added, held, d);
  }

  lemma AllTaken(added: Msg, held: Msg)
    requires Backlog(added, held)
    requires held.headers == [] && held.entity == [] && held.footers == []
    ensures Taken(added, held) == added
  {}

  /** A mailbox has been sent exactly when it is complete and everything ever put into it has left. */
  lemma SentIff(added: Msg, held: Msg)
    requires Backlog(added, held)
    ensures Sent(held) <==> added.stage == DONE && Taken(added, held) == added
  {
    var t := Taken(added, held);
    assert |t.headers| + |held.headers| == |added.headers|;
    assert |t.entity| + |held.entity| == |added.entity|;
    assert |t.footers| + |held.footers| == |added.footers|;
  }

  /** Two fillings one after the other are one filling. */
  lemma FillsCompose(m: Msg, d1: Msg, d2: Msg)
    requires Fills(m, d1) && Fills(Grown(m, d1), d2)
    ensures Fills(m, Grown(d1, d2)) && Grown(m, Grown(d1, d2)) == Grown(Grown(m, d1), d2)
  {
    assert m.headers + d1.headers + d2.headers == m.headers + (d1.headers + d2.headers);
    assert m.entity + d1.entity + d2.entity == m.entity + (d1.entity + d2.entity);
    assert m.footers + d1.footers + d2.footers == m.footers + (d1.footers + d2.footers);
  }

  /** What has been added to a message to make it another. */
  function Added(m: Msg, m': Msg): (d: Msg)
    requires m.headers <= m'.headers && m.entity <= m'.entity && m.footers <= m'.footers
    ensures Grown(m, d) == m'
  {
    m'.(headers := m'.headers[|m.headers|..],
        entity := m'.entity[|m.entity|..],
        footers := m'.footers[|m.footers|..])
  }

  /** A message becomes another by legal additions. */
  predicate FilledTo(m: Msg, m': Msg) {
    && m.headers <= m'.headers && m.entity <= m'.entity && m.footers <= m'.footers
    && Fills(m, Added(m, m'))
  }

  lemma FilledToItself(m: Msg)
    ensures FilledTo(m, m)
  {}

  lemma StartFills(m: Msg, verb: nat, url: Bytes, status: int)
    requires !StartKnown(m) && m.url == []
    ensures FilledTo(m, m.(verb := verb, url := url, status := status))
  {}

  lemma HeaderFills(m: Msg, kv: KeyValue)
    requires m.stage == HEADER
    ensures FilledTo(m, m.(headers := m.headers + [kv]))
  {}

  lemma EntityFills(m: Msg, e: Bytes)
    requires m.stage == ENTITY
    ensures FilledTo(m, m.(entity := m.entity + e))
  {}

  lemma FooterFills(m: Msg, kv: KeyValue)
    requires m.stage == FOOTER
    ensures FilledTo(m, m.(footers := m.footers + [kv]))
  {}

  lemma StageFills(m: Msg, stage: Stage)
    requires m.stage.AtMost(stage)
    ensures FilledTo(m, m.(stage := stage))
  {}

  lemma FilledToTransitive(a: Msg, b: Msg, c: Msg)
    requires FilledTo(a, b) && FilledTo(b, c)
    ensures FilledTo(a, c)
  {
    var d1, d2 := Added(a, b), Added(b, c);
    assert b.headers == a.headers + d1.headers && c.headers == b.headers + d2.headers;
    assert b.entity == a.entity + d1.entity && c.entity == b.entity + d2.entity;
    assert b.footers == a.footers + d1.footers && c.footers == b.footers + d2.footers;
    FillsCompose(a, d1, d2);
    assert Added(a, c) == Grown(d1, d2);
  }

  /** What may be added to a message may be added to what is left of it in its mailbox. */
  lemma FillsHeld(added: Msg, held: Msg, d: Msg)
    requires Backlog(added, held)
    ensures Fills(added, d) <==> Fills(held, d)
  {
    hide Suffix;
  }

  /** A filling does not turn a request into a response. */
  lemma FillSameKind(held: Msg, d: Msg)
    requires Fills(held, d)
    ensures d.isRequest == held.isRequest
  {}

  // draining one part moves exactly that part to what has left the mailbox

  lemma DrainHeaders(added: Msg, held: Msg)
    requires Backlog(added, held)
    ensures Backlog(added, held.(headers := []))
    ensures Taken(added, held.(headers := []))
         == Taken(added, held).(headers := Taken(added, held).headers + held.headers)
  {}

  lemma DrainEntity(added: Msg, held: Msg)
    requires Backlog(added, held)
    ensures Backlog(added, held.(entity := []))
    ensures Taken(added, held.(entity := []))
         == Taken(added, held).(entity := Taken(added, held).entity + held.entity)
  {}

  lemma DrainFooters(added: Msg, held: Msg)
    requires Backlog(added, held)
    ensures Backlog(added, held.(footers := []))
    ensures Taken(added, held.(footers := []))
         == Taken(added, held).(footers := Taken(added, held).footers + held.footers)
  {}

  lemma SuffixGrows<T>(s: seq<T>, t: seq<T>, u: seq<T>)
    requires Suffix(s, t)
    ensures Suffix(s + u, t + u)
    ensures (t + u)[..|t+u|-|s+u|] == t[..|t|-|s|]
  {
    assert (t + u)[|t|-|s|..] == t[|t|-|s|..] + u;
  }

  class HttpMessage {
    const isRequest: bool
    var verb: nat
    var url: Bytes
    var status: int
    var headers: seq<KeyValue>
    var footers: seq<KeyValue>
    var entity: Bytes
    var state: Stage

    // everything ever put into this mailbox
    ghost var added: Msg

    constructor (isRequest: bool)
      ensures this.isRequest == isRequest
      ensures Valid() && Contents() == added == Blank(isRequest)
    {
      this.isRequest := isRequest;
      verb := Http.VERB_UNKNOWN;
      url := [];
      status := -1;
      headers, footers, entity := [], [], [];
      state := HEADER;
      added := Blank(isRequest);
    }

    function Contents(): (m: Msg)
      reads this
    {
      Msg(isRequest, verb, url, status, headers, entity, footers, state)
    }

    ghost predicate Valid()
      reads this
    {
      Backlog(added, Contents()) && added.stage == state
    }

    // ----- source interface -----

    method SetUrl(u: Bytes)
      requires Valid()
      modifies this
      ensures Valid()
      ensures Contents() == old(Contents()).(url := u) && added == old(added).(url := u)
    {
      url := u;
      added := added.(url := u);
    }

    method SetVerb(v: nat)
      requires Valid()
      modifies this
      ensures Valid()
      ensures Contents() == old(Contents()).(verb := v) && added == old(added).(verb := v)
    {
      verb := v;
      added := added.(verb := v);
    }

    method SetStatus(s: int)
      requires Valid()
      modifies this
      ensures Valid()
      ensures Contents() == old(Contents()).(status := s) && added == old(added).(status := s)
    {
      status := s;
      added := added.(status := s);
    }

    method AddHeader(key: Bytes, value: Bytes)
      requires Valid()
      requires state == HEADER
      modifies this
      ensures Valid()
      ensures Contents() == old(Contents()).(headers := old(headers) + [KeyValue(key, value)])
      ensures added == old(added).(headers := old(added.headers) + [KeyValue(key, value)])
    {
      hide Suffix;
      SuffixGrows(headers, added.headers, [KeyValue(key, value)]);
      headers := headers + [KeyValue(key, value)];
      added := added.(headers := added.headers + [KeyValue(key, value)]);
    }

    method AppendEntity(e: Bytes)
      requires Valid()
      requires state == ENTITY
      modifies this
      ensures Valid()
      ensures Contents() == old(Contents()).(entity := old(entity) + e)
      ensures added == old(added).(entity := old(added.entity) + e)
    {
      hide Suffix;
      SuffixGrows(entity, added.entity, e);
      entity := entity + e;
      added := added.(entity := added.entity + e);
    }

    method AddFooter(key: Bytes, value: Bytes)
      requires Valid()
      requires state == FOOTER
      modifies this
      ensures Valid()
      ensures Contents() == old(Contents()).(footers := old(footers) + [KeyValue(key, value)])
      ensures added == old(added).(footers := old(added.footers) + [KeyValue(key, value)])
    {
      hide Suffix;
      SuffixGrows(footers, added.footers, [KeyValue(key, value)]);
      footers := footers + [KeyValue(key, value)];
      added := added.(footers := added.footers + [KeyValue(key, value)]);
    }

    method EndHeader()
      requires Valid()
      requires state.AtMost(HEADER)
      modifies this
      ensures Valid()
      ensures Contents() == old(Contents()).(stage := ENTITY) && added == old(added).(stage := ENTITY)
    {
      state := ENTITY;
      added := added.(stage := ENTITY);
    }

    method EndEntity()
      requires Valid()
      requires state.AtMost(ENTITY)
      modifies this
      ensures Valid()
      ensures Contents() == old(Contents()).(stage := FOOTER) && added == old(added).(stage := FOOTER)
    {
      state := FOOTER;
      added := added.(stage := FOOTER);
    }

    method EndFooter()
      requires Valid()
      requires state.AtMost(FOOTER)
      modifies this
      ensures Valid()
      ensures Contents() == old(Contents()).(stage := DONE) && added == old(added).(stage := DONE)
    {
      state := DONE;
      added := added.(stage := DONE);
    }

    // ----- sink interface -----

    method GetHeaders() returns (hs: seq<KeyValue>)
      requires Valid()
      modifies this
      ensures Valid() && added == old(added)
      ensures hs == old(headers) && Contents() == old(Contents()).(headers := [])
    {
      hs := headers;
      headers := [];
    }

    method GetEntity() returns (e: Bytes)
      requires Valid()
      modifies this
      ensures Valid() && added == old(added)
      ensures e == old(entity) && Contents() == old(Contents()).(entity := [])
    {
      e := entity;
      entity := [];
    }

    method GetFooters() returns (fs: seq<KeyValue>)
      requires Valid()
      modifies this
      ensures Valid() && added == old(added)
      ensures fs == old(footers) && Contents() == old(Contents()).(footers := [])
    {
      fs := footers;
      footers := [];
    }

    /** Complete, and everything ever put into it has left. */
    predicate IsSent()
      reads this
      ensures Valid() ==> (IsSent() <==> added.stage == DONE && Taken(added, Contents()) == added)
    {
      hide Suffix;
      assert Valid() ==> (Sent(Contents()) <==> added.stage == DONE && Taken(added, Contents()) == added) by {
        if Valid() { SentIff(added, Contents()); }
      }
      state == DONE && headers == [] && entity == [] && footers == []
    }
  }
}
