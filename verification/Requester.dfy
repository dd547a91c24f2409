/** The pool of connections upstream: requests reuse an idle virtual connection to their endpoint,
    or open a new one on a connection that has room, or make a new connection below the cap. */
module Requester {
  import opened Basics
  import opened Codecs
  import opened Messages
  import opened Octets
  import opened Pipeline
  import opened ReqLinkers
  import MuxFormat
  import Sockets

  datatype Endpoint = Endpoint(host: Bytes, service: Bytes)

  /** A live linker: where it leads, and the connection it is on. */
  datatype Placed = Placed(endpoint: Endpoint, conn: nat, linker: Linker)

  /** A live connection, and the linkers on it. */
  datatype Conn = Conn(endpoint: Endpoint, linkers: set<nat>)

  /** The two shared maps, what is alive, and for each generator ever accepted the linker that
      took it. Identifiers below `next` have been given out. */
  datatype Pool = Pool(
    codec: Codec,
    mux: bool,      // connections are multiplexed; otherwise each carries one linker
    max: nat,
    linkers: map<nat, Placed>,
    conns: map<nat, Conn>,
    reqMp: map<Endpoint, set<nat>>,
    connMp: map<Endpoint, set<nat>>,
    next: nat,
    owner: map<nat, nat>)

  function Empty(codec: Codec, mux: bool, max: nat): (p: Pool) {
    Pool(codec, mux, max, map[], map[], map[], map[], 0, map[])
  }

  /** An entry of a map that is made, empty, when it is first looked up. */
  function At(m: map<Endpoint, set<nat>>, e: Endpoint): (s: set<nat>) {
    if e in m then m[e] else {}
  }

  // ----- the invariant -----

  ghost predicate LinkersOk(p: Pool) {
    forall id :: id in p.linkers ==> LinkerOk(p.linkers[id].linker) && p.linkers[id].linker.codec == p.codec
  }

  /** A live linker is in the pool of its endpoint exactly when it has no generator. */
  ghost predicate IdleExact(p: Pool) {
    forall e, id :: id in At(p.reqMp, e) <==>
      id in p.linkers && p.linkers[id].endpoint == e && p.linkers[id].linker.talk.None?
  }

  /** The connections to an endpoint are those that are alive, and no more than the cap. */
  ghost predicate ConnsExact(p: Pool) {
    && (forall e, c :: c in At(p.connMp, e) <==> c in p.conns && p.conns[c].endpoint == e)
    && (forall e :: |At(p.connMp, e)| <= p.max)
  }

  function Capacity(p: Pool): (n: nat) {
    if p.mux then MuxFormat.IDS else 1
  }

  ghost predicate PlacesMatch(p: Pool) {
    forall c, id :: c in p.conns && id in p.conns[c].linkers <==>
      id in p.linkers && p.linkers[id].conn == c && c in p.conns
  }

  ghost predicate PlacesLive(p: Pool) {
    forall id :: id in p.linkers ==>
      p.linkers[id].conn in p.conns && p.conns[p.linkers[id].conn].endpoint == p.linkers[id].endpoint
  }

  ghost predicate WithinCapacity(p: Pool) {
    forall c :: c in p.conns ==> 0 < |p.conns[c].linkers| <= Capacity(p)
  }

  /** Every live linker is on one live connection, to the same endpoint. */
  ghost predicate PlacedExact(p: Pool) {
    PlacesMatch(p) && PlacesLive(p) && WithinCapacity(p)
  }

  predicate Serves(l: Linker, gen: nat) {
    (l.talk.Some? && l.talk.value.gen == gen) || exists k :: 0 <= k < |l.past| && l.past[k].gen == gen
  }

  /** A linker serves each generator once. */
  predicate OnceEach(l: Linker) {
    && (forall i, j :: 0 <= i < j < |l.past| ==> l.past[i].gen != l.past[j].gen)
    && (l.talk.Some? ==> forall k :: 0 <= k < |l.past| ==> l.past[k].gen != l.talk.value.gen)
  }

  /** A generator that has been accepted is served by the linker that took it and by no other. */
  ghost predicate OwnersExact(p: Pool) {
    && (forall id, gen :: id in p.linkers && Serves(p.linkers[id].linker, gen) ==>
         gen in p.owner && p.owner[gen] == id)
    && (forall gen :: gen in p.owner && p.owner[gen] in p.linkers ==>
         Serves(p.linkers[p.owner[gen]].linker, gen))
    && (forall id :: id in p.linkers ==> OnceEach(p.linkers[id].linker))
  }

  predicate Fresh(p: Pool) {
    && (forall id :: id in p.linkers ==> id < p.next)
    && (forall c :: c in p.conns ==> c < p.next)
    && (forall gen :: gen in p.owner ==> p.owner[gen] < p.next)
  }

  ghost predicate PoolOk(p: Pool) {
    LinkersOk(p) && IdleExact(p) && ConnsExact(p) && PlacedExact(p) && OwnersExact(p) && Fresh(p)
  }

  // ----- accepting a request -----

  function Reused(p: Pool, id: nat, gen: nat): (p': Pool)
    requires id in p.linkers && p.linkers[id].linker.talk.None?
  {
    var l := p.linkers[id];
    p.(linkers := p.linkers[id := l.(linker := Asked(l.linker, gen))],
       reqMp := p.reqMp[l.endpoint := At(p.reqMp, l.endpoint) - {id}],
       owner := p.owner[gen := id])
  }

  function Joined(p: Pool, c: nat, gen: nat): (p': Pool)
    requires c in p.conns
  {
    var cn := p.conns[c];
    p.(linkers := p.linkers[p.next := Placed(cn.endpoint, c, Asked(Idle(p.codec), gen))],
       conns := p.conns[c := cn.(linkers := cn.linkers + {p.next})],
       next := p.next + 1,
       owner := p.owner[gen := p.next])
  }

  function Opened(p: Pool, e: Endpoint, gen: nat): (p': Pool) {
    var c, id := p.next, p.next + 1;
    p.(linkers := p.linkers[id := Placed(e, c, Asked(Idle(p.codec), gen))],
       conns := p.conns[c := Conn(e, {id})],
       connMp := p.connMp[e := At(p.connMp, e) + {c}],
       next := p.next + 2,
       owner := p.owner[gen := id])
  }

  predicate HasRoom(p: Pool, c: nat)
    requires c in p.conns
  {
    p.mux && |p.conns[c].linkers| < MuxFormat.IDS
  }

  predicate RoomAt(p: Pool, e: Endpoint, c: nat) {
    c in At(p.connMp, e) && c in p.conns && HasRoom(p, c)
  }

  /** Whether the request is accepted, given whether a new connection can be made. */
  ghost predicate Accepted(p: Pool, e: Endpoint, reachable: bool) {
    || At(p.reqMp, e) != {}
    || (exists c :: RoomAt(p, e, c))
    || (|At(p.connMp, e)| < p.max && reachable)
  }

  /** What accepting a request may lead to; which of several idle linkers or of several connections
      with room is taken is left open. */
  ghost predicate AddStep(p: Pool, e: Endpoint, gen: nat, reachable: bool, ok: bool, p': Pool) {
    if At(p.reqMp, e) != {} then
      ok && exists id :: id in At(p.reqMp, e) && id in p.linkers && p.linkers[id].linker.talk.None?
                         && p' == Reused(p, id, gen)
    else if exists c :: RoomAt(p, e, c) then
      ok && exists c :: RoomAt(p, e, c) && p' == Joined(p, c, gen)
    else if |At(p.connMp, e)| < p.max && reachable then ok && p' == Opened(p, e, gen)
    else !ok && p' == p
  }

  // ----- the calls on a linker, and the end of a connection -----

  /** A linker moves on; if that leaves it without a generator it goes into the pool. */
  function Moved(p: Pool, id: nat, l: Linker): (p': Pool)
    requires id in p.linkers
  {
    var pl := p.linkers[id];
    p.(linkers := p.linkers[id := pl.(linker := l)],
       reqMp := if pl.linker.talk.Some? && l.talk.None? then
                  p.reqMp[pl.endpoint := At(p.reqMp, pl.endpoint) + {id}]
                else p.reqMp)
  }

  /** A connection goes, and every linker on it. */
  function Closed(p: Pool, c: nat): (p': Pool)
    requires c in p.conns
  {
    var cn := p.conns[c];
    p.(linkers := p.linkers - cn.linkers,
       conns := p.conns - {c},
       reqMp := p.reqMp[cn.endpoint := At(p.reqMp, cn.endpoint) - cn.linkers],
       connMp := p.connMp[cn.endpoint := At(p.connMp, cn.endpoint) - {c}])
  }

  // ----- each of these keeps the pool exact -----

  lemma AtUpdated(m: map<Endpoint, set<nat>>, e: Endpoint, s: set<nat>)
    ensures forall other :: At(m[e := s], other) == if other == e then s else At(m, other)
  {
    forall other: Endpoint ensures At(m[e := s], other) == if other == e then s else At(m, other) {}
  }

  lemma EmptyOk(codec: Codec, mux: bool, max: nat)
    ensures PoolOk(Empty(codec, mux, max))
  {}

  lemma AskedServes(l: Linker, gen: nat)
    requires l.talk.None? && OnceEach(l) && !Serves(l, gen)
    ensures Asked(l, gen).talk.Some? && OnceEach(Asked(l, gen))
    ensures forall g :: Serves(Asked(l, gen), g) <==> Serves(l, g) || g == gen
  {}

  lemma IdleOk(codec: Codec, gen: nat)
    ensures var l := Asked(Idle(codec), gen);
      && LinkerOk(l) && OnceEach(l) && l.talk.Some? && l.codec == codec
      && forall g :: Serves(l, g) <==> g == gen
  {
    hide LinkerOk;
    assert LinkerOk(Idle(codec)) by { IdleLinkerOk(codec); }
    AskedOk(Idle(codec), gen);
    AskedServes(Idle(codec), gen);
  }

  lemma IdleLinkerOk(codec: Codec)
    ensures LinkerOk(Idle(codec))
  {}

  /** The pools stay exact when one linker changes and only the pool of its endpoint changes, by
      that linker. */
  lemma IdleChanges(p: Pool, p': Pool, id: nat)
    requires IdleExact(p) && id in p'.linkers
    requires id in p.linkers ==> p.linkers[id].endpoint == p'.linkers[id].endpoint
    requires forall i :: i != id ==> (i in p'.linkers <==> i in p.linkers)
    requires forall i :: i != id && i in p.linkers ==> p'.linkers[i] == p.linkers[i]
    requires forall e :: e != p'.linkers[id].endpoint ==> At(p'.reqMp, e) == At(p.reqMp, e)
    requires var e := p'.linkers[id].endpoint;
      At(p'.reqMp, e) ==
        if p'.linkers[id].linker.talk.None? then At(p.reqMp, e) + {id} else At(p.reqMp, e) - {id}
    ensures IdleExact(p')
  {
    hide At;
    forall e, i ensures i in At(p'.reqMp, e) <==>
      i in p'.linkers && p'.linkers[i].endpoint == e && p'.linkers[i].linker.talk.None?
    {
      assert e != p'.linkers[id].endpoint ==> At(p'.reqMp, e) == At(p.reqMp, e);
      assert i in At(p.reqMp, e) <==>
        i in p.linkers && p.linkers[i].endpoint == e && p.linkers[i].linker.talk.None?;
    }
  }

  lemma SamePlaces(p: Pool, p': Pool)
    requires PlacedExact(p) && p'.conns == p.conns && p'.mux == p.mux
    requires p'.linkers.Keys == p.linkers.Keys
    requires forall i :: i in p.linkers ==>
      p'.linkers[i].conn == p.linkers[i].conn && p'.linkers[i].endpoint == p.linkers[i].endpoint
    ensures PlacedExact(p')
  {
    assert forall i :: i in p'.linkers <==> i in p.linkers.Keys;
  }

  /** A new linker on a connection, which may be new too. */
  lemma NewPlace(p: Pool, p': Pool, id: nat, pl: Placed, there: set<nat>)
    requires PlacedExact(p) && id !in p.linkers && p'.mux == p.mux
    requires p'.linkers == p.linkers[id := pl]
    requires p'.conns == p.conns[pl.conn := Conn(pl.endpoint, there + {id})]
    requires if pl.conn in p.conns then p.conns[pl.conn] == Conn(pl.endpoint, there) && |there| < Capacity(p)
             else there == {}
    ensures PlacedExact(p')
  {
    assert pl.conn in p.conns && id in p.conns[pl.conn].linkers ==> id in p.linkers;
    forall c, i ensures c in p'.conns && i in p'.conns[c].linkers <==>
      i in p'.linkers && p'.linkers[i].conn == c && c in p'.conns
    {
      assert c in p.conns && i in p.conns[c].linkers <==> i in p.linkers && p.linkers[i].conn == c && c in p.conns;
      assert i in p.linkers ==> p.linkers[i].conn in p.conns;
    }
    hide Capacity;
    assert |there + {id}| == |there| + 1;
    forall i | i in p'.linkers
      ensures p'.linkers[i].conn in p'.conns && p'.conns[p'.linkers[i].conn].endpoint == p'.linkers[i].endpoint
    {
      assert i in p.linkers ==> p.linkers[i].conn in p.conns;
    }
    CapacityIs(p, p');
    forall c | c in p'.conns ensures 0 < |p'.conns[c].linkers| <= Capacity(p') {
      assert c in p.conns ==> 0 < |p.conns[c].linkers| <= Capacity(p);
    }
  }

  lemma CapacityIs(p: Pool, p': Pool)
    requires p'.mux == p.mux
    ensures Capacity(p') == Capacity(p) && Capacity(p) >= 1
  {}

  /** A linker takes a generator that nobody has taken before. */
  lemma OwnersAsked(p: Pool, p': Pool, id: nat, gen: nat)
    requires OwnersExact(p) && gen !in p.owner && p'.owner == p.owner[gen := id]
    requires id in p.linkers || forall g :: g in p.owner ==> p.owner[g] != id
    requires id in p'.linkers && OnceEach(p'.linkers[id].linker)
    requires forall i :: i != id ==> (i in p'.linkers <==> i in p.linkers)
    requires forall i :: i != id && i in p.linkers ==> p'.linkers[i] == p.linkers[i]
    requires forall g :: Serves(p'.linkers[id].linker, g) <==>
      g == gen || (id in p.linkers && Serves(p.linkers[id].linker, g))
    ensures OwnersExact(p')
  {
    hide Serves, OnceEach;
  }

  lemma OwnersKept(p: Pool, p': Pool, id: nat)
    requires OwnersExact(p) && p'.owner == p.owner && id in p.linkers && id in p'.linkers
    requires forall i :: i != id ==> (i in p'.linkers <==> i in p.linkers)
    requires forall i :: i != id && i in p.linkers ==> p'.linkers[i] == p.linkers[i]
    requires OnceEach(p'.linkers[id].linker)
    requires forall g :: Serves(p'.linkers[id].linker, g) <==> Serves(p.linkers[id].linker, g)
    ensures OwnersExact(p')
  {
    hide Serves, OnceEach;
  }

  lemma NextIsNew(p: Pool)
    requires ConnsExact(p) && PlacedExact(p) && Fresh(p)
    ensures p.next !in p.linkers && p.next !in p.conns
    ensures forall e :: p.next !in At(p.connMp, e)
    ensures forall c :: c in p.conns ==> p.next !in p.conns[c].linkers
  {}

  lemma NeverTaken(p: Pool, id: nat, gen: nat)
    requires OwnersExact(p) && id in p.linkers && gen !in p.owner
    ensures !Serves(p.linkers[id].linker, gen) && OnceEach(p.linkers[id].linker)
  {
    hide Serves, OnceEach;
  }

  lemma ReusedOk(p: Pool, e: Endpoint, id: nat, gen: nat)
    requires PoolOk(p) && id in At(p.reqMp, e) && gen !in p.owner
    ensures id in p.linkers && p.linkers[id].endpoint == e && p.linkers[id].linker.talk.None?
    ensures PoolOk(Reused(p, id, gen))
  {
    hide LinkerOk, Serves, OnceEach, Asked, At, PlacedExact;
    hide IdleExact, OwnersExact, ConnsExact;
    IdleEndpoint(p, e, id);
    var l := p.linkers[id].linker;
    var p' := Reused(p, id, gen);
    AskedOk(l, gen);
    NeverTaken(p, id, gen);
    AskedServes(l, gen);
    ConnsSame(p, p');
    AtUpdated(p.reqMp, e, At(p.reqMp, e) - {id});
    IdleChanges(p, p', id);
    OwnersAsked(p, p', id, gen);
    SamePlaces(p, p');
  }

  lemma JoinedOk(p: Pool, c: nat, gen: nat)
    requires PoolOk(p) && c in p.conns && HasRoom(p, c) && gen !in p.owner
    ensures PoolOk(Joined(p, c, gen))
  {
    hide LinkerOk, Serves, OnceEach, Asked, At, OwnersExact, PlacedExact, IdleExact;
    var p', id := Joined(p, c, gen), p.next;
    IdleOk(p.codec, gen);
    NextIsNew(p);
    NewInPools(p, p', id);
    OwnersAsked(p, p', id, gen);
    NewPlace(p, p', id, p'.linkers[id], p.conns[c].linkers);
  }

  /** A busy linker in no pool. */
  lemma NewInPools(p: Pool, p': Pool, id: nat)
    requires IdleExact(p) && id !in p.linkers && p'.reqMp == p.reqMp
    requires id in p'.linkers && p'.linkers == p.linkers[id := p'.linkers[id]]
    requires p'.linkers[id].linker.talk.Some?
    ensures IdleExact(p')
  {
    hide At;
  }

  lemma OpenedOk(p: Pool, e: Endpoint, gen: nat)
    requires PoolOk(p) && |At(p.connMp, e)| < p.max && gen !in p.owner
    ensures PoolOk(Opened(p, e, gen))
  {
    hide LinkerOk, Serves, OnceEach, Asked, At, OwnersExact, PlacedExact, IdleExact, ConnsExact;
    var p', c, id := Opened(p, e, gen), p.next, p.next + 1;
    IdleOk(p.codec, gen);
    NextIsNew(p);
    NewInPools(p, p', id);
    OwnersAsked(p, p', id, gen);
    NewPlace(p, p', id, p'.linkers[id], {});
    AtUpdated(p.connMp, e, At(p.connMp, e) + {c});
    ConnAdded(p, p', e, c);
  }

  lemma ConnAdded(p: Pool, p': Pool, e: Endpoint, c: nat)
    requires ConnsExact(p) && p'.max == p.max && |At(p.connMp, e)| < p.max && c !in p.conns
    requires forall other :: At(p'.connMp, other) == (if other == e then At(p.connMp, e) + {c} else At(p.connMp, other))
    requires c in p'.conns && p'.conns == p.conns[c := p'.conns[c]] && p'.conns[c].endpoint == e
    ensures ConnsExact(p')
  {
    hide At;
    forall other, d ensures d in At(p'.connMp, other) <==> d in p'.conns && p'.conns[d].endpoint == other {
      assert d in At(p.connMp, other) <==> d in p.conns && p.conns[d].endpoint == other;
    }
  }

  /** The pool stays exact, an accepted generator gets a linker of its own to the right endpoint,
      and a refused one leaves no trace. A request is refused exactly when no linker is idle, no
      connection has room and no new connection can be made. */
  lemma AddOk(p: Pool, e: Endpoint, gen: nat, reachable: bool, ok: bool, p': Pool)
    requires PoolOk(p) && gen !in p.owner && AddStep(p, e, gen, reachable, ok, p')
    ensures PoolOk(p')
    ensures ok <==> Accepted(p, e, reachable)
    ensures ok ==> HasLinker(p', gen, e)
    ensures !ok ==> p' == p
  {
    hide PoolOk, AddStep, Accepted, HasLinker;
    AddTells(p, e, gen, reachable, ok, p');
    AddKeepsPool(p, e, gen, reachable, ok, p');
  }

  lemma AddKeepsPool(p: Pool, e: Endpoint, gen: nat, reachable: bool, ok: bool, p': Pool)
    requires PoolOk(p) && gen !in p.owner && AddStep(p, e, gen, reachable, ok, p')
    ensures PoolOk(p')
  {
    hide PoolOk, Asked, Idle;
    if At(p.reqMp, e) != {} {
      var id :| id in At(p.reqMp, e) && id in p.linkers && p.linkers[id].linker.talk.None?
                && p' == Reused(p, id, gen);
      ReusedOk(p, e, id, gen);
    } else if exists c :: RoomAt(p, e, c) {
      var c :| RoomAt(p, e, c) && p' == Joined(p, c, gen);
      JoinedOk(p, c, gen);
    } else if |At(p.connMp, e)| < p.max && reachable {
      OpenedOk(p, e, gen);
    }
  }

  /** The generator has a linker to this endpoint. */
  predicate HasLinker(p: Pool, gen: nat, e: Endpoint) {
    gen in p.owner && p.owner[gen] in p.linkers && p.linkers[p.owner[gen]].endpoint == e
  }

  lemma AddTells(p: Pool, e: Endpoint, gen: nat, reachable: bool, ok: bool, p': Pool)
    requires PoolOk(p) && AddStep(p, e, gen, reachable, ok, p')
    ensures ok <==> Accepted(p, e, reachable)
    ensures ok ==> HasLinker(p', gen, e)
    ensures !ok ==> p' == p
  {
    hide PoolOk, Asked, Idle, At, Joined, Reused, HasRoom, HasLinker;
    if At(p.reqMp, e) != {} {
      var id :| id in At(p.reqMp, e) && id in p.linkers && p.linkers[id].linker.talk.None?
                && p' == Reused(p, id, gen);
      IdleEndpoint(p, e, id);
      Took(p, id, gen);
    } else if exists c :: RoomAt(p, e, c) {
      var c :| RoomAt(p, e, c) && p' == Joined(p, c, gen);
      OpenEndpoint(p, e, c);
      TookNew(p, c, gen);
    } else {
      OpenedNew(p, e, gen);
    }
  }

  lemma Took(p: Pool, id: nat, gen: nat)
    requires id in p.linkers && p.linkers[id].linker.talk.None?
    ensures HasLinker(Reused(p, id, gen), gen, p.linkers[id].endpoint)
  {
    hide Asked;
  }

  lemma TookNew(p: Pool, c: nat, gen: nat)
    requires c in p.conns
    ensures HasLinker(Joined(p, c, gen), gen, p.conns[c].endpoint)
  {
    hide Asked, Idle;
  }

  lemma OpenedNew(p: Pool, e: Endpoint, gen: nat)
    ensures HasLinker(Opened(p, e, gen), gen, e)
  {
    hide Asked, Idle;
  }

  lemma IdleEndpoint(p: Pool, e: Endpoint, id: nat)
    requires PoolOk(p) && id in At(p.reqMp, e)
    ensures id in p.linkers && p.linkers[id].endpoint == e && p.linkers[id].linker.talk.None?
  {
    hide LinkerOk, Serves, OnceEach;
  }

  lemma OpenEndpoint(p: Pool, e: Endpoint, c: nat)
    requires PoolOk(p) && c in At(p.connMp, e)
    ensures c in p.conns && p.conns[c].endpoint == e
  {}

  /** When a request to an endpoint that can be reached is refused, the cap has been reached and
      every connection there is full, with every linker on it busy. */
  lemma RefusedIsFull(p: Pool, e: Endpoint)
    requires PoolOk(p) && !Accepted(p, e, true)
    ensures |At(p.connMp, e)| == p.max
    ensures forall c :: c in At(p.connMp, e) ==>
      && c in p.conns && |p.conns[c].linkers| == Capacity(p)
      && forall id :: id in p.conns[c].linkers ==> id in p.linkers && p.linkers[id].linker.talk.Some?
  {
    hide LinkerOk, Serves, OnceEach, OwnersExact;
    forall c | c in At(p.connMp, e)
      ensures c in p.conns && |p.conns[c].linkers| == Capacity(p)
      ensures forall id :: id in p.conns[c].linkers ==> id in p.linkers && p.linkers[id].linker.talk.Some?
    {
      assert !RoomAt(p, e, c);
      assert forall id :: id !in At(p.reqMp, e);
    }
  }

  /** An idle linker to the endpoint is taken before anything else: no connection is touched. */
  lemma IdleFirst(p: Pool, e: Endpoint, gen: nat, reachable: bool, ok: bool, p': Pool)
    requires AddStep(p, e, gen, reachable, ok, p') && At(p.reqMp, e) != {}
    ensures ok && gen in p'.owner && p'.owner[gen] in At(p.reqMp, e)
    ensures p'.conns == p.conns && p'.connMp == p.connMp && p'.linkers.Keys == p.linkers.Keys
  {
    hide Asked;
  }

  /** Without one, room on a connection to the endpoint is taken before another is made: the new linker
      is on a connection that had room, and there are no more connections than before. */
  lemma RoomNext(p: Pool, e: Endpoint, gen: nat, reachable: bool, ok: bool, p': Pool)
    requires AddStep(p, e, gen, reachable, ok, p') && At(p.reqMp, e) == {} && exists c :: RoomAt(p, e, c)
    ensures ok && gen in p'.owner && p'.owner[gen] in p'.linkers
    ensures RoomAt(p, e, p'.linkers[p'.owner[gen]].conn)
    ensures p'.connMp == p.connMp && p'.conns.Keys == p.conns.Keys && p'.reqMp == p.reqMp
  {
    hide Asked, Idle, HasRoom, At;
  }

  /** A connection is made if and only if no linker to the endpoint is idle, no connection to it has
      room, the cap has not been reached and the endpoint can be reached; and then it is one, with the
      new linker on it. */
  lemma MadeIff(p: Pool, e: Endpoint, gen: nat, reachable: bool, ok: bool, p': Pool)
    requires PoolOk(p) && AddStep(p, e, gen, reachable, ok, p')
    ensures p'.connMp != p.connMp <==>
      At(p.reqMp, e) == {} && (forall c :: !RoomAt(p, e, c)) && |At(p.connMp, e)| < p.max && reachable
    ensures p'.connMp != p.connMp ==>
      && ok && gen in p'.owner && p'.owner[gen] in p'.linkers
      && (var c := p'.linkers[p'.owner[gen]].conn;
          && c !in p.conns && c in p'.conns && p'.conns == p.conns[c := Conn(e, {p'.owner[gen]})]
          && At(p'.connMp, e) == At(p.connMp, e) + {c})
  {
    hide PoolOk, RoomAt;
    if At(p.reqMp, e) != {} {
      IdleFirst(p, e, gen, reachable, ok, p');
    } else if exists c :: RoomAt(p, e, c) {
      RoomNext(p, e, gen, reachable, ok, p');
    } else if |At(p.connMp, e)| < p.max && reachable {
      OpenedMakes(p, e, gen);
    }
  }

  lemma OpenedMakes(p: Pool, e: Endpoint, gen: nat)
    requires PoolOk(p)
    ensures var p' := Opened(p, e, gen);
      && p'.connMp != p.connMp && gen in p'.owner && p'.owner[gen] in p'.linkers
      && var c := p'.linkers[p'.owner[gen]].conn;
         && c !in p.conns && c in p'.conns && p'.conns == p.conns[c := Conn(e, {p'.owner[gen]})]
         && At(p'.connMp, e) == At(p.connMp, e) + {c}
  {
    hide PoolOk, Asked, Idle;
    var c := p.next;
    PoolNextIsNew(p);
    assert c in At(Opened(p, e, gen).connMp, e) && c !in At(p.connMp, e);
  }

  lemma PoolNextIsNew(p: Pool)
    requires PoolOk(p)
    ensures p.next !in p.conns && forall e :: p.next !in At(p.connMp, e)
  {
    hide LinkersOk, IdleExact, OwnersExact;
    NextIsNew(p);
  }

  lemma GoesOnServes(l: Linker, l': Linker)
    requires GoesOn(l, l') && OnceEach(l)
    ensures OnceEach(l')
    ensures forall g :: Serves(l', g) <==> Serves(l, g)
  {
    assert forall k :: 0 <= k < |l.past| && l.talk.Some? ==> l'.past[k] == l.past[k];
    if l.talk.Some? && l'.talk.None? {
      assert forall g :: Serves(l, g) ==> Serves(l', g) by {
        forall g | Serves(l, g) ensures Serves(l', g) {
          if l.talk.value.gen == g {
            assert l'.past[|l.past|].gen == g;
          } else {
            var k :| 0 <= k < |l.past| && l.past[k].gen == g;
            assert l'.past[k].gen == g;
          }
        }
      }
    }
  }

  lemma MovedOk(p: Pool, id: nat, l: Linker)
    requires PoolOk(p) && id in p.linkers && LinkerOk(l) && GoesOn(p.linkers[id].linker, l)
    ensures PoolOk(Moved(p, id, l))
  {
    hide LinkerOk, Serves, OnceEach, PlacedExact, IdleExact, OwnersExact, ConnsExact, Moved;
    if p.linkers[id].linker.talk.None? {
      NothingMoves(p, id, l);
    } else {
      MovedLinkers(p, id, l);
      hide PoolOk, GoesOn;
      BusyMovedOk(p, id, l);
    }
  }

  lemma MovedLinkers(p: Pool, id: nat, l: Linker)
    requires LinkersOk(p) && id in p.linkers && LinkerOk(l) && l.codec == p.codec
    ensures LinkersOk(Moved(p, id, l))
  {
    hide LinkerOk;
  }

  lemma BusyMovedOk(p: Pool, id: nat, l: Linker)
    requires PoolOk(p) && id in p.linkers && GoesOn(p.linkers[id].linker, l) && p.linkers[id].linker.talk.Some?
    requires LinkersOk(Moved(p, id, l))
    ensures PoolOk(Moved(p, id, l))
  {
    hide LinkersOk, Serves, OnceEach, PlacedExact, IdleExact, OwnersExact, ConnsExact, GoesOn, At;
    BusyIsOut(p, id);
    OwnersOnce(p, id);
    GoesOnServes(p.linkers[id].linker, l);
    AtUpdated(p.reqMp, p.linkers[id].endpoint, At(p.reqMp, p.linkers[id].endpoint) + {id});
    var p' := Moved(p, id, l);
    IdleChanges(p, p', id);
    OwnersKept(p, p', id);
    SamePlaces(p, p');
    ConnsSame(p, p');
  }

  lemma ConnsSame(p: Pool, p': Pool)
    requires ConnsExact(p) && p'.conns == p.conns && p'.connMp == p.connMp && p'.max == p.max
    ensures ConnsExact(p')
  {}

  lemma MovedTwice(p: Pool, id: nat, l1: Linker, l2: Linker)
    requires id in p.linkers && (p.linkers[id].linker.talk.Some? <==> l1.talk.Some?)
    ensures Moved(Moved(p, id, l1), id, l2) == Moved(p, id, l2)
  {
    var pl := p.linkers[id];
    assert p.linkers[id := pl.(linker := l1)][id := pl.(linker := l2)] == p.linkers[id := pl.(linker := l2)];
  }

  lemma NothingMoves(p: Pool, id: nat, l: Linker)
    requires id in p.linkers && p.linkers[id].linker.talk.None? && GoesOn(p.linkers[id].linker, l)
    ensures Moved(p, id, l) == p
  {
    assert p.linkers[id].(linker := l) == p.linkers[id];
    assert p.linkers[id := p.linkers[id]] == p.linkers;
  }

  lemma OwnersOnce(p: Pool, id: nat)
    requires OwnersExact(p) && id in p.linkers
    ensures OnceEach(p.linkers[id].linker)
  {
    hide Serves, OnceEach;
  }

  lemma BusyIsOut(p: Pool, id: nat)
    requires IdleExact(p) && id in p.linkers && p.linkers[id].linker.talk.Some?
    ensures var s := At(p.reqMp, p.linkers[id].endpoint); s - {id} == s
  {
    hide At;
  }

  lemma ClosedOk(p: Pool, c: nat)
    requires PoolOk(p) && c in p.conns
    ensures PoolOk(Closed(p, c))
  {
    hide LinkerOk, Serves, OnceEach, At, IdleExact, ConnsExact, PlacedExact;
    var p', e := Closed(p, c), p.conns[c].endpoint;
    AtUpdated(p.reqMp, e, At(p.reqMp, e) - p.conns[c].linkers);
    AtUpdated(p.connMp, e, At(p.connMp, e) - {c});
    ClosedPlaces(p, c);
    ClosedIdle(p, c);
    ClosedConns(p, c);
  }

  /** Nothing but the connection and what is on it goes: all other linkers stay as they are. */
  lemma ClosedTakesItsOwn(p: Pool, c: nat)
    requires PoolOk(p) && c in p.conns
    ensures var p' := Closed(p, c);
      && p'.conns == p.conns - {c} && p'.owner == p.owner
      && (forall id :: id in p'.linkers <==> id in p.linkers && p.linkers[id].conn != c)
      && (forall id :: id in p'.linkers ==> p'.linkers[id] == p.linkers[id])
  {
    hide LinkersOk, IdleExact, ConnsExact, OwnersExact, PlacesLive, WithinCapacity, Fresh;
  }

  lemma ClosedPlaces(p: Pool, c: nat)
    requires PlacedExact(p) && c in p.conns
    ensures PlacedExact(Closed(p, c))
  {
    hide PlacesMatch, PlacesLive, WithinCapacity;
    ClosedMatch(p, c);
    ClosedLive(p, c);
    ClosedCapacity(p, c);
  }

  lemma ClosedLinkers(p: Pool, c: nat)
    requires PlacesMatch(p) && c in p.conns
    ensures forall i :: i in Closed(p, c).linkers <==> i in p.linkers && p.linkers[i].conn != c
  {
    hide At;
    forall i ensures i in Closed(p, c).linkers <==> i in p.linkers && p.linkers[i].conn != c {
      assert i in p.conns[c].linkers <==> i in p.linkers && p.linkers[i].conn == c;
    }
  }

  lemma ClosedMatch(p: Pool, c: nat)
    requires PlacesMatch(p) && c in p.conns
    ensures PlacesMatch(Closed(p, c))
  {
    hide At;
    var p' := Closed(p, c);
    ClosedLinkers(p, c);
    forall d, i ensures d in p'.conns && i in p'.conns[d].linkers <==>
      i in p'.linkers && p'.linkers[i].conn == d && d in p'.conns
    {
      assert d in p.conns && i in p.conns[d].linkers <==> i in p.linkers && p.linkers[i].conn == d && d in p.conns;
    }
  }

  lemma ClosedLive(p: Pool, c: nat)
    requires PlacesMatch(p) && PlacesLive(p) && c in p.conns
    ensures PlacesLive(Closed(p, c))
  {
    ClosedLinkers(p, c);
    hide At, PlacesMatch;
  }

  lemma ClosedCapacity(p: Pool, c: nat)
    requires WithinCapacity(p) && c in p.conns
    ensures WithinCapacity(Closed(p, c))
  {
    hide At, Capacity;
    CapacityIs(p, Closed(p, c));
  }

  lemma ClosedIdle(p: Pool, c: nat)
    requires IdleExact(p) && PlacedExact(p) && c in p.conns
    ensures IdleExact(Closed(p, c))
  {
    var p', e := Closed(p, c), p.conns[c].endpoint;
    AtUpdated(p.reqMp, e, At(p.reqMp, e) - p.conns[c].linkers);
    hide At;
    forall other, i ensures i in At(p'.reqMp, other) <==>
      i in p'.linkers && p'.linkers[i].endpoint == other && p'.linkers[i].linker.talk.None?
    {
      assert i in At(p.reqMp, other) <==>
        i in p.linkers && p.linkers[i].endpoint == other && p.linkers[i].linker.talk.None?;
      assert i in p.conns[c].linkers <==> i in p.linkers && p.linkers[i].conn == c;
    }
  }

  lemma ClosedConns(p: Pool, c: nat)
    requires ConnsExact(p) && c in p.conns
    ensures ConnsExact(Closed(p, c))
  {
    var p', e := Closed(p, c), p.conns[c].endpoint;
    AtUpdated(p.connMp, e, At(p.connMp, e) - {c});
    hide At;
    forall other, d ensures d in At(p'.connMp, other) <==> d in p'.conns && p'.conns[d].endpoint == other {
      assert d in At(p.connMp, other) <==> d in p.conns && p.conns[d].endpoint == other;
    }
    Smaller(At(p'.connMp, e), At(p.connMp, e));
    forall other ensures |At(p'.connMp, other)| <= p.max {
      assert |At(p.connMp, other)| <= p.max;
    }
  }

  lemma Smaller(s: set<nat>, t: set<nat>)
    requires s <= t
    ensures |s| <= |t|
  {
    assert s + (t - s) == t;
  }

  // ----- runs -----

  datatype Event =
    | Add(endpoint: Endpoint, gen: nat, reachable: bool, ok: bool)
    | Poll(id: nat, d: Msg)                      // the generator adds d to its request
    | Write(id: nat, n: nat)                     // the socket takes n bytes
    | Read(id: nat, chunk: Bytes, take: Take)    // the reader sees a chunk, the generator takes parts
    | Close(conn: nat)

  ghost predicate Step(p: Pool, e: Event, p': Pool) {
    match e
    case Add(endpoint, gen, reachable, ok) =>
      gen !in p.owner && AddStep(p, endpoint, gen, reachable, ok, p')
    case Poll(id, d) =>
      && id in p.linkers
      && (var l := p.linkers[id].linker;
          && (l.talk.Some? ==> Fills(l.talk.value.out.held, d))
          && p' == Moved(p, id, Polled(l, d)))
    case Write(id, n) =>
      && id in p.linkers && n <= |ToSend(p.linkers[id].linker)|
      && p' == Moved(p, id, Wrote(p.linkers[id].linker, n))
    case Read(id, chunk, take) =>
      && id in p.linkers && CanRead(p.linkers[id].linker, chunk)
      && p' == Moved(p, id, ReadMore(p.linkers[id].linker, chunk, take))
    case Close(conn) => conn in p.conns && p' == Closed(p, conn)
  }

  ghost predicate Reaches(p: Pool, events: seq<Event>, p': Pool)
    decreases |events|
  {
    if events == [] then p == p'
    else exists q :: Step(p, events[0], q) && Reaches(q, events[1..], p')
  }

  /** An accepted generator keeps its linker. */
  predicate OwnersStay(p: Pool, p': Pool) {
    forall gen :: gen in p.owner ==> gen in p'.owner && p'.owner[gen] == p.owner[gen]
  }

  /** Accepting a request keeps the owners of others and the settings. */
  lemma AddKeeps(p: Pool, e: Endpoint, gen: nat, reachable: bool, ok: bool, p': Pool)
    requires gen !in p.owner && AddStep(p, e, gen, reachable, ok, p')
    ensures OwnersStay(p, p') && p'.max == p.max && p'.mux == p.mux && p'.codec == p.codec
  {
    hide At, RoomAt, Asked, Idle;
  }

  lemma CallOk(p: Pool, id: nat, l: Linker)
    requires PoolOk(p) && id in p.linkers && LinkerOk(l) && GoesOn(p.linkers[id].linker, l)
    ensures var p' := Moved(p, id, l);
      PoolOk(p') && OwnersStay(p, p') && p'.max == p.max && p'.mux == p.mux && p'.codec == p.codec
  {
    hide PoolOk, LinkerOk, GoesOn;
    MovedOk(p, id, l);
  }

  lemma StepOk(p: Pool, e: Event, p': Pool)
    requires PoolOk(p) && Step(p, e, p')
    ensures PoolOk(p') && OwnersStay(p, p') && p'.max == p.max && p'.mux == p.mux && p'.codec == p.codec
  {
    hide PoolOk, LinkerOk, Polled, Wrote, ReadMore, CanRead, Fills, GoesOn, AddStep, Moved, ToSend;
    match e
    case Add(endpoint, gen, reachable, ok) =>
      AddOk(p, endpoint, gen, reachable, ok, p');
      AddKeeps(p, endpoint, gen, reachable, ok, p');
    case Poll(id, d) =>
      LinkerInPool(p, id);
      PolledOk(p.linkers[id].linker, d);
      CallsGoOn(p.linkers[id].linker);
      CallOk(p, id, Polled(p.linkers[id].linker, d));
    case Write(id, n) =>
      LinkerInPool(p, id);
      WroteOk(p.linkers[id].linker, n);
      CallsGoOn(p.linkers[id].linker);
      CallOk(p, id, Wrote(p.linkers[id].linker, n));
    case Read(id, chunk, take) =>
      LinkerInPool(p, id);
      ReadMoreOk(p.linkers[id].linker, chunk, take);
      CallsGoOn(p.linkers[id].linker);
      CallOk(p, id, ReadMore(p.linkers[id].linker, chunk, take));
    case Close(conn) =>
      ClosedOk(p, conn);
  }

  lemma LinkerInPool(p: Pool, id: nat)
    requires PoolOk(p) && id in p.linkers
    ensures LinkerOk(p.linkers[id].linker)
  {
    hide LinkerOk;
  }

  lemma {:induction false} RunOk(p: Pool, events: seq<Event>, p': Pool)
    requires PoolOk(p) && Reaches(p, events, p')
    ensures PoolOk(p') && OwnersStay(p, p') && p'.max == p.max && p'.mux == p.mux && p'.codec == p.codec
    decreases |events|
  {
    hide PoolOk, Step;
    if events != [] {
      var q :| Step(p, events[0], q) && Reaches(q, events[1..], p');
      StepOk(p, events[0], q);
      RunOk(q, events[1..], p');
    }
  }

  /** In every reachable state: a live linker is in the pool of its endpoint exactly when it has no
      generator; no endpoint has more connections than the cap; a generator is served by at most
      one linker, the one that took it; and each linker's responses belong one by one to its
      requests. */
  lemma PoolInEveryRun(codec: Codec, mux: bool, max: nat, events: seq<Event>, p: Pool)
    requires Reaches(Empty(codec, mux, max), events, p)
    ensures IdleExact(p) && PlacedExact(p) && OwnersExact(p) && LinkersOk(p)
    ensures forall e :: |At(p.connMp, e)| <= max
    ensures forall i, j, gen | i in p.linkers && j in p.linkers ::
      Serves(p.linkers[i].linker, gen) && Serves(p.linkers[j].linker, gen) ==> i == j
  {
    hide LinkerOk, Serves, OnceEach, Reaches;
    EmptyOk(codec, mux, max);
    RunOk(Empty(codec, mux, max), events, p);
    assert OwnersExact(p);
    forall i, j, gen | i in p.linkers && j in p.linkers
        && Serves(p.linkers[i].linker, gen) && Serves(p.linkers[j].linker, gen)
      ensures i == j
    {
      assert p.owner[gen] == i && p.owner[gen] == j;
    }
  }

  // ----- the class -----

  class Requester {
    const codec: Codec  // the format of printers and readers
    const mux: bool
    const maxConnections: nat
    var linkers: map<nat, Placed>
    var conns: map<nat, Conn>
    var reqMp: map<Endpoint, set<nat>>
    var connMp: map<Endpoint, set<nat>>
    var next: nat

    // which linker took each generator ever accepted
    ghost var owner: map<nat, nat>

    constructor (codec: Codec, mux: bool, maxConnections: nat)
      ensures Valid() && State() == Empty(codec, mux, maxConnections)
    {
      hide PoolOk;
      this.codec, this.mux := codec, mux;
      this.maxConnections := maxConnections;
      linkers, conns, reqMp, connMp := map[], map[], map[], map[];
      next := 0;
      owner := map[];
      new;
      EmptyOk(codec, mux, maxConnections);
    }

    ghost function State(): (p: Pool)
      reads this
    {
      Pool(codec, mux, maxConnections, linkers, conns, reqMp, connMp, next, owner)
    }

    ghost predicate Valid()
      reads this
    {
      PoolOk(State())
    }

    /** `reachable` says whether a new connection to the endpoint can be made. */
    method AddRequest(e: Endpoint, gen: nat, reachable: bool) returns (ok: bool)
      requires Valid() && gen !in owner
      modifies this
      ensures Valid() && AddStep(old(State()), e, gen, reachable, ok, State())
    {
      hide PoolOk;
      ghost var p := State();
      var reqs := At(reqMp, e);
      if reqs != {} {
        var id :| id in reqs;
        IdleEndpoint(p, e, id);
        ReusedOk(p, e, id, gen);
        Reuse(id, gen);
        return true;
      }
      var cns := At(connMp, e);
      var todo := cns;
      while todo != {}
        invariant todo <= cns && State() == p
        invariant forall c :: c in cns - todo ==> !RoomAt(p, e, c)
        decreases |todo|
      {
        var c :| c in todo;
        OpenEndpoint(p, e, c);
        if mux && |conns[c].linkers| < MuxFormat.IDS {
          assert RoomAt(p, e, c);
          JoinedOk(p, c, gen);
          Join(c, gen);
          return true;
        }
        todo := todo - {c};
      }
      assert forall c :: !RoomAt(p, e, c);
      if |cns| < maxConnections && reachable {
        OpenedOk(p, e, gen);
        Open(e, gen);
        return true;
      }
      return false;
    }

    method Reuse(id: nat, gen: nat)
      requires id in linkers && linkers[id].linker.talk.None?
      modifies this
      ensures State() == Reused(old(State()), id, gen)
    {
      var l := linkers[id];
      linkers := linkers[id := l.(linker := Asked(l.linker, gen))];
      reqMp := reqMp[l.endpoint := At(reqMp, l.endpoint) - {id}];
      owner := owner[gen := id];
    }

    method Join(c: nat, gen: nat)
      requires c in conns
      modifies this
      ensures State() == Joined(old(State()), c, gen)
    {
      var cn := conns[c];
      linkers := linkers[next := Placed(cn.endpoint, c, Asked(Idle(codec), gen))];
      conns := conns[c := cn.(linkers := cn.linkers + {next})];
      owner := owner[gen := next];
      next := next + 1;
    }

    method Open(e: Endpoint, gen: nat)
      modifies this
      ensures State() == Opened(old(State()), e, gen)
    {
      var c, id := next, next + 1;
      linkers := linkers[id := Placed(e, c, Asked(Idle(codec), gen))];
      conns := conns[c := Conn(e, {id})];
      connMp := connMp[e := At(connMp, e) + {c}];
      owner := owner[gen := id];
      next := next + 2;
    }

    /** The end of a connection: it leaves the map of its endpoint, and its linkers go with it, the
        idle ones out of their pool. */
    method Destroy(c: nat)
      requires Valid() && c in conns
      modifies this
      ensures Valid() && State() == Closed(old(State()), c)
    {
      hide PoolOk;
      ClosedOk(State(), c);
      var cn := conns[c];
      connMp := connMp[cn.endpoint := At(connMp, cn.endpoint) - {c}];
      linkers := linkers - cn.linkers;
      reqMp := reqMp[cn.endpoint := At(reqMp, cn.endpoint) - cn.linkers];
      conns := conns - {c};
    }

    /** `check_done` of one linker. */
    method CheckDone(id: nat)
      requires id in linkers
      modifies this
      ensures State() == Moved(old(State()), id, Checked(old(linkers)[id].linker))
    {
      hide TalkLooked;
      var pl := linkers[id];
      if pl.linker.talk.Some? {
        var t := TalkLooked(pl.linker.talk.value);
        if IsDone(t) {
          linkers := linkers[id := pl.(linker := pl.linker.(talk := None, past := pl.linker.past + [Over(t)]))];
          reqMp := reqMp[pl.endpoint := At(reqMp, pl.endpoint) + {id}];
        } else {
          linkers := linkers[id := pl.(linker := pl.linker.(talk := Some(t)))];
        }
      } else {
        assert linkers == linkers[id := pl];
      }
    }

    /** `get_write_size` of one linker; its generator adds d to the request. */
    method GetWriteSize(id: nat, d: Msg) returns (n: nat)
      requires Valid() && id in linkers
      requires linkers[id].linker.talk.Some? ==> Fills(linkers[id].linker.talk.value.out.held, d)
      modifies this
      ensures Valid() && State() == Moved(old(State()), id, Polled(old(linkers)[id].linker, d))
      ensures n == |Offered(old(linkers)[id].linker, d)|
    {
      hide PoolOk, LinkerOk, TalkLooked, Checked, GoesOn, Fills, Filled;
      ghost var p := State();
      StepOk(p, Poll(id, d), Moved(p, id, Polled(linkers[id].linker, d)));
      var pl := linkers[id];
      if pl.linker.talk.None? {
        assert linkers == linkers[id := pl];
        return 0;
      }
      var t := pl.linker.talk.value;
      t := TalkLooked(t.(out := Filled(t.out, d)));
      n := |t.writer.printer.Data()|;
      var l1 := pl.linker.(talk := Some(t));
      MovedTwice(p, id, l1, Checked(l1));
      linkers := linkers[id := pl.(linker := l1)];
      CheckDone(id);
    }

    /** `write` of one linker. */
    method Write(id: nat, s: Sockets.Socket, max: nat) returns (n: nat)
      requires Valid() && id in linkers
      modifies this, s`outgoing
      ensures Valid() && n <= |ToSend(old(linkers)[id].linker)| && n <= max
      ensures s.outgoing == old(s.outgoing) + ToSend(old(linkers)[id].linker)[..n]
      ensures State() == Moved(old(State()), id, Wrote(old(linkers)[id].linker, n))
    {
      hide PoolOk, LinkerOk, TalkLooked, Checked, GoesOn;
      ghost var p := State();
      var pl := linkers[id];
      if pl.linker.talk.None? {
        StepOk(p, Event.Write(id, 0), Moved(p, id, Wrote(pl.linker, 0)));
        assert linkers == linkers[id := pl];
        assert s.outgoing + [] == s.outgoing;
        return 0;
      }
      var t := TalkLooked(pl.linker.talk.value);
      var data := t.writer.printer.Data();
      var most := Sockets.Min(|data|, max);
      n := s.Send(data[..most]);
      assert data[..most][..n] == data[..n];
      StepOk(p, Event.Write(id, n), Moved(p, id, Wrote(pl.linker, n)));
      var l1 := pl.linker.(talk := Some(t.(writer := SentOn(t.writer, n))), written := pl.linker.written + data[..n]);
      MovedTwice(p, id, l1, Checked(l1));
      linkers := linkers[id := pl.(linker := l1)];
      CheckDone(id);
    }

    /** `read` of one linker: its reader sees `chunk`, and its generator takes parts of the
        response. */
    method Read(id: nat, chunk: Bytes, take: Take) returns (n: nat)
      requires Valid() && id in linkers && CanRead(linkers[id].linker, chunk)
      modifies this
      ensures Valid() && n == Consumed(old(linkers)[id].linker, chunk)
      ensures State() == Moved(old(State()), id, ReadMore(old(linkers)[id].linker, chunk, take))
    {
      hide PoolOk, LinkerOk, TalkLooked, Checked, GoesOn, CanRead, AfterRead, CutsValue;
      ghost var p := State();
      StepOk(p, Event.Read(id, chunk, take), Moved(p, id, ReadMore(linkers[id].linker, chunk, take)));
      var pl := linkers[id];
      if pl.linker.talk.None? {
        assert linkers == linkers[id := pl];
        return 0;
      }
      var t := pl.linker.talk.value;
      var (r, amt) := AfterRead(t.reader, chunk);
      n := amt;
      var l1 := pl.linker.(
        talk := Some(t.(reader := r, got := t.got + chunk[..n], taken := AfterTake(t.taken, r.Message(), take),
                        clean := t.clean && !CutsValue(t.reader, chunk))),
        read := pl.linker.read + chunk[..n]);
      MovedTwice(p, id, l1, Checked(l1));
      linkers := linkers[id := pl.(linker := l1)];
      CheckDone(id);
    }
  }
}
