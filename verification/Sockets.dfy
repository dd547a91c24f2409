/** A socket as two byte streams. How much one call moves is left open, so that every
    result about it holds for every fragmentation. */
module Sockets {
  import opened Octets

  function Min(a: nat, b: nat): (r: nat) {
    if a < b then a else b
  }

  /** How many bytes reads of the given sizes can see in all. */
  function Total(sizes: seq<nat>): (n: nat) {
    if sizes == [] then 0 else sizes[0] + Total(sizes[1..])
  }

  /** Several messages one after the other on the same stream. */
  function Concat(messages: seq<Bytes>): (r: Bytes) {
    if messages == [] then [] else messages[0] + Concat(messages[1..])
  }

  lemma {:induction false} ConcatAppend(a: seq<Bytes>, b: Bytes)
    ensures Concat(a + [b]) == Concat(a) + b
    decreases |a|
  {
    if a == [] {
      assert [b][1..] == [];
    } else {
      assert (a + [b])[1..] == a[1..] + [b];
      ConcatAppend(a[1..], b);
    }
  }

  lemma {:induction false} ConcatJoin(a: seq<Bytes>, b: seq<Bytes>)
    ensures Concat(a + b) == Concat(a) + Concat(b)
    decreases |a|
  {
    if a == [] {
      assert a + b == b;
    } else {
      assert (a + b)[1..] == a[1..] + b;
      ConcatJoin(a[1..], b);
    }
  }

  class Socket {
    // bytes that have arrived and have not been taken
    var incoming: Bytes
    // bytes handed over for sending
    var outgoing: Bytes

    /** `recv` with MSG_PEEK: some nonempty prefix of what has arrived, if anything has. */
    method Peek(max: nat) returns (b: Bytes)
      ensures b <= incoming && |b| <= max
      ensures incoming != [] && max > 0 ==> b != []
    {
      var n: nat :| n <= |incoming| && n <= max && (incoming != [] && max > 0 ==> n > 0);
      b := incoming[..n];
    }

    /** `recv` of bytes that a peek has just seen. */
    method Take(n: nat)
      requires n <= |incoming|
      modifies this`incoming
      ensures incoming == old(incoming)[n..]
    {
      incoming := incoming[n..];
    }

    /** `recv`: some nonempty prefix of what has arrived; nothing when the peer has closed. */
    method Recv(max: nat) returns (b: Bytes)
      modifies this`incoming
      ensures |b| <= max && old(incoming) == b + incoming
      ensures old(incoming) != [] && max > 0 ==> b != []
    {
      b := Peek(max);
      Take(|b|);
    }

    /** `send`: some nonempty prefix of the data; nothing when the peer has closed. */
    method Send(data: Bytes) returns (n: nat)
      modifies this`outgoing
      ensures n <= |data|
      ensures outgoing == old(outgoing) + data[..n]
    {
      n :| n <= |data|;
      outgoing := outgoing + data[..n];
    }
  }
}
