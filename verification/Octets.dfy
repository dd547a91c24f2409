/** Byte strings as the proxy sees them, C-string truncation, ASCII white space and
    the case-insensitive comparison used for every name lookup. */
module Octets {

  /** One byte of a stream. */
  type Octet = c: char | c as int < 256

  type Bytes = seq<Octet>

  const NUL: Octet := '\0'
  const LF: Octet := '\n'
  const CR: Octet := '\r'
  const SP: Octet := ' '
  const CRLF: Bytes := [CR, LF]

  function Byte(n: nat): (b: Octet)
    requires n < 256
    ensures b as int == n
  {
    n as char
  }

  predicate NulFree(s: Bytes) {
    NUL !in s
  }

  /** The six bytes for which `isspace` holds in the C locale. */
  predicate IsSpace(c: Octet) {
    9 <= c as int <= 13 || c == SP
  }

  /** What is left of a byte string once it is passed on as a C string. */
  function CStr(s: Bytes): (r: Bytes)
    ensures NulFree(r)
    ensures r <= s
    ensures |r| == |s| || s[|r|] == NUL
  {
    if s == [] || s[0] == NUL then [] else [s[0]] + CStr(s[1..])
  }

  /** A string followed by a terminator is read back up to the terminator. */
  lemma {:induction false} CStrStops(s: Bytes, rest: Bytes)
    requires NulFree(s)
    ensures CStr(s + [NUL] + rest) == s
  {
    var t := s + [NUL] + rest;
    if s != [] {
      assert t[1..] == s[1..] + [NUL] + rest;
      CStrStops(s[1..], rest);
    }
  }

  lemma {:induction false} CStrIdentity(s: Bytes)
    requires NulFree(s)
    ensures CStr(s) == s
  {
    if s != [] {
      CStrIdentity(s[1..]);
    }
  }

  // ----- case folding -----

  function Fold(c: Octet): (r: Octet) {
    if 'A' <= c <= 'Z' then Byte(c as int + 32) else c
  }

  function FoldAll(s: Bytes): (r: Bytes)
    ensures |r| == |s|
    ensures forall i :: 0 <= i < |s| ==> r[i] == Fold(s[i])
  {
    seq(|s|, i requires 0 <= i < |s| => Fold(s[i]))
  }

  /** `strcasecmp`: negative, zero or positive. */
  function Compare(a: Bytes, b: Bytes): (r: int) {
    if a == [] then (if b == [] then 0 else -1)
    else if b == [] then 1
    else if Fold(a[0]) < Fold(b[0]) then -1
    else if Fold(b[0]) < Fold(a[0]) then 1
    else Compare(a[1..], b[1..])
  }

  lemma {:induction false} CompareZero(a: Bytes, b: Bytes)
    ensures Compare(a, b) == 0 <==> FoldAll(a) == FoldAll(b)
  {
    if a != [] && b != [] {
      var x, y := FoldAll(a), FoldAll(b);
      assert x == [Fold(a[0])] + FoldAll(a[1..]);
      assert y == [Fold(b[0])] + FoldAll(b[1..]);
      CompareZero(a[1..], b[1..]);
      assert x[1..] == FoldAll(a[1..]) && y[1..] == FoldAll(b[1..]);
      assert x == y <==> x[0] == y[0] && x[1..] == y[1..];
    } else {
      assert |FoldAll(a)| == |a| && |FoldAll(b)| == |b|;
    }
  }

  lemma {:induction false} CompareFlip(a: Bytes, b: Bytes)
    ensures Compare(a, b) < 0 <==> Compare(b, a) > 0
    ensures Compare(a, b) == 0 <==> Compare(b, a) == 0
  {
    if a != [] && b != [] {
      CompareFlip(a[1..], b[1..]);
    }
  }

  lemma {:induction false} CompareTransitive(a: Bytes, b: Bytes, c: Bytes)
    requires Compare(a, b) <= 0 && Compare(b, c) <= 0
    ensures Compare(a, c) <= 0
    ensures Compare(a, b) < 0 || Compare(b, c) < 0 ==> Compare(a, c) < 0
  {
    if a != [] && b != [] && c != [] && Fold(a[0]) == Fold(b[0]) == Fold(c[0]) {
      CompareTransitive(a[1..], b[1..], c[1..]);
    }
  }

  /** Two strings compare as their first differing position says. */
  lemma {:induction false} CompareAt(a: Bytes, b: Bytes, k: nat)
    requires k <= |a| && k < |b|
    requires a[..k] == b[..k]
    requires k == |a| || Fold(a[k]) < Fold(b[k])
    ensures Compare(a, b) < 0
  {
    if k > 0 {
      assert a[0] == a[..k][0] == b[..k][0] == b[0];
      assert a[1..][..k-1] == a[..k][1..] == b[..k][1..] == b[1..][..k-1];
      CompareAt(a[1..], b[1..], k - 1);
    }
  }

  /** Whether a header field, used as a C string, is the given name whatever its case. */
  predicate Names(field: Bytes, name: Bytes) {
    Compare(CStr(field), name) == 0
  }

  lemma OwnName(name: Bytes)
    requires NulFree(name)
    ensures Names(name, name)
  {
    CStrIdentity(name);
    CompareZero(name, name);
  }

  lemma NamesFolded(field: Bytes, other: Bytes, name: Bytes)
    requires NulFree(field) && NulFree(other)
    requires FoldAll(field) == FoldAll(other)
    ensures Names(field, name) == Names(other, name)
  {
    CStrIdentity(field);
    CStrIdentity(other);
    CompareZero(field, name);
    CompareZero(other, name);
  }
}
