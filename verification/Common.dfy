/** Text and number conversions: trimming, percent coding, tokens, hexadecimal and
    decimal numerals, sixteen-bit fields. */
module Common {
  import opened Basics
  import opened Octets

  // ----- hexadecimal digits -----

  /** Accepts every byte from 'A' up to 'f', so also 'G' to '`'. */
  predicate IsHex(ch: Octet) {
    '0' <= ch <= '9' || 'a' <= ch <= 'f' || 'A' <= ch <= 'f'
  }

  function HexToI(ch: Octet): (d: nat)
    requires IsHex(ch)
    ensures d < 42
  {
    if '0' <= ch <= '9' then ch as int - '0' as int
    else if 'a' <= ch <= 'f' then ch as int - 'a' as int + 10
    else ch as int - 'A' as int + 10
  }

  function IToHex(x: nat): (ch: Octet)
    requires x < 16
    ensures IsHex(ch) && HexToI(ch) == x && !IsSpace(ch)
  {
    if x < 10 then Byte('0' as int + x) else Byte('a' as int + x - 10)
  }

  const DIGITS16: Bytes := "0123456789abcdef"

  /** Digits are printed in lower case, and read in either. */
  lemma DigitsRead(x: nat)
    requires x < 16
    ensures IToHex(x) == DIGITS16[x] && HexToI(DIGITS16[x]) == x
    ensures x >= 10 ==> var upper := Byte(DIGITS16[x] as int - 32); IsHex(upper) && HexToI(upper) == x
  {}

  /** A hexadecimal digit proper. */
  predicate IsDigit16(ch: Octet) {
    '0' <= ch <= '9' || 'a' <= ch <= 'f' || 'A' <= ch <= 'F'
  }

  /** A byte that passes for a digit without being one. */
  predicate Misread(ch: Octet) {
    'G' <= ch <= '`'
  }

  lemma IsHexIff(ch: Octet)
    ensures IsHex(ch) <==> IsDigit16(ch) || Misread(ch)
    ensures !(IsDigit16(ch) && Misread(ch))
    ensures IsHex(ch) ==> (HexToI(ch) < 16 <==> IsDigit16(ch))
  {}

  /** `x << 4 | d` for a digit value d, which can exceed fifteen. */
  function ShiftOr(x: nat, d: nat): (r: nat)
    requires d < 48
    ensures d < 16 ==> r == x * 16 + d
    ensures r >= x * 16 && r >= d
  {
    var q := d / 16;
    var x' := if q == 0 then x
              else if q == 1 then (if x % 2 == 1 then x else x + 1)
              else (if x / 2 % 2 == 1 then x else x + 2);
    x' * 16 + d % 16
  }

  // ----- trimming -----

  predicate IsTrimmed(s: Bytes) {
    s != [] ==> !IsSpace(s[0]) && !IsSpace(s[|s|-1])
  }

  function Trimmed(s: Bytes): (r: Bytes)
    ensures IsTrimmed(r) && |r| <= |s|
    ensures IsTrimmed(s) ==> r == s
    ensures forall c :: c in r ==> c in s
    decreases |s|
  {
    if s == [] then []
    else if IsSpace(s[0]) then Trimmed(s[1..])
    else if IsSpace(s[|s|-1]) then Trimmed(s[..|s|-1])
    else s
  }

  predicate AllSpace(s: Bytes) {
    forall i :: 0 <= i < |s| ==> IsSpace(s[i])
  }

  /** What is left is the string without white space at its ends. */
  ghost predicate CutFrom(s: Bytes, r: Bytes) {
    exists a, b :: s == a + r + b && AllSpace(a) && AllSpace(b)
  }

  /** Only white space is cut off, and at the ends. */
  lemma {:induction false} TrimmedParts(s: Bytes) returns (a: Bytes, b: Bytes)
    ensures s == a + Trimmed(s) + b && AllSpace(a) && AllSpace(b)
    decreases |s|
  {
    if s == [] {
      a, b := [], [];
    } else if IsSpace(s[0]) {
      a, b := TrimmedParts(s[1..]);
      assert [s[0]] + s[1..] == [s[0]] + a + Trimmed(s) + b;
      a := [s[0]] + a;
    } else if IsSpace(s[|s|-1]) {
      a, b := TrimmedParts(s[..|s|-1]);
      assert s[..|s|-1] + [s[|s|-1]] == a + Trimmed(s) + (b + [s[|s|-1]]);
      b := b + [s[|s|-1]];
    } else {
      a, b := [], [];
    }
  }

  /** No part of the string without white space at its ends is longer. */
  lemma TrimmedLongest(s: Bytes, i: nat, j: nat)
    requires i <= j <= |s| && IsTrimmed(s[i..j])
    ensures j - i <= |Trimmed(s)|
  {
    var a, b := TrimmedParts(s);
    if i < j {
      assert s[i..j][0] == s[i] && s[i..j][j-i-1] == s[j-1];
      SpaceOutside(a, Trimmed(s), b, i);
      SpaceOutside(a, Trimmed(s), b, j - 1);
    }
  }

  lemma SpaceOutside(a: Bytes, r: Bytes, b: Bytes, i: nat)
    requires AllSpace(a) && AllSpace(b) && i < |a + r + b|
    ensures i < |a| || i >= |a + r| ==> IsSpace((a + r + b)[i])
  {}

  method Trim(str: Bytes) returns (r: Bytes)
    ensures r == Trimmed(str)
    ensures IsTrimmed(r) && CutFrom(str, r)
  {
    var a, b := 0, |str|;
    assert str[a..b] == str;
    while a < b && IsSpace(str[a])
      invariant a <= b == |str|
      invariant Trimmed(str[a..b]) == Trimmed(str)
    {
      assert str[a..b][1..] == str[a+1..b];
      a := a + 1;
    }
    while a < b && IsSpace(str[b-1])
      invariant a <= b <= |str|
      invariant a < b ==> !IsSpace(str[a])
      invariant Trimmed(str[a..b]) == Trimmed(str)
    {
      assert str[a..b][..b-a-1] == str[a..b-1];
      b := b - 1;
    }
    r := str[a..b];
    hide Trimmed, IsTrimmed, AllSpace;
    ghost var before, behind := TrimmedParts(str);
  }

  // ----- percent coding -----

  function EncodedOctet(c: Octet): (r: Bytes)
    ensures r != []
    ensures forall i :: 0 <= i < |r| ==> !IsSpace(r[i])
  {
    if c == '%' then "%25"
    else if IsSpace(c) then ['%', IToHex(c as int / 16), IToHex(c as int % 16)]
    else [c]
  }

  function UrlEncoded(url: Bytes): (r: Bytes)
    ensures url != [] ==> r != []
    ensures forall i :: 0 <= i < |r| ==> !IsSpace(r[i])
  {
    if url == [] then [] else EncodedOctet(url[0]) + UrlEncoded(url[1..])
  }

  lemma EncodedStep(before: Bytes, rest: Bytes)
    requires rest != []
    ensures before + EncodedOctet(rest[0]) + UrlEncoded(rest[1..]) == before + UrlEncoded(rest)
  {}

  method UrlEncode(url: Bytes) returns (r: Bytes)
    ensures r == UrlEncoded(url)
  {
    r := [];
    for i := 0 to |url|
      invariant r + UrlEncoded(url[i..]) == UrlEncoded(url)
    {
      ghost var before := r;
      if url[i] == '%' {
        r := r + "%25";
      } else if IsSpace(url[i]) {
        r := r + ['%'];
        r := r + [IToHex(url[i] as int / 16)];
        r := r + [IToHex(url[i] as int % 16)];
      } else {
        r := r + [url[i]];
      }
      assert r == before + EncodedOctet(url[i]);
      EncodedStep(before, url[i..]);
      assert url[i..][1..] == url[i+1..];
    }
    assert url[|url|..] == [];
  }

  predicate MustEscape(c: Octet) {
    c == '%' || IsSpace(c)
  }

  function Escapes(url: Bytes): (n: nat)
    decreases |url|
  {
    if url == [] then 0 else (if MustEscape(url[0]) then 1 else 0) + Escapes(url[1..])
  }

  /** Each per cent sign and each white-space byte costs two bytes more, and nothing else does. */
  lemma {:induction false} EncodedLength(url: Bytes)
    ensures |UrlEncoded(url)| == |url| + 2 * Escapes(url)
    ensures Escapes(url) == 0 <==> '%' !in url && SpaceFree(url)
    decreases |url|
  {
    if url != [] {
      EncodedLength(url[1..]);
      assert url == [url[0]] + url[1..];
      assert SpaceFree(url) <==> !IsSpace(url[0]) && SpaceFree(url[1..]) by {
        assert forall i :: 0 <= i < |url[1..]| ==> url[1..][i] == url[i+1];
      }
    }
  }

  /** A URL is sent as it is if and only if it has no per cent sign and no white space. */
  lemma {:induction false} EncodedPlainIff(url: Bytes)
    ensures UrlEncoded(url) == url <==> '%' !in url && SpaceFree(url)
    decreases |url|
  {
    EncodedLength(url);
    if url != [] && Escapes(url) == 0 {
      EncodedPlainIff(url[1..]);
      EncodedLength(url[1..]);
    }
  }

  /** Encoding works byte by byte: what stands for a part of a URL does not depend on the rest. */
  lemma {:induction false} EncodedJoin(a: Bytes, b: Bytes)
    ensures UrlEncoded(a + b) == UrlEncoded(a) + UrlEncoded(b)
    decreases |a|
  {
    if a == [] {
      assert a + b == b;
    } else {
      assert (a + b)[1..] == a[1..] + b;
      EncodedJoin(a[1..], b);
      Regroup(EncodedOctet(a[0]), UrlEncoded(a[1..]), UrlEncoded(b));
    }
  }

  predicate EscapeAt(url: Bytes, i: nat) {
    i + 2 < |url| && url[i] == '%' && IsHex(url[i+1]) && IsHex(url[i+2])
  }

  function EscapedOctet(hi: Octet, lo: Octet): (c: Octet)
    requires IsHex(hi) && IsHex(lo)
  {
    Byte(ShiftOr(HexToI(hi), HexToI(lo)) % 256)
  }

  function UrlDecoded(url: Bytes): (r: Bytes) {
    if url == [] then []
    else if EscapeAt(url, 0) then [EscapedOctet(url[1], url[2])] + UrlDecoded(url[3..])
    else [url[0]] + UrlDecoded(url[1..])
  }

  lemma DecodedStep(before: Bytes, url: Bytes, i: nat)
    requires i < |url|
    ensures before + UrlDecoded(url[i..]) ==
      if EscapeAt(url, i) then before + [EscapedOctet(url[i+1], url[i+2])] + UrlDecoded(url[i+3..])
      else before + [url[i]] + UrlDecoded(url[i+1..])
  {
    hide IsHex, HexToI, ShiftOr;
    assert EscapeAt(url, i) == EscapeAt(url[i..], 0);
    assert i + 2 < |url| ==> url[i..][3..] == url[i+3..];
    assert url[i..][1..] == url[i+1..];
  }

  method UrlDecode(url: Bytes) returns (r: Bytes)
    ensures r == UrlDecoded(url)
  {
    hide IsHex, HexToI, ShiftOr, UrlDecoded;
    r := [];
    var i := 0;
    assert [] + UrlDecoded(url[0..]) == UrlDecoded(url) by {
      assert url[0..] == url;
    }
    while i < |url|
      invariant 0 <= i <= |url|
      invariant r + UrlDecoded(url[i..]) == UrlDecoded(url)
    {
      DecodedStep(r, url, i);
      if url[i] == '%' {
        if i + 2 < |url| && IsHex(url[i+1]) && IsHex(url[i+2]) {
          r := r + [Byte(ShiftOr(HexToI(url[i+1]), HexToI(url[i+2])) % 256)];
          i := i + 2;
        } else {
          r := r + ['%'];
        }
      } else {
        r := r + [url[i]];
      }
      i := i + 1;
    }
    NothingDecoded(r, url[|url|..]);
  }

  lemma NothingDecoded(before: Bytes, rest: Bytes)
    requires rest == []
    ensures before + UrlDecoded(rest) == before
  {}

  /** Percent decoding undoes percent encoding, for every byte string. */
  lemma {:induction false} UrlRoundTrip(url: Bytes)
    ensures UrlDecoded(UrlEncoded(url)) == url
  {
    if url != [] {
      UrlRoundTrip(url[1..]);
      DecodesFirst(url[0], UrlEncoded(url[1..]));
    }
  }

  // ----- escapes that are not escapes -----

  predicate TrueEscapeAt(url: Bytes, i: nat) {
    i + 2 < |url| && url[i] == '%' && IsDigit16(url[i+1]) && IsDigit16(url[i+2])
  }

  /** Percent decoding by section 2.1 of RFC 3986, where only hexadecimal digits make an escape. */
  function TrulyDecoded(url: Bytes): (r: Bytes) {
    if url == [] then []
    else if TrueEscapeAt(url, 0) then
      IsHexIff(url[1]);
      IsHexIff(url[2]);
      [EscapedOctet(url[1], url[2])] + TrulyDecoded(url[3..])
    else [url[0]] + TrulyDecoded(url[1..])
  }

  /** The decoder takes some per cent sign and the two bytes behind it for an escape although one
      of them is no digit. */
  predicate TakesFalseEscape(url: Bytes) {
    && url != []
    && if EscapeAt(url, 0) then Misread(url[1]) || Misread(url[2]) || TakesFalseEscape(url[3..])
       else TakesFalseEscape(url[1..])
  }

  /** The decoder is right about a URL if and only if it meets no false escape in it. */
  lemma {:induction false} DecodedRightIff(url: Bytes)
    ensures |UrlDecoded(url)| <= |TrulyDecoded(url)|
    ensures UrlDecoded(url) == TrulyDecoded(url) <==> !TakesFalseEscape(url)
  {
    hide IsHex, IsDigit16, Misread, EscapedOctet, ShiftOr, HexToI;
    if url != [] {
      var a, b := UrlDecoded(url), TrulyDecoded(url);
      if EscapeAt(url, 0) {
        IsHexIff(url[1]);
        IsHexIff(url[2]);
        DecodedRightIff(url[3..]);
        assert a == [a[0]] + UrlDecoded(url[3..]) && a[1..] == UrlDecoded(url[3..]);
        if TrueEscapeAt(url, 0) {
          assert b[1..] == TrulyDecoded(url[3..]);
        } else {
          DigitsStay(url);
        }
      } else {
        IsTrueEscape(url);
        DecodedRightIff(url[1..]);
        assert a[1..] == UrlDecoded(url[1..]) && b[1..] == TrulyDecoded(url[1..]);
      }
    }
  }

  lemma IsTrueEscape(url: Bytes)
    ensures TrueEscapeAt(url, 0) ==> EscapeAt(url, 0)
  {}

  /** Read as it should be, a false escape leaves three bytes. */
  lemma DigitsStay(url: Bytes)
    requires EscapeAt(url, 0) && !TrueEscapeAt(url, 0)
    ensures |TrulyDecoded(url)| == 3 + |TrulyDecoded(url[3..])|
  {
    assert url[1..][1..] == url[2..] && url[2..][1..] == url[3..];
    assert !TrueEscapeAt(url[1..], 0) && !TrueEscapeAt(url[2..], 0);
    assert TrulyDecoded(url[2..]) == [url[2]] + TrulyDecoded(url[3..]);
    assert TrulyDecoded(url[1..]) == [url[1]] + TrulyDecoded(url[2..]);
  }

  lemma FalseEscapeExample()
    ensures UrlDecoded("%G0") == ['\0'] && TrulyDecoded("%G0") == "%G0"
  {
    var url: Bytes := "%G0";
    assert EscapeAt(url, 0) && url[3..] == [] && !TrueEscapeAt(url, 0);
    assert EscapedOctet('G', '0') == '\0';
    assert url[1..] == "G0" && url[1..][1..] == "0" && url[1..][1..][1..] == [];
    assert TrulyDecoded("0") == "0";
    assert TrulyDecoded("G0") == "G0";
  }

  lemma DecodesFirst(c: Octet, rest: Bytes)
    ensures UrlDecoded(EncodedOctet(c) + rest) == [c] + UrlDecoded(rest)
  {
    var e := EncodedOctet(c);
    if c == '%' || IsSpace(c) {
      EscapeRoundTrip(c);
      assert (e + rest)[3..] == rest;
    } else {
      assert (e + rest)[1..] == rest;
    }
  }

  lemma EscapeRoundTrip(c: Octet)
    requires c == '%' || IsSpace(c)
    ensures var e := EncodedOctet(c);
      |e| == 3 && EscapeAt(e, 0) && EscapedOctet(e[1], e[2]) == c
  {}

  // ----- white-space separated tokens -----

  function SkipSpaces(line: Bytes, pos: nat): (r: nat)
    requires pos <= |line|
    ensures pos <= r <= |line|
    decreases |line| - pos
  {
    if pos < |line| && IsSpace(line[pos]) then SkipSpaces(line, pos + 1) else pos
  }

  function SkipToken(line: Bytes, pos: nat): (r: nat)
    requires pos <= |line|
    ensures pos <= r <= |line|
    decreases |line| - pos
  {
    if pos < |line| && !IsSpace(line[pos]) then SkipToken(line, pos + 1) else pos
  }

  /** The next token of a line and the position just after it. */
  function Token(line: Bytes, pos: nat): (r: (Bytes, nat))
    requires pos <= |line|
    ensures r.1 <= |line|
  {
    var beg := SkipSpaces(line, pos);
    var end := SkipToken(line, beg);
    (line[beg..end], end)
  }

  /** A word set off by any white space in front is what the next call for a token returns, with the
      position behind it; and where only white space is left, that is an empty token at the end. */
  lemma TokenAfter(line: Bytes, start: nat, at: nat, end: nat)
    requires start <= at <= end <= |line|
    requires forall i :: start <= i < at ==> IsSpace(line[i])
    requires forall i :: at <= i < end ==> !IsSpace(line[i])
    requires if at < end then end == |line| || IsSpace(line[end]) else end == |line|
    ensures Token(line, start) == (line[at..end], end)
  {
    SkipSpacesOver(line, start, at);
    SkipTokenOver(line, at, end);
  }

  lemma {:induction false} SkipSpacesOver(line: Bytes, pos: nat, at: nat)
    requires pos <= at <= |line| && forall i :: pos <= i < at ==> IsSpace(line[i])
    requires at == |line| || !IsSpace(line[at])
    ensures SkipSpaces(line, pos) == at
    decreases at - pos
  {
    if pos < at {
      SkipSpacesOver(line, pos + 1, at);
    }
  }

  method GetToken(line: Bytes, pos: nat) returns (token: Bytes, pos': nat)
    requires pos <= |line|
    ensures (token, pos') == Token(line, pos)
  {
    pos' := pos;
    while pos' < |line| && IsSpace(line[pos'])
      invariant pos <= pos' <= |line|
      invariant SkipSpaces(line, pos') == SkipSpaces(line, pos)
    {
      pos' := pos' + 1;
    }
    var beg := pos';
    while pos' < |line| && !IsSpace(line[pos'])
      invariant beg <= pos' <= |line|
      invariant SkipToken(line, pos') == SkipToken(line, beg)
    {
      pos' := pos' + 1;
    }
    token := line[beg..pos'];
  }

  predicate SpaceFree(s: Bytes) {
    forall i :: 0 <= i < |s| ==> !IsSpace(s[i])
  }

  lemma {:induction false} SkipTokenOver(line: Bytes, pos: nat, end: nat)
    requires pos <= end <= |line|
    requires forall i :: pos <= i < end ==> !IsSpace(line[i])
    requires end == |line| || IsSpace(line[end])
    ensures SkipToken(line, pos) == end
    decreases end - pos
  {
    if pos < end {
      SkipTokenOver(line, pos + 1, end);
    }
  }

  /** A word set off by one space, or by the start of the line, is the next token. */
  lemma TokenBetween(before: Bytes, word: Bytes, after: Bytes)
    requires before == [] || before[|before|-1] == SP
    requires word != [] && SpaceFree(word)
    requires after == [] || IsSpace(after[0])
    ensures var line := before + word + after;
      var start := if before == [] then 0 else |before| - 1;
      Token(line, start) == (word, |before| + |word|)
  {
    hide Token;
    var line := before + word + after;
    var at, end := |before|, |before| + |word|;
    assert line[at..end] == word;
    forall i | at <= i < end ensures !IsSpace(line[i]) {
      assert line[i] == word[i - at];
    }
    assert before != [] ==> line[at-1] == before[at-1];
    assert after != [] ==> line[end] == after[0];
    hide SkipSpaces, SkipToken, SpaceFree;
    TokenAt(line, if before == [] then 0 else at - 1, at, end);
  }

  lemma TokenAt(line: Bytes, start: nat, at: nat, end: nat)
    requires start <= at <= start + 1 && at < end <= |line|
    requires start < at ==> IsSpace(line[start])
    requires forall i :: at <= i < end ==> !IsSpace(line[i])
    requires end < |line| ==> IsSpace(line[end])
    ensures Token(line, start) == (line[at..end], end)
  {
    SkipTokenOver(line, at, end);
    assert SkipSpaces(line, at) == at;
  }

  // ----- decimal numerals -----

  const LONG_MAX: int := 0x7FFF_FFFF_FFFF_FFFF
  const LONG_MIN: int := -0x8000_0000_0000_0000

  predicate IsDigit(c: Octet) {
    '0' <= c <= '9'
  }

  function DigitRun(s: Bytes, acc: nat): (n: nat) {
    if s != [] && IsDigit(s[0]) then DigitRun(s[1..], acc * 10 + (s[0] as int - '0' as int)) else acc
  }

  function SignedRun(s: Bytes): (n: int) {
    if s != [] && s[0] == '-' then 0 - DigitRun(s[1..], 0)
    else if s != [] && s[0] == '+' then DigitRun(s[1..], 0)
    else DigitRun(s, 0)
  }

  /** The number `strtoll` reads in base ten, before it is clamped to a long. */
  function Numeral(s: Bytes): (n: int) {
    var c := CStr(s);
    SignedRun(c[SkipSpaces(c, 0)..])
  }

  /** Whether `strtoll` reports ERANGE. */
  predicate OutOfRange(s: Bytes) {
    !(LONG_MIN <= Numeral(s) <= LONG_MAX)
  }

  function StrToLL(s: Bytes): (n: int)
    ensures LONG_MIN <= n <= LONG_MAX
    ensures !OutOfRange(s) ==> n == Numeral(s)
  {
    var n := Numeral(s);
    if n < LONG_MIN then LONG_MIN else if n > LONG_MAX then LONG_MAX else n
  }

  /** The conversion of a long to an int. */
  function ToInt32(n: int): (r: int)
    ensures -0x8000_0000 <= r < 0x8000_0000
    ensures -0x8000_0000 <= n < 0x8000_0000 ==> r == n
    ensures (r - n) % 0x1_0000_0000 == 0
  {
    (n + 0x8000_0000) % 0x1_0000_0000 - 0x8000_0000
  }

  function DecNat(n: nat): (r: Bytes)
    ensures r != []
    ensures forall i :: 0 <= i < |r| ==> IsDigit(r[i])
  {
    var d := [Byte('0' as int + n % 10)];
    if n < 10 then d else DecNat(n / 10) + d
  }

  /** What `%d` prints. */
  function Dec(n: int): (r: Bytes)
    ensures r != [] && SpaceFree(r) && NulFree(r)
  {
    if n < 0 then ['-'] + DecNat(-n) else DecNat(n)
  }

  lemma {:induction false} DigitRunAppend(s: Bytes, t: Bytes, acc: nat)
    requires forall i :: 0 <= i < |s| ==> IsDigit(s[i])
    ensures DigitRun(s + t, acc) == DigitRun(t, DigitRun(s, acc))
  {
    if s == [] {
      assert s + t == t;
    } else {
      assert (s + t)[1..] == s[1..] + t;
      DigitRunAppend(s[1..], t, acc * 10 + (s[0] as int - '0' as int));
    }
  }

  lemma {:induction false} DecNatRoundTrip(n: nat)
    ensures DigitRun(DecNat(n), 0) == n
  {
    var d := [Byte('0' as int + n % 10)];
    assert forall acc: nat :: DigitRun(d, acc) == acc * 10 + n % 10 by {
      assert d[1..] == [];
    }
    if n >= 10 {
      DecNatRoundTrip(n / 10);
      DigitRunAppend(DecNat(n / 10), d, 0);
    }
  }

  predicate AllDigits(s: Bytes) {
    forall i :: 0 <= i < |s| ==> IsDigit(s[i])
  }

  /** The number that digits stand for, by their places. */
  function Decimal(digits: Bytes): (n: nat)
    requires AllDigits(digits)
    decreases |digits|
  {
    if digits == [] then 0
    else Decimal(digits[..|digits|-1]) * 10 + (digits[|digits|-1] as int - '0' as int)
  }

  lemma {:induction false} DigitRunIs(digits: Bytes, rest: Bytes)
    requires AllDigits(digits) && (rest == [] || !IsDigit(rest[0]))
    ensures DigitRun(digits + rest, 0) == Decimal(digits)
    decreases |digits|
  {
    DigitRunAppend(digits, rest, 0);
    if digits != [] {
      var most, last := digits[..|digits|-1], [digits[|digits|-1]];
      assert digits == most + last;
      DigitRunIs(most, []);
      assert most + [] == most;
      DigitRunAppend(most, last, 0);
      assert last[1..] == [];
    }
  }

  /** What `strtoll` makes of white space, a sign or none, digits and anything behind them: the number
      they stand for, or the end of the range of a long that it is beyond; without digits, zero. */
  lemma NumeralMeans(gap: Bytes, sign: Bytes, digits: Bytes, rest: Bytes)
    requires NulFree(gap + (sign + digits + rest)) && AllSpace(gap) && AllDigits(digits)
    requires sign == [] || sign == ['-'] || sign == ['+']
    requires rest == [] || !IsDigit(rest[0])
    requires sign == [] && digits == [] && rest != [] ==> !IsSpace(rest[0]) && rest[0] != '-' && rest[0] != '+'
    ensures var n := (if sign == ['-'] then -1 else 1) * Decimal(digits);
      && Numeral(gap + (sign + digits + rest)) == n
      && StrToLL(gap + (sign + digits + rest))
         == (if n < LONG_MIN then LONG_MIN else if n > LONG_MAX then LONG_MAX else n)
  {
    var number := sign + digits + rest;
    SignedRunMeans(sign, digits, rest);
    NumberBegins(sign, digits, rest);
    hide Numeral, SignedRun, Decimal, NulFree, AllSpace, AllDigits;
    GapSkipped(gap, number);
  }

  lemma GapSkipped(gap: Bytes, number: Bytes)
    requires NulFree(gap + number) && AllSpace(gap) && (number == [] || !IsSpace(number[0]))
    ensures Numeral(gap + number) == SignedRun(number)
  {
    hide SignedRun, SkipSpaces, CStr;
    var s := gap + number;
    CStrIdentity(s);
    assert s[|gap|..] == number;
    SkipSpacesOver(s, 0, |gap|);
  }

  lemma NumberBegins(sign: Bytes, digits: Bytes, rest: Bytes)
    requires AllDigits(digits) && (sign == [] || sign == ['-'] || sign == ['+'])
    requires sign == [] && digits == [] && rest != [] ==> !IsSpace(rest[0])
    ensures var number := sign + digits + rest; number == [] || !IsSpace(number[0])
  {
    if sign == [] {
      assert sign + digits + rest == digits + rest;
    }
  }

  lemma SignedRunMeans(sign: Bytes, digits: Bytes, rest: Bytes)
    requires AllDigits(digits) && (sign == [] || sign == ['-'] || sign == ['+'])
    requires rest == [] || !IsDigit(rest[0])
    requires sign == [] && digits == [] && rest != [] ==> rest[0] != '-' && rest[0] != '+'
    ensures SignedRun(sign + digits + rest) == (if sign == ['-'] then -1 else 1) * Decimal(digits)
  {
    var number := sign + digits + rest;
    DigitRunIs(digits, rest);
    hide DigitRun, Decimal;
    if sign == [] {
      assert number == digits + rest;
    } else {
      assert number[0] == sign[0] && number[1..] == digits + rest;
    }
  }

  /** A number is printed without zeros in front. */
  lemma {:induction false} DecShortest(n: nat)
    ensures n > 0 ==> DecNat(n)[0] != '0'
    ensures n == 0 ==> DecNat(n) == ['0']
    decreases n
  {
    if n >= 10 {
      DecShortest(n / 10);
    }
  }

  /** Reading a printed number gives the number back. */
  lemma DecRoundTrip(n: int)
    requires LONG_MIN <= n <= LONG_MAX
    ensures StrToLL(Dec(n)) == n && !OutOfRange(Dec(n))
  {
    var s := Dec(n);
    CStrIdentity(s);
    assert SkipSpaces(s, 0) == 0 && s[0..] == s;
    if n < 0 {
      assert s[1..] == DecNat(-n);
      DecNatRoundTrip(-n);
    } else {
      DecNatRoundTrip(n);
    }
  }

  // ----- hexadecimal numerals -----

  /** What `%x` prints. */
  function Hex(n: nat): (r: Bytes)
    ensures r != []
    ensures forall i :: 0 <= i < |r| ==> IsHex(r[i])
  {
    var d := [IToHex(n % 16)];
    if n < 16 then d else Hex(n / 16) + d
  }

  /** A number is printed without zeros in front, in lower case. */
  lemma {:induction false} HexShortest(n: nat)
    ensures n > 0 ==> Hex(n)[0] != '0'
    ensures forall i :: 0 <= i < |Hex(n)| ==> Hex(n)[i] in DIGITS16
    decreases n
  {
    DigitsRead(n % 16);
    assert DIGITS16[n % 16] in DIGITS16;
    if n >= 16 {
      HexShortest(n / 16);
    }
  }

  /** `%x` reads its argument as a 32-bit unsigned number. */
  function HexOfSize(size: nat): (r: Bytes)
    ensures r != []
    ensures forall i :: 0 <= i < |r| ==> IsHex(r[i])
  {
    Hex(size % 0x1_0000_0000)
  }

  // ----- sixteen-bit fields -----

  /** The low sixteen bits of x, most significant byte first. */
  function WriteShort(x: int): (r: Bytes)
    ensures |r| == 2
  {
    var n := x % 0x1_0000;
    [Byte(n / 256), Byte(n % 256)]
  }

  function ReadShort(hi: Octet, lo: Octet): (n: nat)
    ensures n < 0x1_0000
  {
    hi as int * 256 + lo as int
  }

  /** The first byte counts 256 times, for the writer as for the reader. */
  lemma ShortRoundTrip(x: int)
    ensures var s := WriteShort(x); s[0] as int * 256 + s[1] as int == x % 0x1_0000
    ensures ReadShort(WriteShort(x)[0], WriteShort(x)[1]) == x % 0x1_0000
  {}

  function WriteString(str: Bytes): (r: Bytes) {
    str + [NUL]
  }
}
