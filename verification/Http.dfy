/** The verb and header tables and the binary search that looks names up in them. */
module Http {
  import opened Octets

  const VERB_UNKNOWN: nat := 9
  const VERB_CONNECT: nat := 0
  const VERB_GET: nat := 2

  /** The verb table, in the order of the verb codes. OPTIONS stands after PUT. */
  const VERB_STRINGS: seq<Bytes> := [
    "CONNECT", "DELETE", "GET", "HEAD", "PATCH", "POST", "PUT", "OPTIONS", "TRACE"
  ]

  const HEADER_UNKNOWN: nat := 53
  const HEADER_END: nat := 54

  const NAMES_0: seq<Bytes> := [
    "accept", "accept-charset", "accept-encoding", "accept-language", "accept-ranges",
    "age", "allow", "authorization", "cache-control"
  ]
  const NAMES_1: seq<Bytes> := [
    "connection", "content-disposition", "content-encoding", "content-language",
    "content-length", "content-location", "content-md5", "content-range", "content-type"
  ]
  const NAMES_2: seq<Bytes> := [
    "cookie", "date", "etag", "expect", "expires", "from", "host", "if-match",
    "if-modified-since"
  ]
  const NAMES_3: seq<Bytes> := [
    "if-none-match", "if-range", "if-unmodified-since", "keep-alive", "last-modified",
    "location", "max-forwards", "pragma", "proxy-authenticate"
  ]
  const NAMES_4: seq<Bytes> := [
    "proxy-authorization", "range", "referer", "refresh", "retry-after", "server",
    "set-cookie", "te", "trailer"
  ]
  const NAMES_5: seq<Bytes> := [
    "transfer-encoding", "upgrade", "user-agent", "vary", "via", "warn", "warning",
    "www-authenticate"
  ]

  /** The header table, in the order of the header codes. */
  const HEADER_STRINGS: seq<Bytes> :=
    NAMES_0 + NAMES_1 + NAMES_2 + NAMES_3 + NAMES_4 + NAMES_5

  /** What the binary search computes, sorted table or not. */
  function Search(key: Bytes, table: seq<Bytes>, low: nat, high: nat): (r: int)
    requires low <= high <= |table|
    ensures r == -1 || (low <= r < high && Compare(key, table[r]) == 0)
    decreases high - low
  {
    if low == high then -1
    else
      var mid := (high + low) / 2;
      var cond := Compare(key, table[mid]);
      if cond < 0 then Search(key, table, low, mid)
      else if cond > 0 then Search(key, table, mid + 1, high)
      else mid
  }

  method StringBinSearch(key: Bytes, table: seq<Bytes>) returns (r: int)
    ensures r == Search(key, table, 0, |table|)
  {
    var low, high := 0, |table|;
    while low < high
      invariant 0 <= low <= high <= |table|
      invariant Search(key, table, low, high) == Search(key, table, 0, |table|)
    {
      var mid := (high + low) / 2;
      var cond := Compare(key, table[mid]);
      if cond < 0 {
        high := mid;
      } else if cond > 0 {
        low := mid + 1;
      } else {
        return mid;
      }
    }
    return -1;
  }

  ghost predicate StrictlySorted(table: seq<Bytes>) {
    forall i, j :: 0 <= i < j < |table| ==> Compare(table[i], table[j]) < 0
  }

  /** On a strictly sorted table the search finds a key exactly when it is there, and the
      place it is found at is the only one. */
  lemma {:induction false} SearchComplete(key: Bytes, table: seq<Bytes>, low: nat, high: nat, at: nat)
    requires StrictlySorted(table)
    requires low <= at < high <= |table|
    ensures Compare(key, table[at]) == 0 <==> Search(key, table, low, high) == at
    decreases high - low
  {
    if Compare(key, table[at]) == 0 {
      var mid := (high + low) / 2;
      if mid < at {
        CompareFlip(table[mid], key);
        CompareFlip(key, table[at]);
        CompareFlip(table[mid], table[at]);
        SortedAround(key, table, mid, at);
        SearchComplete(key, table, mid + 1, high, at);
      } else if at < mid {
        SortedAround(key, table, at, mid);
        SearchComplete(key, table, low, mid, at);
      }
    }
  }

  lemma SortedAround(key: Bytes, table: seq<Bytes>, i: nat, j: nat)
    requires StrictlySorted(table) && i < j < |table|
    ensures Compare(key, table[i]) == 0 ==> Compare(key, table[j]) < 0
    ensures Compare(key, table[j]) == 0 ==> Compare(key, table[i]) > 0
  {
    if Compare(key, table[i]) == 0 {
      CompareTransitive(key, table[i], table[j]);
    }
    if Compare(key, table[j]) == 0 {
      CompareFlip(key, table[j]);
      CompareTransitive(table[i], table[j], key);
      CompareFlip(table[i], key);
    }
  }

  /** Neighbours in order put the whole table in order. */
  lemma {:induction false} NeighboursSort(table: seq<Bytes>, i: nat, j: nat)
    requires forall k {:trigger table[k]} :: 0 < k < |table| ==> Compare(table[k-1], table[k]) < 0
    requires i < j < |table|
    ensures Compare(table[i], table[j]) < 0
    decreases j
  {
    if i + 1 < j {
      NeighboursSort(table, i, j - 1);
      CompareTransitive(table[i], table[j-1], table[j]);
    } else {
      assert table[j] == table[j];
    }
  }

  /** Where each name first differs from the one before it is enough to sort a table. */
  lemma SortedBySplits(table: seq<Bytes>, splits: seq<nat>)
    requires |splits| == |table|
    requires forall k :: 0 < k < |table| ==>
      SplitAt(table[k-1], table[k], splits[k])
    ensures StrictlySorted(table)
  {
    forall k | 0 < k < |table| ensures Compare(table[k-1], table[k]) < 0 {
      CompareAt(table[k-1], table[k], splits[k]);
    }
    forall i, j | 0 <= i < j < |table| ensures Compare(table[i], table[j]) < 0 {
      NeighboursSort(table, i, j);
    }
  }

  predicate SplitAt(a: Bytes, b: Bytes, k: nat) {
    && k <= |a| && k < |b|
    && a[..k] == b[..k]
    && (k == |a| || Fold(a[k]) < Fold(b[k]))
  }

  lemma SortedNames0()
    ensures StrictlySorted(NAMES_0)
  {
    SortedBySplits(NAMES_0, [0, 6, 7, 7, 7, 1, 1, 1, 0]);
  }

  lemma SortedNames1()
    ensures StrictlySorted(NAMES_1)
  {
    SortedBySplits(NAMES_1, [0, 3, 8, 8, 9, 9, 8, 8, 8]);
  }

  lemma SortedNames2()
    ensures StrictlySorted(NAMES_2)
  {
    SortedBySplits(NAMES_2, [0, 0, 0, 1, 3, 0, 0, 0, 4]);
  }

  lemma SortedNames3()
    ensures StrictlySorted(NAMES_3)
  {
    SortedBySplits(NAMES_3, [0, 3, 3, 0, 0, 1, 0, 0, 2]);
  }

  lemma SortedNames4()
    ensures StrictlySorted(NAMES_4)
  {
    SortedBySplits(NAMES_4, [0, 0, 1, 3, 2, 0, 2, 0, 1]);
  }

  lemma SortedNames5()
    ensures StrictlySorted(NAMES_5)
  {
    SortedBySplits(NAMES_5, [0, 0, 1, 0, 1, 0, 4, 1]);
  }

  lemma SortedJoin(a: seq<Bytes>, b: seq<Bytes>)
    requires a != [] && b != []
    requires StrictlySorted(a) && StrictlySorted(b)
    requires Compare(a[|a|-1], b[0]) < 0
    ensures StrictlySorted(a + b)
  {
    var t := a + b;
    forall k {:trigger t[k]} | 0 < k < |t| ensures Compare(t[k-1], t[k]) < 0 {
    }
    forall i, j | 0 <= i < j < |t| ensures Compare(t[i], t[j]) < 0 {
      NeighboursSort(t, i, j);
    }
  }

  lemma SortedFront()
    ensures StrictlySorted(NAMES_0 + NAMES_1 + NAMES_2)
  {
    hide StrictlySorted;
    SortedNames0();
    SortedNames1();
    SortedNames2();
    SortedJoin(NAMES_0, NAMES_1);
    SortedJoin(NAMES_0 + NAMES_1, NAMES_2);
  }

  lemma SortedBack()
    ensures StrictlySorted(NAMES_3 + NAMES_4 + NAMES_5)
  {
    hide StrictlySorted;
    SortedMiddle();
    SortedNames5();
    SortedJoin(NAMES_3 + NAMES_4, NAMES_5);
  }

  lemma SortedMiddle()
    ensures StrictlySorted(NAMES_3 + NAMES_4)
  {
    hide StrictlySorted;
    SortedNames3();
    SortedNames4();
    SortedJoin(NAMES_3, NAMES_4);
  }

  /** The header table is strictly sorted, so the binary search is complete on it. */
  lemma HeaderTableSorted()
    ensures |HEADER_STRINGS| == HEADER_UNKNOWN
    ensures StrictlySorted(HEADER_STRINGS)
  {
    hide StrictlySorted;
    SortedFront();
    SortedBack();
    SortedJoin(NAMES_0 + NAMES_1 + NAMES_2, NAMES_3 + NAMES_4 + NAMES_5);
    assert NAMES_0 + NAMES_1 + NAMES_2 + (NAMES_3 + NAMES_4 + NAMES_5) == HEADER_STRINGS;
  }

  predicate LowerCase(s: Bytes) {
    forall i :: 0 <= i < |s| ==> s[i] != NUL && Fold(s[i]) == s[i]
  }

  predicate AllLowerCase(table: seq<Bytes>) {
    forall i :: 0 <= i < |table| ==> LowerCase(table[i])
  }

  lemma LowerFront0()
    ensures LowerCase(NAMES_0[0]) && LowerCase(NAMES_0[1])
    ensures LowerCase(NAMES_0[2]) && LowerCase(NAMES_0[3]) && LowerCase(NAMES_0[4])
  {}

  lemma LowerBack0()
    ensures LowerCase(NAMES_0[5]) && LowerCase(NAMES_0[6])
    ensures LowerCase(NAMES_0[7]) && LowerCase(NAMES_0[8])
  {}

  lemma LowerNames0()
    ensures AllLowerCase(NAMES_0)
  {
    hide LowerCase;
    LowerFront0();
    LowerBack0();
  }

  lemma LowerFront1()
    ensures LowerCase(NAMES_1[0]) && LowerCase(NAMES_1[1])
    ensures LowerCase(NAMES_1[2]) && LowerCase(NAMES_1[3]) && LowerCase(NAMES_1[4])
  {}

  lemma LowerBack1()
    ensures LowerCase(NAMES_1[5]) && LowerCase(NAMES_1[6])
    ensures LowerCase(NAMES_1[7]) && LowerCase(NAMES_1[8])
  {}

  lemma LowerNames1()
    ensures AllLowerCase(NAMES_1)
  {
    hide LowerCase;
    LowerFront1();
    LowerBack1();
  }

  lemma LowerFront2()
    ensures LowerCase(NAMES_2[0]) && LowerCase(NAMES_2[1])
    ensures LowerCase(NAMES_2[2]) && LowerCase(NAMES_2[3]) && LowerCase(NAMES_2[4])
  {}

  lemma LowerBack2()
    ensures LowerCase(NAMES_2[5]) && LowerCase(NAMES_2[6])
    ensures LowerCase(NAMES_2[7]) && LowerCase(NAMES_2[8])
  {}

  lemma LowerNames2()
    ensures AllLowerCase(NAMES_2)
  {
    hide LowerCase;
    LowerFront2();
    LowerBack2();
  }

  lemma LowerFront3()
    ensures LowerCase(NAMES_3[0]) && LowerCase(NAMES_3[1])
    ensures LowerCase(NAMES_3[2]) && LowerCase(NAMES_3[3]) && LowerCase(NAMES_3[4])
  {}

  lemma LowerBack3()
    ensures LowerCase(NAMES_3[5]) && LowerCase(NAMES_3[6])
    ensures LowerCase(NAMES_3[7]) && LowerCase(NAMES_3[8])
  {}

  lemma LowerNames3()
    ensures AllLowerCase(NAMES_3)
  {
    hide LowerCase;
    LowerFront3();
    LowerBack3();
  }

  lemma LowerFront4()
    ensures LowerCase(NAMES_4[0]) && LowerCase(NAMES_4[1])
    ensures LowerCase(NAMES_4[2]) && LowerCase(NAMES_4[3]) && LowerCase(NAMES_4[4])
  {}

  lemma LowerBack4()
    ensures LowerCase(NAMES_4[5]) && LowerCase(NAMES_4[6])
    ensures LowerCase(NAMES_4[7]) && LowerCase(NAMES_4[8])
  {}

  lemma LowerNames4()
    ensures AllLowerCase(NAMES_4)
  {
    hide LowerCase;
    LowerFront4();
    LowerBack4();
  }

  lemma LowerFront5()
    ensures LowerCase(NAMES_5[0]) && LowerCase(NAMES_5[1])
    ensures LowerCase(NAMES_5[2]) && LowerCase(NAMES_5[3]) && LowerCase(NAMES_5[4])
  {}

  lemma LowerBack5()
    ensures LowerCase(NAMES_5[5]) && LowerCase(NAMES_5[6])
    ensures LowerCase(NAMES_5[7])
  {}

  lemma LowerNames5()
    ensures AllLowerCase(NAMES_5)
  {
    hide LowerCase;
    LowerFront5();
    LowerBack5();
  }

  lemma NamesLowerCase()
    ensures AllLowerCase(HEADER_STRINGS)
  {
    hide LowerCase;
    LowerNames0();
    LowerNames1();
    LowerNames2();
    LowerNames3();
    LowerNames4();
    LowerNames5();
  }

  // ----- codes and names -----

  function AToHeader(key: Bytes): (code: nat)
    ensures code <= HEADER_UNKNOWN
  {
    var r := Search(CStr(key), HEADER_STRINGS, 0, |HEADER_STRINGS|);
    if r != -1 then r else HEADER_UNKNOWN
  }

  function HeaderToA(code: nat): (name: Bytes)
    requires code < HEADER_UNKNOWN
  {
    HEADER_STRINGS[code]
  }

  function AToVerb(key: Bytes): (code: nat)
    ensures code <= VERB_UNKNOWN
  {
    var r := Search(CStr(key), VERB_STRINGS, 0, |VERB_STRINGS|);
    if r != -1 then r else VERB_UNKNOWN
  }

  function VerbToA(code: nat): (name: Bytes)
    requires code < VERB_UNKNOWN
  {
    VERB_STRINGS[code]
  }

  /** A header name after compression to a code and expansion again. */
  function Canon(key: Bytes): (name: Bytes) {
    var code := AToHeader(key);
    if code == HEADER_UNKNOWN then key else HeaderToA(code)
  }

  /** A key gets the code of a name exactly when it is that name up to case. */
  lemma HeaderLookup(key: Bytes, code: nat)
    requires code < HEADER_UNKNOWN
    ensures AToHeader(key) == code <==> Names(key, HeaderToA(code))
  {
    HeaderTableSorted();
    SearchComplete(CStr(key), HEADER_STRINGS, 0, |HEADER_STRINGS|, code);
  }

  lemma HeaderCodeRoundTrip(code: nat)
    requires code < HEADER_UNKNOWN
    ensures AToHeader(HeaderToA(code)) == code
  {
    HeaderTableSorted();
    NamesLowerCase();
    var name := HeaderToA(code);
    assert LowerCase(HEADER_STRINGS[code]);
    CStrIdentity(name);
    CompareZero(name, name);
    HeaderLookup(name, code);
  }

  /** Compression followed by expansion only changes case: known names come back in lower
      case, unknown names unchanged, and a second pass changes nothing. */
  lemma CanonFolds(key: Bytes)
    requires NulFree(key)
    ensures FoldAll(Canon(key)) == FoldAll(key)
    ensures NulFree(Canon(key))
    ensures AToHeader(key) != HEADER_UNKNOWN ==> Canon(key) == FoldAll(key)
    ensures AToHeader(key) == HEADER_UNKNOWN ==> Canon(key) == key
    ensures Canon(Canon(key)) == Canon(key)
  {
    var code := AToHeader(key);
    if code != HEADER_UNKNOWN {
      HeaderLookup(key, code);
      CStrIdentity(key);
      CompareZero(key, HeaderToA(code));
      NamesLowerCase();
      assert LowerCase(HEADER_STRINGS[code]);
      HeaderCodeRoundTrip(code);
    }
  }

  /** No name in the table is a single byte. */
  lemma SingleByteUnknown(key: Bytes)
    requires |key| == 1 && NulFree(key)
    ensures AToHeader(key) == HEADER_UNKNOWN
  {
    var code := AToHeader(key);
    if code != HEADER_UNKNOWN {
      HeaderLookup(key, code);
      CStrIdentity(key);
      CompareZero(key, HeaderToA(code));
      assert |HeaderToA(code)| == |FoldAll(HeaderToA(code))| == 1;
      NamesLong();
    }
  }

  lemma NamesLong()
    ensures forall i :: 0 <= i < |HEADER_STRINGS| ==> |HEADER_STRINGS[i]| > 1
  {
    assert forall i :: 0 <= i < |NAMES_0| ==> |NAMES_0[i]| > 1;
    assert forall i :: 0 <= i < |NAMES_1| ==> |NAMES_1[i]| > 1;
    assert forall i :: 0 <= i < |NAMES_2| ==> |NAMES_2[i]| > 1;
    assert forall i :: 0 <= i < |NAMES_3| ==> |NAMES_3[i]| > 1;
    assert forall i :: 0 <= i < |NAMES_4| ==> |NAMES_4[i]| > 1;
    assert forall i :: 0 <= i < |NAMES_5| ==> |NAMES_5[i]| > 1;
  }

  // ----- the verb table -----

  /** The alphabetical rank of each verb code. */
  const VERB_RANKS: seq<nat> := [0, 1, 2, 3, 5, 6, 7, 4, 8]

  const VERBS_IN_ORDER: seq<Bytes> := [
    "CONNECT", "DELETE", "GET", "HEAD", "OPTIONS", "PATCH", "POST", "PUT", "TRACE"
  ]

  lemma VerbsPermuted(a: nat)
    requires a < VERB_UNKNOWN
    ensures VERB_RANKS[a] < VERB_UNKNOWN
    ensures VERBS_IN_ORDER[VERB_RANKS[a]] == VERB_STRINGS[a]
  {}

  lemma VerbsSorted()
    ensures StrictlySorted(VERBS_IN_ORDER)
  {
    SortedBySplits(VERBS_IN_ORDER, [0, 0, 0, 0, 0, 0, 1, 1, 0]);
  }

  lemma VerbNulFree(a: nat)
    requires a < VERB_UNKNOWN
    ensures NulFree(VERB_STRINGS[a])
  {}

  lemma VerbOrder(a: nat, b: nat)
    requires a < VERB_UNKNOWN && b < VERB_UNKNOWN
    ensures VERB_RANKS[a] < VERB_RANKS[b] ==> Compare(VERB_STRINGS[a], VERB_STRINGS[b]) < 0
    ensures VERB_RANKS[a] > VERB_RANKS[b] ==> Compare(VERB_STRINGS[a], VERB_STRINGS[b]) > 0
    ensures a == b ==> Compare(VERB_STRINGS[a], VERB_STRINGS[b]) == 0
  {
    VerbsSorted();
    VerbsPermuted(a);
    VerbsPermuted(b);
    CompareFlip(VERB_STRINGS[a], VERB_STRINGS[b]);
    CompareZero(VERB_STRINGS[a], VERB_STRINGS[a]);
  }

  /** Looking a verb's own name up gives the verb back, except for the three that the
      misplaced OPTIONS hides from the binary search. */
  lemma VerbCodeRoundTrip(code: nat)
    requires code < VERB_UNKNOWN
    ensures AToVerb(VerbToA(code)) == code <==> code != 5 && code != 6 && code != 7
    ensures AToVerb(VerbToA(code)) != code ==> AToVerb(VerbToA(code)) == VERB_UNKNOWN
  {
    var key := VerbToA(code);
    forall b | 0 <= b < 9
      ensures VERB_RANKS[code] < VERB_RANKS[b] ==> Compare(key, VERB_STRINGS[b]) < 0
      ensures VERB_RANKS[code] > VERB_RANKS[b] ==> Compare(key, VERB_STRINGS[b]) > 0
      ensures code == b ==> Compare(key, VERB_STRINGS[b]) == 0
    {
      VerbOrder(code, b);
    }
    VerbNulFree(code);
    CStrIdentity(key);
    SearchVerb(key, code);
  }

  lemma SearchVerb(key: Bytes, code: nat)
    requires code < VERB_UNKNOWN
    requires forall b :: 0 <= b < 9 ==>
      && (VERB_RANKS[code] < VERB_RANKS[b] ==> Compare(key, VERB_STRINGS[b]) < 0)
      && (VERB_RANKS[code] > VERB_RANKS[b] ==> Compare(key, VERB_STRINGS[b]) > 0)
      && (code == b ==> Compare(key, VERB_STRINGS[b]) == 0)
    ensures Search(key, VERB_STRINGS, 0, 9) == if 5 <= code <= 7 then -1 else code
  {
    assert Search(key, VERB_STRINGS, 5, 5) == -1;
    assert Search(key, VERB_STRINGS, 4, 4) == -1;
    assert Search(key, VERB_STRINGS, 8, 8) == -1;
    assert Search(key, VERB_STRINGS, 8, 9) == if code == 8 then 8 else -1;
    assert code == 5 || code == 6 || code == 8 ==>
      Search(key, VERB_STRINGS, 5, 9) == if code == 8 then 8 else -1;
    assert Search(key, VERB_STRINGS, 0, 0) == -1;
    assert Search(key, VERB_STRINGS, 3, 4) == if code == 3 then 3 else -1;
    assert Search(key, VERB_STRINGS, 0, 1) == if code == 0 then 0 else -1;
    assert code < 2 ==> Search(key, VERB_STRINGS, 0, 2) == code;
    assert code < 4 ==> Search(key, VERB_STRINGS, 0, 4) == code;
    assert code == 7 ==> Search(key, VERB_STRINGS, 0, 4) == -1;
  }
}
