/** JSON values as the gate sees them, and the canonical form `json.dumps(..., sort_keys=True)` compares. */
module Json {

  datatype Option<+T> = None | Some(value: T)

  datatype Json =
    | JNull
    | JBool(b: bool)
    | JInt(i: int)
    | JReal(r: real)
    | JStr(s: string)
    | JList(items: seq<Json>)
    | JObj(members: Dict)

  /** A dictionary is the sequence of assignments that built it; for each key the last one wins. */
  type Dict = seq<(string, Json)>

  /** `d.get(k)`: the value last assigned to `k`, or null. */
  function Get(d: Dict, k: string): Json
  {
    if d == [] then JNull
    else if d[|d| - 1].0 == k then d[|d| - 1].1
    else Get(d[..|d| - 1], k)
  }

  predicate HasKey(d: Dict, k: string)
  {
    exists i :: 0 <= i < |d| && d[i].0 == k
  }

  /** `d.get(k, default)`. */
  function GetOr(d: Dict, k: string, default: Json): Json
  {
    if HasKey(d, k) then Get(d, k) else default
  }

  /** `d[k] = v`. */
  function Put(d: Dict, k: string, v: Json): Dict
  {
    d + [(k, v)]
  }

  /** A key reads as the value last assigned to it. */
  lemma {:induction false} GetAppended(d: Dict, k: string, v: Json, key: string)
    ensures Get(Put(d, k, v), key) == if key == k then v else Get(d, key)
  {
    assert Put(d, k, v)[..|d|] == d;
  }

  lemma {:induction false} HasKeySnoc(d: Dict, last: (string, Json), k: string)
    ensures HasKey(d + [last], k) <==> HasKey(d, k) || last.0 == k
  {
    assert (d + [last])[|d|] == last;
    assert forall i :: 0 <= i < |d| ==> (d + [last])[i] == d[i];
  }

  /** Python's truth value of a JSON value. */
  predicate Truthy(j: Json)
  {
    match j
    case JNull => false
    case JBool(b) => b
    case JInt(i) => i != 0
    case JReal(r) => r != 0.0
    case JStr(s) => s != ""
    case JList(items) => items != []
    case JObj(members) => members != []
  }

  /** What counts as false. */
  lemma FalsyValues(j: Json)
    ensures !Truthy(j)
            <==> j in {JNull, JBool(false), JInt(0), JReal(0.0), JStr(""), JList([]), JObj([])}
  {
  }

  /** `a or b`. */
  function Or(a: Json, b: Json): Json
  {
    if Truthy(a) then a else b
  }

  datatype Canonical =
    | CNull
    | CBool(b: bool)
    | CInt(i: int)
    | CReal(r: real)
    | CStr(s: string)
    | CList(items: seq<Canonical>)
    | CObj(members: map<string, Canonical>)

  /** With `exact`, the value a sorted-key JSON text stands for. Without it numbers and booleans are
      merged by value, so that equality of the results is Python's `==`. */
  function Canon(j: Json, exact: bool): Canonical
    decreases j, 0
  {
    match j
    case JNull => CNull
    case JBool(b) => if exact then CBool(b) else CReal(if b then 1.0 else 0.0)
    case JInt(i) => if exact then CInt(i) else CReal(i as real)
    case JReal(r) => CReal(r)
    case JStr(s) => CStr(s)
    case JList(items) => CList(CanonItems(items, exact))
    case JObj(members) => CObj(CanonDict(members, exact))
  }

  function CanonItems(items: seq<Json>, exact: bool): (r: seq<Canonical>)
    decreases items, 1
  {
    if items == [] then [] else [Canon(items[0], exact)] + CanonItems(items[1..], exact)
  }

  function CanonDict(d: Dict, exact: bool): map<string, Canonical>
    decreases d, 1
  {
    if d == [] then map[]
    else
      var last := d[|d| - 1];
      assert last.1 < last;
      CanonDict(d[..|d| - 1], exact)[last.0 := Canon(last.1, exact)]
  }

  /** The text `json.dumps(payload, sort_keys=True)` is compared by the value it stands for. */
  predicate SameJson(a: Dict, b: Dict)
  {
    CanonDict(a, true) == CanonDict(b, true)
  }

  predicate PythonEqual(a: Json, b: Json)
  {
    Canon(a, false) == Canon(b, false)
  }

  predicate DistinctKeys(d: Dict)
  {
    forall i, j :: 0 <= i < j < |d| ==> d[i].0 != d[j].0
  }

  /** Every key of the canonical object is a key of the dictionary, with the value `get` returns. */
  lemma {:induction false} CanonDictEntries(d: Dict, exact: bool)
    ensures forall k :: k in CanonDict(d, exact) <==> HasKey(d, k)
    ensures forall k :: k in CanonDict(d, exact) ==> CanonDict(d, exact)[k] == Canon(Get(d, k), exact)
  {
    if d == [] {
    } else {
      var n := |d| - 1;
      var front := d[..n];
      CanonDictEntries(front, exact);
      assert d == front + [d[n]];
      forall k
        ensures k in CanonDict(d, exact) <==> HasKey(d, k)
      {
        if k in CanonDict(front, exact) {
          var i :| 0 <= i < |front| && front[i].0 == k;
          assert d[i].0 == k;
        }
        if i :| 0 <= i < |d| && d[i].0 == k {
          if i < n {
            assert front[i].0 == k;
          }
        }
      }
    }
  }

  /** The same value but for the order of keys, at any depth, and for assignments that later ones undo. */
  ghost predicate SameButForOrder(a: Json, b: Json)
    decreases a
  {
    match a
    case JList(items) =>
      && b.JList? && |b.items| == |items|
      && forall i :: 0 <= i < |items| ==> SameButForOrder(items[i], b.items[i])
    case JObj(members) =>
      && b.JObj? && (forall k :: HasKey(members, k) <==> HasKey(b.members, k))
      && forall i :: 0 <= i < |members| && LastFor(members, i) ==>
        SameButForOrder(members[i].1, Get(b.members, members[i].0))
    case _ => a == b
  }

  /** Position `i` holds the last assignment to its key. */
  predicate LastFor(d: Dict, i: nat)
    requires i < |d|
  {
    forall j :: i < j < |d| ==> d[j].0 != d[i].0
  }

  /** The sorted-key JSON of two payloads is the same if and only if they differ in the order of keys at most, at any
      depth: they have the same keys, and the values read under each key are the same but for the order of keys. */
  lemma {:induction false} KeyOrderIgnored(a: Json, b: Json)
    ensures Canon(a, true) == Canon(b, true) <==> SameButForOrder(a, b)
    decreases a
  {
    match a
    case JList(items) =>
      if b.JList? {
        CanonItemsAt(items, true);
        CanonItemsAt(b.items, true);
        forall i | 0 <= i < |items| && i < |b.items|
          ensures Canon(items[i], true) == Canon(b.items[i], true) <==> SameButForOrder(items[i], b.items[i])
        {
          KeyOrderIgnored(items[i], b.items[i]);
        }
      }
    case JObj(members) =>
      if b.JObj? {
        forall i | 0 <= i < |members|
          ensures Canon(members[i].1, true) == Canon(Get(b.members, members[i].0), true)
                  <==> SameButForOrder(members[i].1, Get(b.members, members[i].0))
        {
          assert members[i].1 < members[i];
          KeyOrderIgnored(members[i].1, Get(b.members, members[i].0));
        }
        SameDictIff(members, b.members);
      }
    case _ =>
  }

  lemma {:induction false} CanonItemsAt(items: seq<Json>, exact: bool)
    ensures |CanonItems(items, exact)| == |items|
    ensures forall i :: 0 <= i < |items| ==> CanonItems(items, exact)[i] == Canon(items[i], exact)
  {
    if items == [] {
    } else {
      CanonItemsAt(items[1..], exact);
    }
  }

  /** Two dictionaries have equal sorted-key JSON if and only if they have the same keys and the values that `get`
      returns have. */
  lemma {:induction false} SameDictIff(a: Dict, b: Dict)
    ensures SameJson(a, b)
            <==> && (forall k :: HasKey(a, k) <==> HasKey(b, k))
                 && forall i :: 0 <= i < |a| && LastFor(a, i) ==>
                   Canon(a[i].1, true) == Canon(Get(b, a[i].0), true)
  {
    hide Canon;
    CanonDictEntries(a, true);
    CanonDictEntries(b, true);
    forall i | 0 <= i < |a| && LastFor(a, i)
      ensures Get(a, a[i].0) == a[i].1 && HasKey(a, a[i].0)
    {
      assert HasKey(a, a[i].0);
      var j := LastPosition(a, a[i].0);
      assert i == j;
    }
    if && (forall k :: HasKey(a, k) <==> HasKey(b, k))
       && forall i :: 0 <= i < |a| && LastFor(a, i) ==> Canon(a[i].1, true) == Canon(Get(b, a[i].0), true) {
      forall k
        ensures k in CanonDict(a, true) <==> k in CanonDict(b, true)
        ensures k in CanonDict(a, true) ==> CanonDict(a, true)[k] == CanonDict(b, true)[k]
      {
        if HasKey(a, k) {
          var i := LastPosition(a, k);
        }
      }
    }
    if SameJson(a, b) {
      assert forall k :: HasKey(a, k) <==> k in CanonDict(a, true);
      assert forall k :: HasKey(b, k) <==> k in CanonDict(b, true);
    }
  }

  lemma {:induction false} LastPosition(d: Dict, k: string) returns (i: nat)
    requires HasKey(d, k)
    ensures i < |d| && LastFor(d, i) && d[i].0 == k && Get(d, k) == d[i].1
  {
    i := |d| - 1;
    if d[i].0 != k {
      i := LastPosition(d[..i], k);
    }
  }

  /** Reordering the keys of a dictionary does not change its canonical form. */
  lemma PermutedKeysIgnored(a: Dict, b: Dict)
    requires DistinctKeys(a) && multiset(a) == multiset(b)
    ensures SameJson(a, b)
  {
    CanonDictEntries(a, true);
    CanonDictEntries(b, true);
    SameLength(a, b);
    PermutedKeysDistinct(a, b);
    forall k
      ensures k in CanonDict(a, true) <==> k in CanonDict(b, true)
      ensures k in CanonDict(a, true) ==> Get(a, k) == Get(b, k)
    {
      if i :| 0 <= i < |a| && a[i].0 == k {
        assert a[i] in multiset(b);
        var j :| 0 <= j < |b| && b[j] == a[i];
        GetDistinct(a, i);
        GetDistinct(b, j);
      }
      if j :| 0 <= j < |b| && b[j].0 == k {
        assert b[j] in multiset(a);
        var i :| 0 <= i < |a| && a[i] == b[j];
      }
    }
  }

  lemma SameLength<T>(a: seq<T>, b: seq<T>)
    requires multiset(a) == multiset(b)
    ensures |a| == |b|
  {
    assert |multiset(a)| == |a| && |multiset(b)| == |b|;
  }

  lemma {:induction false} GetDistinct(d: Dict, i: nat)
    requires DistinctKeys(d) && i < |d|
    ensures Get(d, d[i].0) == d[i].1
  {
    if i < |d| - 1 {
      GetDistinct(d[..|d| - 1], i);
    }
  }

  /** Distinctness of keys says that no key has two occurrences, which a permutation preserves. */
  lemma PermutedKeysDistinct(a: Dict, b: Dict)
    requires DistinctKeys(a) && multiset(a) == multiset(b)
    ensures DistinctKeys(b)
  {
    forall i, j | 0 <= i < j < |b|
      ensures b[i].0 != b[j].0
    {
      if b[i].0 == b[j].0 {
        assert b[i] in multiset(a) && b[j] in multiset(a);
        var p :| 0 <= p < |a| && a[p] == b[i];
        var q :| 0 <= q < |a| && a[q] == b[j];
        assert p == q;
        CountTwo(b, i, j);
        CountOne(a, p);
      }
    }
  }

  lemma CountTwo<T>(s: seq<T>, i: nat, j: nat)
    requires i < j < |s| && s[i] == s[j]
    ensures multiset(s)[s[i]] >= 2
  {
    assert s == s[..j] + s[j..];
    assert s[..j][i] == s[i];
    assert s[j..][0] == s[i];
    assert s[i] in multiset(s[..j]) && s[i] in multiset(s[j..]);
  }

  lemma CountOne(d: Dict, p: nat)
    requires DistinctKeys(d) && p < |d|
    ensures multiset(d)[d[p]] == 1
  {
    assert d == d[..p] + [d[p]] + d[p + 1..];
    assert d[p] !in d[..p] && d[p] !in d[p + 1..];
  }

  /** ASCII case folding, which is what the constants the gate compares with need. */
  function Lower(s: string): (r: string)
    ensures |r| == |s|
  {
    seq(|s|, i requires 0 <= i < |s| =>
      if 'A' <= s[i] <= 'Z' then (s[i] as int + 32) as char else s[i])
  }

  /** The same character, or the two cases of one ASCII letter. */
  predicate SameLetter(a: char, b: char)
  {
    a == b || ('A' <= a <= 'Z' && b as int == a as int + 32) || ('A' <= b <= 'Z' && a as int == b as int + 32)
  }

  /** The same text but for the case of letters. */
  predicate SameLetters(a: string, b: string)
  {
    |a| == |b| && forall i :: 0 <= i < |a| ==> SameLetter(a[i], b[i])
  }

  predicate NoCapitals(s: string)
  {
    forall i :: 0 <= i < |s| ==> !('A' <= s[i] <= 'Z')
  }

  /** Of all texts that differ only in case, folding picks the one without capitals. */
  lemma {:induction false} LowerIsTheOneWithoutCapitals(s: string, t: string)
    ensures t == Lower(s) <==> SameLetters(s, t) && NoCapitals(t)
  {
    if SameLetters(s, t) && NoCapitals(t) {
      assert forall i :: 0 <= i < |s| ==> SameLetter(s[i], t[i]) && Lower(s)[i] == t[i];
    }
    assert forall i :: 0 <= i < |s| ==> SameLetter(s[i], Lower(s)[i]) && !('A' <= Lower(s)[i] <= 'Z');
  }

  lemma {:induction false} SameLettersFoldAlike(a: string, b: string)
    requires SameLetters(a, b)
    ensures Lower(a) == Lower(b)
  {
    assert forall i :: 0 <= i < |a| ==> SameLetter(a[i], b[i]) && Lower(a)[i] == Lower(b)[i];
  }

  predicate StartsWith(s: string, prefix: string)
  {
    prefix <= s
  }

  predicate EndsWith(s: string, suffix: string)
  {
    |suffix| <= |s| && s[|s| - |suffix|..] == suffix
  }

  predicate HasSubstring(s: string, part: string)
  {
    exists i :: 0 <= i <= |s| && StartsWith(s[i..], part)
  }
}
