/** The `reduce((acc, x) => { acc[key(x)] = (acc[key(x)] || 0) + w(x); return acc }, {})`
    accumulators of the dashboard and the audit-log page. A JavaScript
    object keeps its string keys in insertion order, so the accumulator is
    an association list: a key seen for the first time is appended, a key
    seen again has its value increased in place. */
module Tally {
  import opened Common

  datatype Entry = Entry(key: string, value: int)

  function KeyIndex(acc: seq<Entry>, k: string): Option<nat> {
    FindFirst(acc, (e: Entry) => e.key == k)
  }

  /** `acc[k] = (acc[k] || 0) + w` (a stored 0 is falsy, and 0 + w is w). */
  function Bump(acc: seq<Entry>, k: string, w: int): (r: seq<Entry>)
  {
    match KeyIndex(acc, k)
    case Some(i) => acc[i := Entry(k, acc[i].value + w)]
    case None => acc + [Entry(k, w)]
  }

  /** The accumulator after folding the whole of `s`, left to right. */
  function TallyOf<T>(s: seq<T>, key: T -> string, weight: T -> int): seq<Entry>
  {
    if s == [] then []
    else
      var n := |s| - 1;
      Bump(TallyOf(s[..n], key, weight), key(s[n]), weight(s[n]))
  }

  /** `reduce((sum, x) => sum + w(x), 0)`. */
  function SumOf<T>(s: seq<T>, weight: T -> int): int {
    if s == [] then 0 else SumOf(s[..|s| - 1], weight) + weight(s[|s| - 1])
  }

  /** The sum of the values stored in an accumulator. */
  function Total(acc: seq<Entry>): int {
    if acc == [] then 0 else Total(acc[..|acc| - 1]) + acc[|acc| - 1].value
  }

  predicate DistinctKeys(acc: seq<Entry>) {
    forall i, j :: 0 <= i < j < |acc| ==> acc[i].key != acc[j].key
  }

  function KeySet(acc: seq<Entry>): set<string> {
    set e | e in acc :: e.key
  }

  function Image<T>(s: seq<T>, key: T -> string): set<string> {
    set i | 0 <= i < |s| :: key(s[i])
  }

  lemma {:induction false} TotalAppend(acc: seq<Entry>, e: Entry)
    ensures Total(acc + [e]) == Total(acc) + e.value
  {
    assert (acc + [e])[..|acc|] == acc;
  }

  lemma {:induction false} TotalUpdate(acc: seq<Entry>, i: nat, w: int)
    requires i < |acc|
    ensures Total(acc[i := Entry(acc[i].key, acc[i].value + w)]) == Total(acc) + w
    decreases |acc|
  {
    var n := |acc| - 1;
    var upd := acc[i := Entry(acc[i].key, acc[i].value + w)];
    if i < n {
      assert upd[..n] == acc[..n][i := Entry(acc[i].key, acc[i].value + w)];
      TotalUpdate(acc[..n], i, w);
    } else {
      assert upd[..n] == acc[..n];
    }
  }

  /** One step of the fold adds exactly its weight to the stored total. */
  lemma BumpTotal(acc: seq<Entry>, k: string, w: int)
    ensures Total(Bump(acc, k, w)) == Total(acc) + w
  {
    match KeyIndex(acc, k)
    case Some(i) => TotalUpdate(acc, i, w);
    case None => TotalAppend(acc, Entry(k, w));
  }

  lemma BumpKeys(acc: seq<Entry>, k: string, w: int)
    requires DistinctKeys(acc)
    ensures DistinctKeys(Bump(acc, k, w))
    ensures KeySet(Bump(acc, k, w)) == KeySet(acc) + {k}
  {
    var r := Bump(acc, k, w);
    match KeyIndex(acc, k)
    case Some(i) =>
      forall e | e in r ensures e.key in KeySet(acc) {
        var j :| 0 <= j < |r| && r[j] == e;
        assert j != i ==> acc[j] == e;
      }
      assert acc[i] in acc;
      forall x | x in KeySet(acc) ensures x in KeySet(r) {
        var e :| e in acc && e.key == x;
        var j :| 0 <= j < |acc| && acc[j] == e;
        assert r[j].key == x;
      }
    case None =>
      assert r[|acc|] == Entry(k, w);
      forall x | x in KeySet(r) ensures x in KeySet(acc) + {k} {
        var e :| e in r && e.key == x;
        var j :| 0 <= j < |r| && r[j] == e;
        if j < |acc| { assert acc[j] == e; }
      }
      forall x | x in KeySet(acc) ensures x in KeySet(r) {
        var e :| e in acc && e.key == x;
        assert e in r;
      }
  }

  /** The values of a tally add up to the sum of the weights folded into it:
      a partition of the input never loses or double-counts an element. */
  lemma {:induction false} TallyTotal<T>(s: seq<T>, key: T -> string, weight: T -> int)
    ensures Total(TallyOf(s, key, weight)) == SumOf(s, weight)
  {
    if s != [] {
      var n := |s| - 1;
      TallyTotal(s[..n], key, weight);
      BumpTotal(TallyOf(s[..n], key, weight), key(s[n]), weight(s[n]));
    }
  }

  /** A tally has one entry per distinct key of the input, and no other. */
  lemma {:induction false} TallyKeys<T>(s: seq<T>, key: T -> string, weight: T -> int)
    ensures DistinctKeys(TallyOf(s, key, weight))
    ensures KeySet(TallyOf(s, key, weight)) == Image(s, key)
  {
    if s != [] {
      var n := |s| - 1;
      TallyKeys(s[..n], key, weight);
      BumpKeys(TallyOf(s[..n], key, weight), key(s[n]), weight(s[n]));
      assert s == s[..n] + [s[n]];
      assert Image(s, key) == Image(s[..n], key) + {key(s[n])};
    }
  }

  /** An accumulator with distinct keys has as many entries as keys
      (`Object.keys(acc).length`). */
  lemma {:induction false} DistinctKeysCount(acc: seq<Entry>)
    requires DistinctKeys(acc)
    ensures |KeySet(acc)| == |acc|
  {
    if acc != [] {
      var n := |acc| - 1;
      var init, last := acc[..n], acc[n];
      DistinctKeysCount(init);
      assert acc == init + [last];
      assert KeySet(acc) == KeySet(init) + {last.key};
    }
  }

  /** There are never more distinct keys than elements. */
  lemma {:induction false} ImageBound<T>(s: seq<T>, key: T -> string)
    ensures |Image(s, key)| <= |s|
  {
    if s != [] {
      var n := |s| - 1;
      ImageBound(s[..n], key);
      assert s == s[..n] + [s[n]];
      assert Image(s, key) == Image(s[..n], key) + {key(s[n])};
    }
  }

  /** Counting is summing a weight of one per element. */
  lemma {:induction false} SumOfOnes<T>(s: seq<T>, weight: T -> int)
    requires forall x :: weight(x) == 1
    ensures SumOf(s, weight) == |s|
  {
    if s != [] {
      SumOfOnes(s[..|s| - 1], weight);
    }
  }

  /** The reduce loop: the accumulator is updated in place, one element at a
      time. It computes the left fold, so its values add up to the sum of
      the weights and it holds one entry per distinct key. */
  method Reduce<T>(s: seq<T>, key: T -> string, weight: T -> int) returns (acc: seq<Entry>)
    ensures acc == TallyOf(s, key, weight)
    ensures Total(acc) == SumOf(s, weight)
    ensures DistinctKeys(acc) && |acc| == |Image(s, key)|
  {
    acc := [];
    var i := 0;
    while i < |s|
      invariant 0 <= i <= |s|
      invariant acc == TallyOf(s[..i], key, weight)
    {
      assert s[..i + 1][..i] == s[..i];
      acc := Bump(acc, key(s[i]), weight(s[i]));
      i := i + 1;
    }
    assert s[..|s|] == s;
    TallyTotal(s, key, weight);
    TallyKeys(s, key, weight);
    DistinctKeysCount(acc);
  }

  /** `reduce((sum, x) => sum + w(x), 0)` as the loop it is. */
  method Sum<T>(s: seq<T>, weight: T -> int) returns (total: int)
    ensures total == SumOf(s, weight)
  {
    total := 0;
    var i := 0;
    while i < |s|
      invariant 0 <= i <= |s|
      invariant total == SumOf(s[..i], weight)
    {
      assert s[..i + 1][..i] == s[..i];
      total := total + weight(s[i]);
      i := i + 1;
    }
    assert s[..|s|] == s;
  }
}
