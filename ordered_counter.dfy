/**
 * A counting dictionary that remembers insertion order, as Python's
 * `collections.Counter` does: a missing key reads as 0, incrementing a
 * missing key appends it at the end, and iteration follows first insertion.
 */
module OrderedCounter {
  import opened Sequences

  datatype Entry = Entry(key: string, count: nat)

  /** The entries in insertion order; keys are strings, as every key the source counts is one. */
  type Counter = seq<Entry>

  function Keys(c: Counter): seq<string> {
    seq(|c|, i requires 0 <= i < |c| => c[i].key)
  }

  /** The index of the entry for `k`, or -1 when `k` was never counted. */
  function Find(c: Counter, k: string): (i: int)
    ensures -1 <= i < |c|
    ensures 0 <= i ==> c[i].key == k
    ensures forall j :: 0 <= j < |c| && (i < 0 || j < i) ==> c[j].key != k
  {
    if c == [] then -1
    else if c[0].key == k then 0
    else
      var i := Find(c[1..], k);
      if i < 0 then -1 else i + 1
  }

  /** `counter.get(k, 0)`: the count of `k`, 0 when it is absent. */
  function Get(c: Counter, k: string): nat {
    var i := Find(c, k);
    if i < 0 then 0 else c[i].count
  }

  /** `counter[k] += 1`: bumps the count of `k` in place, or appends `k` with count 1. */
  function Add(c: Counter, k: string): Counter {
    var i := Find(c, k);
    if i < 0 then c + [Entry(k, 1)] else c[i := Entry(k, c[i].count + 1)]
  }

  /**
   * Incrementing `k` adds one to its count and to no other, keeps the key
   * order, and places a new key last.
   */
  lemma AddSpec(c: Counter, k: string)
    ensures Keys(Add(c, k)) == if k in Keys(c) then Keys(c) else Keys(c) + [k]
    ensures Get(Add(c, k), k) == Get(c, k) + 1
    ensures forall j :: j != k ==> Get(Add(c, k), j) == Get(c, j)
  {
    var i := Find(c, k);
    var r := Add(c, k);
    if i < 0 {
      FindAppend(c, Entry(k, 1));
    } else {
      FindSameKeys(c, r);
      assert Keys(c)[i] == k && Keys(r) == Keys(c);
    }
  }

  /** `Counter(ks)`: every element of `ks` counted, left to right. */
  function CountAll(ks: seq<string>): Counter {
    if ks == [] then [] else Add(CountAll(ks[..|ks| - 1]), ks[|ks| - 1])
  }

  /** The sum of all counts. */
  function Total(c: Counter): nat {
    if c == [] then 0 else Total(c[..|c| - 1]) + c[|c| - 1].count
  }

  /** The keys whose count exceeds 1, in insertion order. */
  function CommonKeys(c: Counter): seq<string> {
    if c == [] then []
    else CommonKeys(c[..|c| - 1]) + (if c[|c| - 1].count > 1 then [c[|c| - 1].key] else [])
  }

  lemma FindSameKeys(c: Counter, d: Counter)
    requires |c| == |d| && forall i :: 0 <= i < |c| ==> c[i].key == d[i].key
    ensures forall k :: Find(c, k) == Find(d, k)
  {
    forall k ensures Find(c, k) == Find(d, k) {
      var a, b := Find(c, k), Find(d, k);
      if 0 <= a { assert d[a].key == k; }
      if 0 <= b { assert c[b].key == k; }
    }
  }

  lemma FindAppend(c: Counter, e: Entry)
    ensures forall k :: Find(c + [e], k) ==
                        if 0 <= Find(c, k) then Find(c, k) else if e.key == k then |c| else -1
  {
    forall k ensures Find(c + [e], k) ==
      if 0 <= Find(c, k) then Find(c, k) else if e.key == k then |c| else -1
    {
      var a, b := Find(c, k), Find(c + [e], k);
      if 0 <= a { assert (c + [e])[a].key == k; }
      if e.key == k { assert (c + [e])[|c|].key == k; }
      if 0 <= b && b < |c| { assert c[b].key == k; }
    }
  }

  /** Counting a sequence gives each element its number of occurrences. */
  lemma {:induction false} CountAllGet(ks: seq<string>, k: string)
    ensures Get(CountAll(ks), k) == multiset(ks)[k]
  {
    if ks != [] {
      var p, x := ks[..|ks| - 1], ks[|ks| - 1];
      CountAllGet(p, k);
      AddSpec(CountAll(p), x);
      assert ks == p + [x];
    }
  }

  /** The keys of a counted sequence are its distinct elements. */
  lemma {:induction false} CountAllKeys(ks: seq<string>)
    ensures forall k :: k in Keys(CountAll(ks)) <==> k in ks
    ensures Distinct(Keys(CountAll(ks)))
  {
    if ks != [] {
      var p, x := ks[..|ks| - 1], ks[|ks| - 1];
      CountAllKeys(p);
      AddSpec(CountAll(p), x);
      assert ks == p + [x];
    }
  }

  /** Each key of a counted sequence is placed where it first occurs. */
  lemma {:induction false} CountAllKeysInOrder(ks: seq<string>)
    ensures forall k :: k in Keys(CountAll(ks)) ==> k in ks
    ensures forall i, j :: 0 <= i < j < |Keys(CountAll(ks))| ==>
              FirstIndex(ks, Keys(CountAll(ks))[i]) < FirstIndex(ks, Keys(CountAll(ks))[j])
  {
    CountAllKeys(ks);
    if ks != [] {
      var p, x := ks[..|ks| - 1], ks[|ks| - 1];
      CountAllKeysInOrder(p);
      CountAllKeys(p);
      AddSpec(CountAll(p), x);
      assert ks == p + [x];
      forall y | y in p ensures FirstIndex(ks, y) == FirstIndex(p, y) {
        FirstIndexAppend(p, [x], y);
      }
      if x !in p {
        assert FirstIndex(ks, x) == |p|;
      }
    }
  }

  lemma {:induction false} TotalUpdate(c: Counter, i: nat, e: Entry)
    requires i < |c|
    ensures Total(c[i := e]) == Total(c) - c[i].count + e.count
  {
    if i < |c| - 1 {
      assert c[i := e][..|c| - 1] == c[..|c| - 1][i := e];
      TotalUpdate(c[..|c| - 1], i, e);
    } else {
      assert c[i := e][..|c| - 1] == c[..|c| - 1];
    }
  }

  /** The counts of a counted sequence add up to its length. */
  lemma {:induction false} CountAllTotal(ks: seq<string>)
    ensures Total(CountAll(ks)) == |ks|
  {
    if ks != [] {
      var p, x := ks[..|ks| - 1], ks[|ks| - 1];
      CountAllTotal(p);
      var c := CountAll(p);
      var i := Find(c, x);
      if i < 0 {
        assert (c + [Entry(x, 1)])[..|c|] == c;
      } else {
        TotalUpdate(c, i, Entry(x, c[i].count + 1));
      }
    }
  }

  /** The common keys keep the counter's order. */
  lemma {:induction false} CommonKeysInOrder(c: Counter)
    ensures SubsequenceOf(CommonKeys(c), Keys(c))
  {
    if c != [] {
      var p, e := c[..|c| - 1], c[|c| - 1];
      CommonKeysInOrder(p);
      var kc, cc := Keys(c), CommonKeys(c);
      assert kc[..|kc| - 1] == Keys(p) && kc[|kc| - 1] == e.key;
      if e.count > 1 {
        assert cc[..|cc| - 1] == CommonKeys(p);
      } else {
        assert cc == CommonKeys(p);
      }
    }
  }

  /** In a counter with distinct keys, the common keys are exactly those counted more than once. */
  lemma {:induction false} CommonKeysMembers(c: Counter)
    requires Distinct(Keys(c))
    ensures forall k :: k in CommonKeys(c) <==> Get(c, k) > 1
  {
    if c != [] {
      var p, e := c[..|c| - 1], c[|c| - 1];
      assert c == p + [e];
      assert Keys(c) == Keys(p) + [e.key];
      assert Distinct(Keys(p)) by {
        forall i, j | 0 <= i < j < |Keys(p)| ensures Keys(p)[i] != Keys(p)[j] {
          assert Keys(c)[i] != Keys(c)[j];
        }
      }
      CommonKeysMembers(p);
      CommonKeysInOrder(p);
      SubsequenceMembers(CommonKeys(p), Keys(p));
      FindAppend(p, e);
      forall m | 0 <= m < |p| ensures p[m].key != e.key {
        assert Keys(c)[m] != Keys(c)[|p|];
      }
    }
  }
}
