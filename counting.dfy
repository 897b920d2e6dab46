/**
 * Frequency counting as the client does it: a `defaultdict(int)` whose keys keep
 * their insertion order, and Python's `max`, which returns the first maximal element.
 */
module Counting {

  /** Number of occurrences of `x` in `s`. */
  function Count(s: seq<string>, x: string): nat {
    if s == [] then 0
    else Count(s[..|s| - 1], x) + (if s[|s| - 1] == x then 1 else 0)
  }

  /** Position of the first occurrence of `x` in `s`. */
  function IndexOf(s: seq<string>, x: string): (i: nat)
    requires x in s
    ensures i < |s| && s[i] == x
    ensures forall j :: 0 <= j < i ==> s[j] != x
  {
    if s[0] == x then 0 else 1 + IndexOf(s[1..], x)
  }

  /**
   * A `defaultdict(int)` counter: `keys` in insertion order and the count of each.
   */
  datatype Tally = Tally(keys: seq<string>, counts: map<string, nat>) {

    /** `counter[name] += 1`: a new name is inserted last with count 1. */
    function Add(name: string): Tally {
      if name in counts then Tally(keys, counts[name := counts[name] + 1])
      else Tally(keys + [name], counts[name := 1])
    }

    /** The count of a name; 0 for a name never added. */
    function Get(name: string): nat {
      if name in counts then counts[name] else 0
    }

    /** `counter.values()`, in key order. */
    function Scores(): (r: seq<int>)
      ensures |r| == |keys|
      ensures forall i :: 0 <= i < |keys| ==> r[i] == Get(keys[i])
    {
      seq(|keys|, i requires 0 <= i < |keys| => Get(keys[i]))
    }
  }

  const EmptyTally := Tally([], map[])

  /** The counter after adding every element of `s`, in order. */
  ghost function TallyOf(s: seq<string>): Tally {
    if s == [] then EmptyTally else TallyOf(s[..|s| - 1]).Add(s[|s| - 1])
  }

  lemma TallyOfSnoc(s: seq<string>, x: string)
    ensures TallyOf(s + [x]) == TallyOf(s).Add(x)
  {
    assert (s + [x])[..|s|] == s;
  }

  /**
   * The counter holds exactly the elements of `s`, each key once, each with its
   * number of occurrences.
   */
  lemma {:induction false} TallyOfCounts(s: seq<string>)
    ensures var t := TallyOf(s);
      (forall x :: x in t.counts <==> x in s)
      && (forall x :: x in t.keys <==> x in s)
      && (forall x :: t.Get(x) == Count(s, x))
      && (forall i, j :: 0 <= i < j < |t.keys| ==> t.keys[i] != t.keys[j])
  {
    if s != [] {
      var p, x := s[..|s| - 1], s[|s| - 1];
      assert s == p + [x];
      TallyOfCounts(p);
      forall y ensures y in s <==> y in p || y == x {
      }
    }
  }

  /** `keys` are elements of `s`, listed in the order of their first occurrence. */
  predicate FirstOccurrenceOrder(keys: seq<string>, s: seq<string>) {
    forall i, j :: 0 <= i < j < |keys| ==>
      keys[i] in s && keys[j] in s && IndexOf(s, keys[i]) < IndexOf(s, keys[j])
  }

  /** Appending to `s` does not move an earlier first occurrence. */
  lemma IndexOfSnoc(p: seq<string>, x: string, y: string)
    requires y in p
    ensures y in p + [x] && IndexOf(p + [x], y) == IndexOf(p, y)
  {
    var i, i' := IndexOf(p + [x], y), IndexOf(p, y);
    assert (p + [x])[i'] == y;
  }

  /** A new element's first occurrence is the appended position. */
  lemma IndexOfSnocNew(p: seq<string>, x: string)
    requires x !in p
    ensures IndexOf(p + [x], x) == |p|
  {
    assert (p + [x])[|p|] == x;
  }

  lemma OrderSnoc(keys: seq<string>, p: seq<string>, x: string)
    requires FirstOccurrenceOrder(keys, p)
    requires forall k :: k in keys <==> k in p
    ensures FirstOccurrenceOrder(keys, p + [x])
    ensures x !in p ==> FirstOccurrenceOrder(keys + [x], p + [x])
  {
    var s := p + [x];
    forall i, j | 0 <= i < j < |keys|
      ensures keys[i] in s && keys[j] in s && IndexOf(s, keys[i]) < IndexOf(s, keys[j])
    {
      IndexOfSnoc(p, x, keys[i]);
      IndexOfSnoc(p, x, keys[j]);
    }
    if x !in p {
      var keys' := keys + [x];
      IndexOfSnocNew(p, x);
      forall i, j | 0 <= i < j < |keys'|
        ensures keys'[i] in s && keys'[j] in s && IndexOf(s, keys'[i]) < IndexOf(s, keys'[j])
      {
        assert keys'[i] == keys[i] && keys[i] in keys;
        IndexOfSnoc(p, x, keys[i]);
        if j < |keys| {
          assert keys'[j] == keys[j] && keys[j] in keys;
          IndexOfSnoc(p, x, keys[j]);
        }
      }
    }
  }

  /** Keys are listed in the order of their first occurrence in `s`. */
  lemma {:induction false} TallyOfKeyOrder(s: seq<string>)
    ensures var t := TallyOf(s);
      forall i, j :: 0 <= i < j < |t.keys| ==>
        t.keys[i] in s && t.keys[j] in s && IndexOf(s, t.keys[i]) < IndexOf(s, t.keys[j])
  {
    if s != [] {
      var p, x := s[..|s| - 1], s[|s| - 1];
      assert s == p + [x];
      TallyOfKeyOrder(p);
      TallyOfCounts(p);
      OrderSnoc(TallyOf(p).keys, p, x);
    }
  }

  /** A non-empty `s` has a single key exactly when all its elements are equal. */
  lemma TallySingleKey(s: seq<string>)
    requires |s| > 0
    ensures |TallyOf(s).keys| == 1 <==> forall i :: 0 <= i < |s| ==> s[i] == s[0]
  {
    var t := TallyOf(s);
    TallyOfCounts(s);
    if |t.keys| == 1 {
      forall i | 0 <= i < |s| ensures s[i] == s[0] {
        assert s[i] in t.keys && s[0] in t.keys;
      }
    }
    if forall i :: 0 <= i < |s| ==> s[i] == s[0] {
      assert s[0] in s;
      forall k | k in t.keys ensures k == s[0] {
        var i :| 0 <= i < |s| && s[i] == k;
      }
      assert t.keys[0] in t.keys;
    }
  }

  /** Sum of the counts of `keys`. */
  function SumOf(keys: seq<string>, t: Tally): nat {
    if keys == [] then 0 else SumOf(keys[..|keys| - 1], t) + t.Get(keys[|keys| - 1])
  }

  lemma {:induction false} SumOfFrame(keys: seq<string>, t: Tally, u: Tally)
    requires forall k :: k in keys ==> t.Get(k) == u.Get(k)
    ensures SumOf(keys, t) == SumOf(keys, u)
  {
    if keys != [] {
      SumOfFrame(keys[..|keys| - 1], t, u);
    }
  }

  lemma {:induction false} SumOfBump(keys: seq<string>, t: Tally, u: Tally, x: string)
    requires forall i, j :: 0 <= i < j < |keys| ==> keys[i] != keys[j]
    requires x in keys
    requires u.Get(x) == t.Get(x) + 1
    requires forall k :: k != x ==> t.Get(k) == u.Get(k)
    ensures SumOf(keys, u) == SumOf(keys, t) + 1
  {
    var p, y := keys[..|keys| - 1], keys[|keys| - 1];
    assert keys == p + [y];
    if y == x {
      assert x !in p;
      SumOfFrame(p, t, u);
    } else {
      assert x in p;
      SumOfBump(p, t, u, x);
    }
  }

  /** The counts add up to the number of elements counted. */
  lemma {:induction false} TallySum(s: seq<string>)
    ensures SumOf(TallyOf(s).keys, TallyOf(s)) == |s|
  {
    if s != [] {
      var p, x := s[..|s| - 1], s[|s| - 1];
      assert s == p + [x];
      TallySum(p);
      TallyOfCounts(p);
      var t, t' := TallyOf(p), TallyOf(s);
      if x in t.counts {
        SumOfBump(t.keys, t, t', x);
      } else {
        assert t'.keys == t.keys + [x];
        assert t'.keys[..|t'.keys| - 1] == t.keys;
        SumOfFrame(t.keys, t, t');
      }
    }
  }

  /**
   * `max(range(len(xs)), key=xs.__getitem__)`: the index of the first maximal
   * element, as Python's `max` keeps the earliest of equal maxima.
   */
  function FirstArgMax(xs: seq<int>): (k: nat)
    requires |xs| > 0
    ensures k < |xs|
    ensures forall j :: 0 <= j < |xs| ==> xs[j] <= xs[k]
    ensures forall j :: 0 <= j < k ==> xs[j] < xs[k]
  {
    if |xs| == 1 then 0
    else
      var k := FirstArgMax(xs[..|xs| - 1]);
      if xs[|xs| - 1] > xs[k] then |xs| - 1 else k
  }
}
