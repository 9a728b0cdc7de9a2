/**
 * The histogram dictionary: an insertion-ordered map from event name to
 * count, modelled as a sequence of (name, count) entries. `Bump` is one
 * dictionary update (increment an existing key, or add it with count 1);
 * `Tally` folds it over a sequence of names. The lemmas relate the result to
 * independent definitions: the multiset of names for the counts, the set of
 * names for the keys, the first occurrence index for the order.
 */
module HistogramDict {

  datatype Entry = Entry(name: string, count: nat)

  /** The keys of a histogram, in order. */
  function Names(t: seq<Entry>): seq<string> {
    seq(|t|, i requires 0 <= i < |t| => t[i].name)
  }

  ghost predicate Distinct(s: seq<string>) {
    forall i, j :: 0 <= i < j < |s| ==> s[i] != s[j]
  }

  /** Adds one occurrence of `x`: increments its entry, or appends a new entry with count 1. */
  function Bump(t: seq<Entry>, x: string): seq<Entry> {
    if t == [] then [Entry(x, 1)]
    else if t[0].name == x then [Entry(x, t[0].count + 1)] + t[1..]
    else [t[0]] + Bump(t[1..], x)
  }

  /** The histogram of `s`: every name of `s` counted, keys in the order the loop meets them. */
  function Tally(s: seq<string>): seq<Entry>
    decreases |s|
  {
    if s == [] then [] else Bump(Tally(s[..|s| - 1]), s[|s| - 1])
  }

  /** The sum of the counts. */
  function Total(t: seq<Entry>): nat {
    if t == [] then 0 else t[0].count + Total(t[1..])
  }

  /** The index of the first occurrence of `x` in `s`, or |s| when there is none. */
  function FirstIndex(s: seq<string>, x: string): (k: nat)
    ensures k <= |s| && (k < |s| <==> x in s)
    ensures k < |s| ==> s[k] == x
    ensures forall j :: 0 <= j < k ==> s[j] != x
    decreases |s|
  {
    if s == [] then 0
    else if s[0] == x then 0
    else 1 + FirstIndex(s[1..], x)
  }

  /** Looks `x` up among the keys: the index of its entry, or |t| when it is absent. */
  method FindEntry(t: seq<Entry>, x: string) returns (k: nat)
    ensures k <= |t|
    ensures k < |t| ==> t[k].name == x
    ensures forall j :: 0 <= j < k ==> t[j].name != x
  {
    k := 0;
    while k < |t| && t[k].name != x
      invariant k <= |t|
      invariant forall j :: 0 <= j < k ==> t[j].name != x
    {
      k := k + 1;
    }
  }

  /** Incrementing an existing key changes its entry and nothing else. */
  lemma {:induction false} BumpHit(t: seq<Entry>, x: string, k: nat)
    requires k < |t| && t[k].name == x
    requires forall j :: 0 <= j < k ==> t[j].name != x
    ensures Bump(t, x) == t[k := Entry(x, t[k].count + 1)]
  {
    if k > 0 {
      BumpHit(t[1..], x, k - 1);
      assert [t[0]] + t[1..][k - 1 := Entry(x, t[k].count + 1)] == t[k := Entry(x, t[k].count + 1)];
    }
  }

  /** A new key is appended at the end with count 1. */
  lemma {:induction false} BumpMiss(t: seq<Entry>, x: string)
    requires forall j :: 0 <= j < |t| ==> t[j].name != x
    ensures Bump(t, x) == t + [Entry(x, 1)]
  {
    if t != [] {
      BumpMiss(t[1..], x);
      assert [t[0]] + (t[1..] + [Entry(x, 1)]) == t + [Entry(x, 1)];
    }
  }

  /** One more name is one more dictionary update. */
  lemma TallySnoc(s: seq<string>, x: string)
    ensures Tally(s + [x]) == Bump(Tally(s), x)
  {
    assert (s + [x])[..|s|] == s;
  }

  /** The count recorded for `y`, or 0 when `y` is not a key. */
  function Lookup(t: seq<Entry>, y: string): nat {
    if t == [] then 0
    else if t[0].name == y then t[0].count
    else Lookup(t[1..], y)
  }

  /** An update adds one to the count of its own name and leaves every other count alone. */
  lemma {:induction false} BumpLookup(t: seq<Entry>, x: string, y: string)
    ensures Lookup(Bump(t, x), y) == Lookup(t, y) + (if y == x then 1 else 0)
  {
    if t != [] && t[0].name != x {
      BumpLookup(t[1..], x, y);
      assert Bump(t, x)[1..] == Bump(t[1..], x);
    }
  }

  /** An update keeps the keys, or appends its name when it is new. */
  lemma {:induction false} BumpNames(t: seq<Entry>, x: string)
    ensures Names(Bump(t, x)) == if x in Names(t) then Names(t) else Names(t) + [x]
  {
    if t != [] {
      BumpNames(t[1..], x);
      assert Names(t) == [t[0].name] + Names(t[1..]);
      if t[0].name == x {
        assert Names(Bump(t, x)) == Names(t);
      } else {
        assert Names(Bump(t, x)) == [t[0].name] + Names(Bump(t[1..], x));
      }
    }
  }

  lemma {:induction false} LookupAt(t: seq<Entry>, i: nat)
    requires i < |t| && Distinct(Names(t))
    ensures Lookup(t, t[i].name) == t[i].count
  {
    if i > 0 {
      assert Names(t)[0] != Names(t)[i];
      assert Names(t[1..]) == Names(t)[1..];
      LookupAt(t[1..], i - 1);
    }
  }

  /**
   * The keys are distinct, they are exactly the names that occur, and the
   * count of every name is its number of occurrences (0 for a name that
   * never occurs).
   */
  lemma {:induction false} TallyCounts(s: seq<string>)
    ensures Distinct(Names(Tally(s)))
    ensures forall x :: x in Names(Tally(s)) <==> x in s
    ensures forall y :: Lookup(Tally(s), y) == multiset(s)[y]
    decreases |s|
  {
    if s != [] {
      var p, x := s[..|s| - 1], s[|s| - 1];
      assert s == p + [x];
      TallyCounts(p);
      TallySnoc(p, x);
      BumpNames(Tally(p), x);
      forall y ensures Lookup(Tally(s), y) == multiset(s)[y] {
        BumpLookup(Tally(p), x, y);
      }
    }
  }

  /** Each entry's count is the number of occurrences of its name, and so at least 1. */
  lemma TallyEntries(s: seq<string>)
    ensures forall i :: 0 <= i < |Tally(s)| ==>
      Tally(s)[i].count == multiset(s)[Tally(s)[i].name] >= 1
  {
    TallyCounts(s);
    forall i | 0 <= i < |Tally(s)|
      ensures Tally(s)[i].count == multiset(s)[Tally(s)[i].name] >= 1
    {
      assert Names(Tally(s))[i] == Tally(s)[i].name;
      assert Tally(s)[i].name in s;
      LookupAt(Tally(s), i);
    }
  }

  lemma {:induction false} TotalBump(t: seq<Entry>, x: string)
    ensures Total(Bump(t, x)) == Total(t) + 1
  {
    if t != [] && t[0].name != x {
      TotalBump(t[1..], x);
      assert Bump(t, x)[1..] == Bump(t[1..], x);
    }
  }

  /** The counts add up to the number of names. */
  lemma {:induction false} TallyTotal(s: seq<string>)
    ensures Total(Tally(s)) == |s|
    decreases |s|
  {
    if s != [] {
      var p, x := s[..|s| - 1], s[|s| - 1];
      TallyTotal(p);
      TotalBump(Tally(p), x);
    }
  }

  lemma FirstIndexSnoc(s: seq<string>, y: string, x: string)
    requires x in s
    ensures FirstIndex(s + [y], x) == FirstIndex(s, x)
  {
    var k := FirstIndex(s, x);
    var k' := FirstIndex(s + [y], x);
    assert (s + [y])[k] == x;
    if k' < k {
      assert s[k'] == x;
    }
  }

  /** The names of `n` occur in `s`, in the order of their first occurrences. */
  ghost predicate FirstSeenOrder(s: seq<string>, n: seq<string>) {
    forall i, j :: 0 <= i < j < |n| ==> FirstIndex(s, n[i]) < FirstIndex(s, n[j]) < |s|
  }

  /** Appending `x` to `s` keeps the order, and puts a new name after all the others. */
  lemma FirstSeenOrderSnoc(s: seq<string>, n: seq<string>, x: string)
    requires FirstSeenOrder(s, n) && (forall y :: y in n <==> y in s)
    ensures FirstSeenOrder(s + [x], if x in n then n else n + [x])
  {
    forall i | 0 <= i < |n|
      ensures FirstIndex(s + [x], n[i]) == FirstIndex(s, n[i]) < |s|
    {
      FirstIndexSnoc(s, x, n[i]);
    }
    if x !in n {
      assert FirstIndex(s + [x], x) == |s|;
    }
  }

  /** The keys appear in the order in which their names first occur in `s`. */
  lemma {:induction false} TallyFirstSeen(s: seq<string>)
    ensures FirstSeenOrder(s, Names(Tally(s)))
    decreases |s|
  {
    if s != [] {
      var p, x := s[..|s| - 1], s[|s| - 1];
      assert s == p + [x];
      TallyFirstSeen(p);
      TallyCounts(p);
      TallySnoc(p, x);
      BumpNames(Tally(p), x);
      FirstSeenOrderSnoc(p, Names(Tally(p)), x);
    }
  }
}
