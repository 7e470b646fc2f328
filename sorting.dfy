/**
 * `sort.Strings` as used on the kind list of preview/applicationset.go: an in-place sort of a
 * string array, and the sorted sequence of a set of strings that it necessarily produces.
 */
module Sorting {
  import opened Strings

  predicate Sorted(s: seq<string>)
  {
    forall i, j :: 0 <= i < j < |s| ==> LexLe(s[i], s[j])
  }

  /** Sorted without repetitions. */
  predicate StrictlySorted(s: seq<string>)
  {
    forall i, j :: 0 <= i < j < |s| ==> LexLe(s[i], s[j]) && s[i] != s[j]
  }

  /** Insertion sort by adjacent swaps. */
  method SortInPlace(a: array<string>)
    modifies a
    ensures Sorted(a[..])
    ensures multiset(a[..]) == multiset(old(a[..]))
  {
    for i := 0 to a.Length
      invariant forall p, q :: 0 <= p < q < i ==> LexLe(a[p], a[q])
      invariant multiset(a[..]) == multiset(old(a[..]))
    {
      Insert(a, i);
    }
  }

  /** One pass of the insertion sort: `a[i]` is swapped leftwards into the sorted prefix `a[..i]`. */
  method Insert(a: array<string>, i: nat)
    requires i < a.Length
    requires forall p, q :: 0 <= p < q < i ==> LexLe(a[p], a[q])
    modifies a
    ensures forall p, q :: 0 <= p < q <= i ==> LexLe(a[p], a[q])
    ensures multiset(a[..]) == multiset(old(a[..]))
  {
    var j := i;
    while 0 < j && !LexLe(a[j - 1], a[j])
      invariant 0 <= j <= i
      invariant forall p, q :: 0 <= p < q <= i && p != j && q != j ==> LexLe(a[p], a[q])
      invariant forall q :: j < q <= i ==> LexLe(a[j], a[q])
      invariant multiset(a[..]) == multiset(old(a[..]))
    {
      LexLeTotal(a[j - 1], a[j]);
      a[j - 1], a[j] := a[j], a[j - 1];
      j := j - 1;
    }
    forall p | 0 <= p < j ensures LexLe(a[p], a[j]) {
      if p < j - 1 { LexLeTransitive(a[p], a[j - 1], a[j]); }
    }
  }

  /** Two sorted sequences with the same elements, counted with multiplicity, are equal. */
  lemma {:induction false} SortedUnique(s: seq<string>, t: seq<string>)
    requires Sorted(s) && Sorted(t) && multiset(s) == multiset(t)
    ensures s == t
  {
    if |s| == 0 {
      assert |t| == |multiset(t)|;
    } else {
      SameHead(s, t);
      DropHead(s, t);
      SortedUnique(s[1..], t[1..]);
      assert s == [s[0]] + s[1..] && t == [t[0]] + t[1..];
    }
  }

  /** The first element of a sorted sequence is fixed by its multiset. */
  lemma SameHead(s: seq<string>, t: seq<string>)
    requires Sorted(s) && Sorted(t) && multiset(s) == multiset(t) && |s| > 0
    ensures |t| > 0 && s[0] == t[0]
  {
    assert s[0] in multiset(t);
    assert t[0] in multiset(s);
    var i :| 0 <= i < |s| && s[i] == t[0];
    var j :| 0 <= j < |t| && t[j] == s[0];
    LexLeReflexive(s[0]);
    LexLeReflexive(t[0]);
    assert LexLe(s[0], s[i]) && LexLe(t[0], t[j]);
    LexLeAntisymmetric(s[0], t[0]);
  }

  lemma DropHead(s: seq<string>, t: seq<string>)
    requires |s| > 0 && |t| > 0 && s[0] == t[0] && multiset(s) == multiset(t)
    ensures multiset(s[1..]) == multiset(t[1..])
  {
    assert s == [s[0]] + s[1..] && t == [t[0]] + t[1..];
    assert multiset(s) == multiset{s[0]} + multiset(s[1..]);
    assert multiset(t) == multiset{t[0]} + multiset(t[1..]);
    assert multiset(s[1..]) == multiset(s) - multiset{s[0]};
  }

  /** Every finite non-empty set of strings has a least element. */
  lemma {:induction false} HasLeast(s: set<string>)
    requires s != {}
    ensures exists m :: m in s && forall x :: x in s ==> LexLe(m, x)
    decreases |s|
  {
    var y :| y in s;
    if s == {y} {
      LexLeReflexive(y);
      assert forall x :: x in s ==> x == y;
    } else {
      var t := s - {y};
      HasLeast(t);
      var m :| m in t && forall x :: x in t ==> LexLe(m, x);
      LeastOfOneMore(s, y, m);
    }
  }

  /** If `m` is least once `y` is removed from `s`, then `m` or `y` is least in `s`. */
  lemma LeastOfOneMore(s: set<string>, y: string, m: string)
    requires y in s && m in s - {y} && forall x :: x in s - {y} ==> LexLe(m, x)
    ensures exists n :: n in s && forall x :: x in s ==> LexLe(n, x)
  {
    LexLeTotal(m, y);
    if LexLe(m, y) {
      assert forall x :: x in s ==> LexLe(m, x);
    } else {
      forall x | x in s ensures LexLe(y, x) {
        if x == y { LexLeReflexive(y); } else { LexLeTransitive(y, m, x); }
      }
      assert y in s;
    }
  }

  /** The elements of a set in ascending order, each once: what sorting the set's keys in any order gives. */
  ghost function SortedSet(s: set<string>): (r: seq<string>)
    ensures StrictlySorted(r)
    ensures multiset(r) == multiset(s)
    decreases |s|
  {
    if s == {} then []
    else
      HasLeast(s);
      var m :| m in s && forall x :: x in s ==> LexLe(m, x);
      var rest := SortedSet(s - {m});
      LeastFirst(s, m, rest);
      [m] + rest
  }

  /** Putting the least element of `s` in front of the sorted rest of `s` sorts `s`. */
  lemma LeastFirst(s: set<string>, m: string, rest: seq<string>)
    requires m in s && forall x :: x in s ==> LexLe(m, x)
    requires StrictlySorted(rest) && multiset(rest) == multiset(s - {m})
    ensures StrictlySorted([m] + rest)
    ensures multiset([m] + rest) == multiset(s)
  {
    SplitOff(s, m);
    RestAbove(s, m, rest);
    var r := [m] + rest;
    forall i, j | 0 <= i < j < |r| ensures LexLe(r[i], r[j]) && r[i] != r[j] {
      if i > 0 { assert r[i] == rest[i - 1] && r[j] == rest[j - 1]; } else { assert r[j] in rest; }
    }
  }

  lemma SplitOff(s: set<string>, m: string)
    requires m in s
    ensures multiset(s) == multiset(s - {m}) + multiset{m}
  {
    assert s == (s - {m}) + {m};
  }

  lemma RestAbove(s: set<string>, m: string, rest: seq<string>)
    requires m in s && multiset(rest) == multiset(s - {m})
    ensures forall x :: x in rest ==> x in s && x != m
  {
    forall x | x in rest ensures x in s && x != m {
      assert x in multiset(s - {m});
    }
  }
}
