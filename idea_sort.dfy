/**
 * `project_ideas.sort(key=lambda idea: idea['name'])`: a stable sort by
 * name under Python's string order. `SortByName` is the specification (an
 * insertion sort that puts each idea after every earlier idea whose name is
 * not greater); `SortIdeas` is the loop that computes it.
 */
module IdeaSort {
  import opened StrOrder
  import opened IdeaList

  /** Ascending by name: no later idea has a name smaller than an earlier one. */
  ghost predicate Sorted(s: seq<Idea>) {
    forall i, j :: 0 <= i < j < |s| ==> !Less(s[j].name, s[i].name)
  }

  /** The ideas of `s` whose name is `n`, in their order in `s`. */
  function WithName(s: seq<Idea>, n: string): seq<Idea> {
    if |s| == 0 then []
    else (if s[0].name == n then [s[0]] else []) + WithName(s[1..], n)
  }

  /**
   * Inserts `x` into `t` just before the first idea whose name is greater
   * than `x`'s, so after every idea whose name is not greater.
   */
  function Insert(t: seq<Idea>, x: Idea): seq<Idea> {
    if t == [] then [x]
    else if Less(x.name, t[0].name) then [x] + t
    else [t[0]] + Insert(t[1..], x)
  }

  /** The stable sort by name, taking the input one idea at a time from the front. */
  function SortByName(s: seq<Idea>): seq<Idea> {
    if s == [] then [] else Insert(SortByName(s[..|s| - 1]), s[|s| - 1])
  }

  // ---- properties of Insert ----

  lemma {:induction false} InsertPermutes(t: seq<Idea>, x: Idea)
    ensures multiset(Insert(t, x)) == multiset(t) + multiset{x}
  {
    if t != [] && !Less(x.name, t[0].name) {
      InsertPermutes(t[1..], x);
      assert t == [t[0]] + t[1..];
    }
  }

  lemma SortedCons(a: Idea, r: seq<Idea>)
    requires Sorted(r)
    requires forall k :: 0 <= k < |r| ==> !Less(r[k].name, a.name)
    ensures Sorted([a] + r)
  {
    var s := [a] + r;
    forall i, j | 0 <= i < j < |s| ensures !Less(s[j].name, s[i].name) {
      if i > 0 {
        assert s[i] == r[i - 1] && s[j] == r[j - 1];
      }
    }
  }

  lemma {:induction false} InsertSorted(t: seq<Idea>, x: Idea)
    requires Sorted(t)
    ensures Sorted(Insert(t, x))
  {
    if t == [] {
    } else if Less(x.name, t[0].name) {
      forall k | 0 <= k < |t| ensures !Less(t[k].name, x.name) {
        if k > 0 {
          NotLessIsLessEq(t[0].name, t[k].name);
          if Less(t[0].name, t[k].name) {
            LessTransitive(x.name, t[0].name, t[k].name);
          }
        }
        LessAsymmetric(x.name, t[k].name);
      }
      SortedCons(x, t);
    } else {
      var r := Insert(t[1..], x);
      InsertSorted(t[1..], x);
      InsertPermutes(t[1..], x);
      forall k | 0 <= k < |r| ensures !Less(r[k].name, t[0].name) {
        assert r[k] in multiset(r);
        if r[k] != x {
          assert r[k] in multiset(t[1..]);
          var m :| 0 <= m < |t[1..]| && t[1..][m] == r[k];
          assert t[m + 1] == r[k];
        }
      }
      SortedCons(t[0], r);
    }
  }

  lemma {:induction false} WithNameAppend(a: seq<Idea>, b: seq<Idea>, n: string)
    ensures WithName(a + b, n) == WithName(a, n) + WithName(b, n)
  {
    if a == [] {
      assert a + b == b;
    } else {
      var head := if a[0].name == n then [a[0]] else [];
      assert (a + b)[0] == a[0];
      assert (a + b)[1..] == a[1..] + b;
      calc {
        WithName(a + b, n);
        head + WithName(a[1..] + b, n);
        { WithNameAppend(a[1..], b, n); }
        head + (WithName(a[1..], n) + WithName(b, n));
        WithName(a, n) + WithName(b, n);
      }
    }
  }

  /** In a sorted list whose first name is above `n`, no idea is named `n`. */
  lemma {:induction false} NoneNamedBelowHead(t: seq<Idea>, n: string)
    requires Sorted(t) && t != [] && Less(n, t[0].name)
    ensures WithName(t, n) == []
  {
    LessIrreflexive(n);
    if |t| > 1 {
      NotLessIsLessEq(t[0].name, t[1].name);
      if Less(t[0].name, t[1].name) {
        LessTransitive(n, t[0].name, t[1].name);
      }
      NoneNamedBelowHead(t[1..], n);
    }
  }

  /** Inserting `x` puts it after every idea that shares its name. */
  lemma {:induction false} InsertWithName(t: seq<Idea>, x: Idea, n: string)
    requires Sorted(t)
    ensures WithName(Insert(t, x), n) == WithName(t, n) + WithName([x], n)
  {
    if t == [] {
    } else if Less(x.name, t[0].name) {
      WithNameAppend([x], t, n);
      if x.name == n {
        NoneNamedBelowHead(t, n);
      }
    } else {
      InsertWithName(t[1..], x, n);
      WithNameAppend([t[0]], Insert(t[1..], x), n);
      WithNameAppend([t[0]], t[1..], n);
      assert [t[0]] + t[1..] == t;
    }
  }

  /** Where `Insert` places `x`: at the first position whose name is greater. */
  lemma {:induction false} InsertSplits(t: seq<Idea>, x: Idea, p: nat)
    requires p <= |t|
    requires forall q :: 0 <= q < p ==> !Less(x.name, t[q].name)
    requires p == |t| || Less(x.name, t[p].name)
    ensures Insert(t, x) == t[..p] + [x] + t[p..]
  {
    if p > 0 {
      InsertSplits(t[1..], x, p - 1);
      assert t[..p] == [t[0]] + t[1..][..p - 1];
    }
  }

  // ---- properties of SortByName ----

  /** After the sort the list is ascending by name. */
  lemma {:induction false} SortByNameSorted(s: seq<Idea>)
    ensures Sorted(SortByName(s))
  {
    if s != [] {
      SortByNameSorted(s[..|s| - 1]);
      InsertSorted(SortByName(s[..|s| - 1]), s[|s| - 1]);
    }
  }

  /** The sort is a permutation: it neither loses nor duplicates an idea. */
  lemma {:induction false} SortByNamePermutes(s: seq<Idea>)
    ensures multiset(SortByName(s)) == multiset(s)
  {
    if s != [] {
      SortByNamePermutes(s[..|s| - 1]);
      InsertPermutes(SortByName(s[..|s| - 1]), s[|s| - 1]);
      assert s == s[..|s| - 1] + [s[|s| - 1]];
      assert multiset(s) == multiset(s[..|s| - 1]) + multiset{s[|s| - 1]};
    }
  }

  /** The sort is stable: ideas with equal names keep their relative order. */
  lemma {:induction false} SortByNameStable(s: seq<Idea>, n: string)
    ensures WithName(SortByName(s), n) == WithName(s, n)
  {
    if s != [] {
      var init, last := s[..|s| - 1], s[|s| - 1];
      SortByNameStable(init, n);
      SortByNameSorted(init);
      InsertWithName(SortByName(init), last, n);
      assert s == init + [last];
      WithNameAppend(init, [last], n);
    }
  }

  /** Sorting a list that is already ascending by name changes nothing. */
  lemma {:induction false} SortByNameOfSorted(s: seq<Idea>)
    requires Sorted(s)
    ensures SortByName(s) == s
  {
    if s != [] {
      var init, last := s[..|s| - 1], s[|s| - 1];
      SortByNameOfSorted(init);
      forall q | 0 <= q < |init| ensures !Less(last.name, init[q].name) {
      }
      InsertSplits(init, last, |init|);
      assert s == init + [last];
    }
  }

  /**
   * A list is ascending by name exactly when sorting it changes nothing;
   * in particular sorting twice is the same as sorting once.
   */
  lemma SortedIffFixedPoint(s: seq<Idea>)
    ensures Sorted(s) <==> SortByName(s) == s
    ensures SortByName(SortByName(s)) == SortByName(s)
  {
    SortByNameSorted(s);
    SortByNameOfSorted(SortByName(s));
    if Sorted(s) {
      SortByNameOfSorted(s);
    }
  }

  /**
   * The sort orders the list the way a stable sort must, and that pins the
   * result down: any list that is ascending by name and keeps each name's
   * ideas in their input order IS `SortByName(s)`.
   */
  lemma {:induction false} StableSortIsUnique(s: seq<Idea>, r: seq<Idea>)
    requires Sorted(r)
    requires forall n :: WithName(r, n) == WithName(s, n)
    ensures r == SortByName(s)
  {
    var t := SortByName(s);
    SortByNameSorted(s);
    forall n ensures WithName(r, n) == WithName(t, n) {
      SortByNameStable(s, n);
    }
    SortedSameGroupsEqual(r, t);
  }

  /** Two ascending lists with the same ideas under every name are equal. */
  lemma {:induction false} SortedSameGroupsEqual(r: seq<Idea>, t: seq<Idea>)
    requires Sorted(r) && Sorted(t)
    requires forall n :: WithName(r, n) == WithName(t, n)
    ensures r == t
    decreases |r| + |t|
  {
    if r == [] && t == [] {
    } else if r == [] || t == [] {
      var u := if r == [] then t else r;
      HeadHasGroup(u);
      assert false;
    } else {
      // The heads have the same name: each head's name is the least name in its list.
      assert WithName(r, t[0].name) == WithName(t, t[0].name);
      assert WithName(t, r[0].name) == WithName(r, r[0].name);
      HeadNameIsLeast(r, t);
      HeadNameIsLeast(t, r);
      LessTotal(r[0].name, t[0].name);
      var n := r[0].name;
      assert t[0].name == n;
      var wr, wt := WithName(r, n), WithName(t, n);
      assert wr == wt;
      assert wr[0] == r[0] && wt[0] == t[0];
      forall m ensures WithName(r[1..], m) == WithName(t[1..], m) {
        var head := if n == m then [r[0]] else [];
        assert WithName(r, m) == head + WithName(r[1..], m);
        assert WithName(t, m) == head + WithName(t[1..], m);
        assert WithName(r, m) == WithName(t, m);
        assert WithName(r[1..], m) == WithName(r, m)[|head|..];
        assert WithName(t[1..], m) == WithName(t, m)[|head|..];
      }
      SortedSameGroupsEqual(r[1..], t[1..]);
      assert r == [r[0]] + r[1..] && t == [t[0]] + t[1..];
    }
  }

  /** Every name in `t` occurs in `r`, so `r`'s head name is no greater than `t`'s. */
  lemma HeadNameIsLeast(r: seq<Idea>, t: seq<Idea>)
    requires Sorted(r) && r != [] && t != []
    requires WithName(r, t[0].name) == WithName(t, t[0].name)
    ensures !Less(t[0].name, r[0].name)
  {
    var n := t[0].name;
    assert WithName(t, n) == [t[0]] + WithName(t[1..], n);
    var k := NamedIndex(r, n);
    if k == 0 {
      LessIrreflexive(n);
    } else {
      assert !Less(r[k].name, r[0].name);
    }
  }

  lemma HeadHasGroup(u: seq<Idea>)
    ensures |u| > 0 ==> WithName(u, u[0].name) != []
  {
  }

  /** An idea named `n` exists wherever `WithName` is non-empty. */
  lemma {:induction false} NamedIndex(r: seq<Idea>, n: string) returns (k: nat)
    requires WithName(r, n) != []
    ensures k < |r| && r[k].name == n
  {
    if r[0].name == n {
      k := 0;
    } else {
      k := NamedIndex(r[1..], n);
      k := k + 1;
    }
  }

  /** Removing one idea from an ascending list leaves it ascending, so a delete needs no reordering. */
  lemma RemoveAtKeepsOrder(s: seq<Idea>, i: nat)
    requires Sorted(s) && i < |s|
    ensures SortByName(RemoveAt(s, i)) == RemoveAt(s, i)
  {
    var r := RemoveAt(s, i);
    forall a, b | 0 <= a < b < |r| ensures !Less(r[b].name, r[a].name) {
      var a', b' := if a < i then a else a + 1, if b < i then b else b + 1;
      assert r[a] == s[a'] && r[b] == s[b'];
    }
    SortByNameOfSorted(r);
  }

  /**
   * Replacing idea `i` of an ascending list by one with the same name (a
   * feature edit) leaves the list as the sort finds it, so the idea stays
   * at index `i` and at row `i` of the rebuilt tree.
   */
  lemma SameNameKeepsOrder(s: seq<Idea>, i: nat, idea: Idea)
    requires Sorted(s) && i < |s| && idea.name == s[i].name
    ensures SortByName(s[i := idea]) == s[i := idea]
  {
    var t := s[i := idea];
    assert forall k :: 0 <= k < |t| ==> t[k].name == s[k].name;
    SortByNameOfSorted(t);
  }

  /**
   * The sort itself: insertion of each idea in input order, the insertion
   * point found by a linear scan for the first greater name.
   */
  method SortIdeas(s: seq<Idea>) returns (r: seq<Idea>)
    ensures r == SortByName(s)
    ensures Sorted(r) && multiset(r) == multiset(s)
  {
    r := [];
    var k := 0;
    while k < |s|
      invariant 0 <= k <= |s|
      invariant r == SortByName(s[..k])
    {
      var x := s[k];
      var p := 0;
      while p < |r| && !Less(x.name, r[p].name)
        invariant 0 <= p <= |r|
        invariant forall q :: 0 <= q < p ==> !Less(x.name, r[q].name)
      {
        p := p + 1;
      }
      InsertSplits(r, x, p);
      r := r[..p] + [x] + r[p..];
      assert s[..k + 1][..k] == s[..k];
      k := k + 1;
    }
    assert s[..|s|] == s;
    SortByNameSorted(s);
    SortByNamePermutes(s);
  }
}
