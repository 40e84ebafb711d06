/** Python's stable `sorted(xs, key=..., reverse=...)` and `itertools.groupby(xs, key=...)`
    over point keys, with the facts every ranking in the system relies on: a stable sort
    keeps the input order inside each key, and grouping a sorted sequence yields one
    run per key, holding exactly the elements with that key. */
module Grouping {

  /** One `(key, list(group))` pair produced by `groupby`. */
  datatype Group<T> = Group(key: real, members: seq<T>)

  /** `a` may come before `b` in a sort in the given direction. */
  predicate InOrder(descending: bool, a: real, b: real)
  {
    if descending then a >= b else a <= b
  }

  /** `a` comes strictly before `b` in the given direction: it is the better key. */
  predicate StrictlyBefore(descending: bool, a: real, b: real)
  {
    if descending then a > b else a < b
  }

  /** The elements of `s` whose key is `k`, in their order in `s`. */
  function KeyFilter<T>(s: seq<T>, key: T -> real, k: real): (r: seq<T>)
    ensures |r| <= |s|
  {
    if |s| == 0 then []
    else (if key(s[0]) == k then [s[0]] else []) + KeyFilter(s[1..], key, k)
  }

  /** `KeyFilter` keeps exactly the elements with the key asked for. */
  lemma {:induction false} KeyFilterMembers<T>(s: seq<T>, key: T -> real, k: real)
    ensures forall i :: 0 <= i < |KeyFilter(s, key, k)| ==>
      KeyFilter(s, key, k)[i] in s && key(KeyFilter(s, key, k)[i]) == k
    ensures forall i :: 0 <= i < |s| && key(s[i]) == k ==> s[i] in KeyFilter(s, key, k)
  {
    if |s| > 0 {
      KeyFilterMembers(s[1..], key, k);
      assert s == [s[0]] + s[1..];
      var r := KeyFilter(s, key, k);
      var head: seq<T> := if key(s[0]) == k then [s[0]] else [];
      assert r == head + KeyFilter(s[1..], key, k);
      forall i | 0 <= i < |s| && key(s[i]) == k
        ensures s[i] in r
      {
        if i > 0 {
          assert s[i] == s[1..][i - 1];
        }
      }
    }
  }

  /** Nothing is kept when no element has the key. */
  lemma {:induction false} KeyFilterNone<T>(s: seq<T>, key: T -> real, k: real)
    requires forall i :: 0 <= i < |s| ==> key(s[i]) != k
    ensures KeyFilter(s, key, k) == []
  {
    if |s| > 0 {
      assert forall i :: 0 <= i < |s[1..]| ==> s[1..][i] == s[i + 1];
      KeyFilterNone(s[1..], key, k);
    }
  }

  /** The members of all groups, concatenated in order. */
  function Flatten<T>(gs: seq<Group<T>>): seq<T>
  {
    if |gs| == 0 then [] else gs[0].members + Flatten(gs[1..])
  }

  /** The number of members over all groups. */
  function Count<T>(gs: seq<Group<T>>): nat
  {
    if |gs| == 0 then 0 else |gs[0].members| + Count(gs[1..])
  }

  ghost predicate SortedBy<T>(s: seq<T>, key: T -> real, descending: bool)
  {
    forall i, j :: 0 <= i < j < |s| ==> InOrder(descending, key(s[i]), key(s[j]))
  }

  /** A group is non-empty and every member carries the group's key. */
  ghost predicate Uniform<T>(g: Group<T>, key: T -> real)
  {
    |g.members| > 0 && forall i :: 0 <= i < |g.members| ==> key(g.members[i]) == g.key
  }

  /** Insert `x` in front of the first element it may precede; elements with the same
      key that were already in `s` stay after it. */
  function Insert<T>(x: T, s: seq<T>, key: T -> real, descending: bool): (r: seq<T>)
    ensures multiset(r) == multiset(s) + multiset{x}
  {
    if |s| == 0 || InOrder(descending, key(x), key(s[0])) then [x] + s
    else
      assert s == [s[0]] + s[1..];
      [s[0]] + Insert(x, s[1..], key, descending)
  }

  /** Inserting into a sorted sequence keeps it sorted. */
  lemma {:induction false} InsertSorted<T>(x: T, s: seq<T>, key: T -> real, descending: bool)
    requires SortedBy(s, key, descending)
    ensures SortedBy(Insert(x, s, key, descending), key, descending)
  {
    var r := Insert(x, s, key, descending);
    if |s| == 0 || InOrder(descending, key(x), key(s[0])) {
      forall i, j | 0 <= i < j < |r|
        ensures InOrder(descending, key(r[i]), key(r[j]))
      {
        assert r[j] == s[j - 1];
        if i == 0 {
          assert j - 1 > 0 ==> InOrder(descending, key(s[0]), key(s[j - 1]));
        } else {
          assert r[i] == s[i - 1];
        }
      }
    } else {
      var tail := s[1..];
      SortedTail(s, key, descending);
      InsertSorted(x, tail, key, descending);
      var rest := Insert(x, tail, key, descending);
      assert r == [s[0]] + rest;
      forall y | y in rest
        ensures InOrder(descending, key(s[0]), key(y))
      {
        assert y in multiset(tail) + multiset{x};
        if y != x {
          var k :| 0 <= k < |tail| && tail[k] == y;
          assert tail[k] == s[k + 1];
        }
      }
      SortedCons(s[0], rest, key, descending);
    }
  }

  /** An element in order with every element of a sorted sequence can go in front. */
  lemma SortedCons<T>(h: T, s: seq<T>, key: T -> real, descending: bool)
    requires SortedBy(s, key, descending)
    requires forall y :: y in s ==> InOrder(descending, key(h), key(y))
    ensures SortedBy([h] + s, key, descending)
  {
    var r := [h] + s;
    forall i, j | 0 <= i < j < |r|
      ensures InOrder(descending, key(r[i]), key(r[j]))
    {
      assert r[j] == s[j - 1];
      if i > 0 {
        assert r[i] == s[i - 1];
      }
    }
  }

  /** `sorted(s, key=key, reverse=descending)`: a stable insertion sort. */
  function Sort<T>(s: seq<T>, key: T -> real, descending: bool): (r: seq<T>)
    ensures multiset(r) == multiset(s)
    ensures SortedBy(r, key, descending)
  {
    if |s| == 0 then []
    else
      assert s == [s[0]] + s[1..];
      InsertSorted(s[0], Sort(s[1..], key, descending), key, descending);
      Insert(s[0], Sort(s[1..], key, descending), key, descending)
  }

  /** Inserting `x` adds it to the front of its own key's elements and leaves every
      other key's elements as they were. */
  lemma {:induction false} InsertKeyFilter<T>(x: T, s: seq<T>, key: T -> real, descending: bool, k: real)
    requires SortedBy(s, key, descending)
    ensures KeyFilter(Insert(x, s, key, descending), key, k)
         == (if key(x) == k then [x] else []) + KeyFilter(s, key, k)
  {
    if |s| == 0 || InOrder(descending, key(x), key(s[0])) {
      assert ([x] + s)[1..] == s;
    } else {
      InsertKeyFilter(x, s[1..], key, descending, k);
      var r := [s[0]] + Insert(x, s[1..], key, descending);
      assert r[1..] == Insert(x, s[1..], key, descending);
      assert !(key(s[0]) == k && key(x) == k);
    }
  }

  /** The sort is stable: for every key, the elements with that key come out in
      their input order. */
  lemma {:induction false} SortIsStable<T>(s: seq<T>, key: T -> real, descending: bool, k: real)
    ensures KeyFilter(Sort(s, key, descending), key, k) == KeyFilter(s, key, k)
  {
    if |s| > 0 {
      SortIsStable(s[1..], key, descending, k);
      InsertKeyFilter(s[0], Sort(s[1..], key, descending), key, descending, k);
    }
  }

  /** `groupby(s, key)`: maximal runs of consecutive elements with equal keys. */
  function GroupRuns<T>(s: seq<T>, key: T -> real): (gs: seq<Group<T>>)
    ensures forall i :: 0 <= i < |gs| ==> Uniform(gs[i], key)
    ensures forall i :: 0 < i < |gs| ==> gs[i - 1].key != gs[i].key
    ensures Flatten(gs) == s
    ensures |s| > 0 <==> |gs| > 0
    ensures |s| > 0 ==> gs[0].key == key(s[0])
  {
    if |s| == 0 then []
    else
      var rest := GroupRuns(s[1..], key);
      assert s == [s[0]] + s[1..];
      if |rest| > 0 && rest[0].key == key(s[0]) then
        var g := Group(key(s[0]), [s[0]] + rest[0].members);
        assert Flatten([g] + rest[1..]) == g.members + Flatten(rest[1..]);
        assert ([g] + rest[1..])[1..] == rest[1..];
        [g] + rest[1..]
      else
        var g := Group(key(s[0]), [s[0]]);
        assert ([g] + rest)[1..] == rest;
        [g] + rest
  }

  /** Group keys strictly improve in the sort direction. */
  ghost predicate StrictlyOrdered<T>(gs: seq<Group<T>>, descending: bool)
  {
    forall i, j :: 0 <= i < j < |gs| ==> StrictlyBefore(descending, gs[i].key, gs[j].key)
  }

  /** Each group holds exactly the elements of `s` with its key, in their order in `s`. */
  ghost predicate WholeKeys<T>(gs: seq<Group<T>>, s: seq<T>, key: T -> real)
  {
    forall i :: 0 <= i < |gs| ==> gs[i].members == KeyFilter(s, key, gs[i].key)
  }

  /** A suffix of a sorted sequence is sorted. */
  lemma SortedTail<T>(s: seq<T>, key: T -> real, descending: bool)
    requires SortedBy(s, key, descending) && |s| > 0
    ensures SortedBy(s[1..], key, descending)
  {
    var tail := s[1..];
    forall i, j | 0 <= i < j < |tail|
      ensures InOrder(descending, key(tail[i]), key(tail[j]))
    {
      assert tail[i] == s[i + 1] && tail[j] == s[j + 1];
    }
  }

  /** In a sorted sequence whose second element has a different key from the first,
      no later element shares the first element's key. */
  lemma FirstKeyAlone<T>(s: seq<T>, key: T -> real, descending: bool)
    requires SortedBy(s, key, descending) && |s| > 1 && key(s[1]) != key(s[0])
    ensures KeyFilter(s[1..], key, key(s[0])) == []
  {
    var tail := s[1..];
    var k0 := key(s[0]);
    forall j | 0 <= j < |tail|
      ensures key(tail[j]) != k0
    {
      assert tail[j] == s[j + 1];
      assert InOrder(descending, key(s[0]), key(s[1]));
      assert InOrder(descending, key(s[1]), key(s[j + 1])) by {
        if j > 0 {
          assert SortedBy(s, key, descending);
        }
      }
    }
    KeyFilterNone(tail, key, k0);
  }

  /** Grouping a sorted sequence gives groups whose keys strictly improve in the sort
      direction, each holding every element of its key: no key is split over two groups. */
  lemma {:induction false} GroupRunsOfSorted<T>(s: seq<T>, key: T -> real, descending: bool)
    requires SortedBy(s, key, descending)
    ensures StrictlyOrdered(GroupRuns(s, key), descending)
    ensures WholeKeys(GroupRuns(s, key), s, key)
  {
    if |s| > 0 {
      var tail := s[1..];
      SortedTail(s, key, descending);
      GroupRunsOfSorted(tail, key, descending);
      var rest := GroupRuns(tail, key);
      var k0 := key(s[0]);
      assert KeyFilter(s, key, k0) == [s[0]] + KeyFilter(tail, key, k0);
      if |rest| > 0 && rest[0].key == k0 {
        MergedRunWhole(s, key, descending);
      } else {
        if |rest| > 0 {
          assert rest[0].key == key(tail[0]) == key(s[1]);
          FirstKeyAlone(s, key, descending);
        }
        NewRunWhole(s, key, descending);
      }
    }
  }

  /** The inductive step of `GroupRunsOfSorted` when the first element joins the
      first run of the rest. */
  lemma MergedRunWhole<T>(s: seq<T>, key: T -> real, descending: bool)
    requires SortedBy(s, key, descending) && |s| > 0
    requires StrictlyOrdered(GroupRuns(s[1..], key), descending)
    requires WholeKeys(GroupRuns(s[1..], key), s[1..], key)
    requires |GroupRuns(s[1..], key)| > 0 && GroupRuns(s[1..], key)[0].key == key(s[0])
    ensures StrictlyOrdered(GroupRuns(s, key), descending)
    ensures WholeKeys(GroupRuns(s, key), s, key)
  {
    var tail := s[1..];
    var rest := GroupRuns(tail, key);
    var gs := GroupRuns(s, key);
    var k0 := key(s[0]);
    assert gs == [Group(k0, [s[0]] + rest[0].members)] + rest[1..];
    assert KeyFilter(s, key, k0) == [s[0]] + KeyFilter(tail, key, k0);
    forall i | 0 < i < |gs|
      ensures gs[i].members == KeyFilter(s, key, gs[i].key)
    {
      assert gs[i] == rest[i];
      assert StrictlyBefore(descending, rest[0].key, rest[i].key);
    }
    OrderedNewHead(Group(k0, [s[0]] + rest[0].members), rest, descending);
  }

  /** The inductive step of `GroupRunsOfSorted` when the first element starts a run
      of its own. */
  lemma NewRunWhole<T>(s: seq<T>, key: T -> real, descending: bool)
    requires SortedBy(s, key, descending) && |s| > 0
    requires StrictlyOrdered(GroupRuns(s[1..], key), descending)
    requires WholeKeys(GroupRuns(s[1..], key), s[1..], key)
    requires |GroupRuns(s[1..], key)| > 0 ==> GroupRuns(s[1..], key)[0].key != key(s[0])
    requires KeyFilter(s[1..], key, key(s[0])) == []
    ensures StrictlyOrdered(GroupRuns(s, key), descending)
    ensures WholeKeys(GroupRuns(s, key), s, key)
  {
    var tail := s[1..];
    var rest := GroupRuns(tail, key);
    var gs := GroupRuns(s, key);
    var k0 := key(s[0]);
    assert gs == [Group(k0, [s[0]])] + rest;
    assert StrictlyOrdered(gs, descending) by {
      if |rest| > 0 {
        assert rest[0].key == key(tail[0]) && tail[0] == s[1];
        assert InOrder(descending, key(s[0]), key(s[1]));
      }
      OrderedPrepend(Group(k0, [s[0]]), rest, descending);
    }
    WholePrepend(s, rest, key, descending);
  }

  /** A run of the first element alone, before groups of the rest that are whole and
      strictly ordered after it, gives groups of the whole that are whole. */
  lemma WholePrepend<T>(s: seq<T>, rest: seq<Group<T>>, key: T -> real, descending: bool)
    requires |s| > 0 && StrictlyOrdered([Group(key(s[0]), [s[0]])] + rest, descending)
    requires WholeKeys(rest, s[1..], key)
    requires KeyFilter(s[1..], key, key(s[0])) == []
    ensures WholeKeys([Group(key(s[0]), [s[0]])] + rest, s, key)
  {
    var gs := [Group(key(s[0]), [s[0]])] + rest;
    assert KeyFilter(s, key, key(s[0])) == [s[0]] + KeyFilter(s[1..], key, key(s[0]));
    forall i | 0 < i < |gs|
      ensures gs[i].members == KeyFilter(s, key, gs[i].key)
    {
      assert gs[i] == rest[i - 1];
      assert StrictlyBefore(descending, gs[0].key, gs[i].key);
    }
  }

  /** A group placed before strictly ordered groups, ahead of the first of them, keeps
      them strictly ordered. */
  lemma OrderedPrepend<T>(g: Group<T>, rest: seq<Group<T>>, descending: bool)
    requires StrictlyOrdered(rest, descending)
    requires |rest| > 0 ==> StrictlyBefore(descending, g.key, rest[0].key)
    ensures StrictlyOrdered([g] + rest, descending)
  {
    var gs := [g] + rest;
    forall i, j | 0 <= i < j < |gs|
      ensures StrictlyBefore(descending, gs[i].key, gs[j].key)
    {
      assert gs[j] == rest[j - 1];
      if i > 0 {
        assert gs[i] == rest[i - 1];
      } else if j > 1 {
        assert StrictlyBefore(descending, rest[0].key, rest[j - 1].key);
      }
    }
  }

  /** Replacing the first of strictly ordered groups by one with the same key keeps them
      strictly ordered. */
  lemma OrderedNewHead<T>(g: Group<T>, rest: seq<Group<T>>, descending: bool)
    requires StrictlyOrdered(rest, descending) && |rest| > 0 && g.key == rest[0].key
    ensures StrictlyOrdered([g] + rest[1..], descending)
  {
    var gs := [g] + rest[1..];
    forall i, j | 0 <= i < j < |gs|
      ensures StrictlyBefore(descending, gs[i].key, gs[j].key)
    {
      assert gs[i].key == rest[i].key && gs[j].key == rest[j].key;
    }
  }

  /** Every element's key is the key of some group. */
  lemma {:induction false} GroupRunsCoverKeys<T>(s: seq<T>, key: T -> real, x: T)
    requires x in s
    ensures exists i :: 0 <= i < |GroupRuns(s, key)| && GroupRuns(s, key)[i].key == key(x)
  {
    var gs := GroupRuns(s, key);
    if x == s[0] {
      assert gs[0].key == key(x);
    } else {
      var tail := s[1..];
      assert x in tail by {
        var j :| 0 <= j < |s| && s[j] == x;
        assert tail[j - 1] == x;
      }
      GroupRunsCoverKeys(tail, key, x);
      var rest := GroupRuns(tail, key);
      var i :| 0 <= i < |rest| && rest[i].key == key(x);
      if |rest| > 0 && rest[0].key == key(s[0]) {
        assert gs[0].key == rest[0].key;
        if i > 0 {
          assert gs[i] == rest[i];
        }
      } else {
        assert gs[i + 1] == rest[i];
      }
    }
  }

  /** The groups' sizes add up to the length of their concatenation. */
  lemma {:induction false} CountIsFlattenLength<T>(gs: seq<Group<T>>)
    ensures Count(gs) == |Flatten(gs)|
  {
    if |gs| > 0 {
      CountIsFlattenLength(gs[1..]);
    }
  }

  /** `s[::-1]`. */
  function Reverse<T>(s: seq<T>): (r: seq<T>)
    ensures |r| == |s|
    ensures forall i :: 0 <= i < |s| ==> r[i] == s[|s| - 1 - i]
  {
    if |s| == 0 then [] else Reverse(s[1..]) + [s[0]]
  }

  /** `s[:n]` for a non-negative `n`. */
  function Take<T>(s: seq<T>, n: nat): (r: seq<T>)
    ensures |r| == if n < |s| then n else |s|
    ensures forall i :: 0 <= i < |r| ==> r[i] == s[i]
  {
    if n < |s| then s[..n] else s
  }

  /** One output line per member of `g`: its description followed by `suffix`. */
  function MemberLines<T>(g: Group<T>, describe: (T, real) -> string, suffix: string): (lines: seq<string>)
    ensures |lines| == |g.members|
    ensures forall i :: 0 <= i < |lines| ==> lines[i] == describe(g.members[i], g.key) + suffix
  {
    seq(|g.members|, i requires 0 <= i < |g.members| => describe(g.members[i], g.key) + suffix)
  }

  /** The lines for a ranking of groups, as a reference: every member of every group gets
      a line, and a member of a group of two or more is labelled with the group's rank,
      which is one more than the number of members in all earlier groups. `earlier` is
      the number of members ranked ahead of `gs`. */
  function RankedLines<T>(gs: seq<Group<T>>, earlier: nat, describe: (T, real) -> string,
                          tieLabel: nat -> string): (lines: seq<string>)
    ensures |lines| == Count(gs)
  {
    if |gs| == 0 then []
    else
      MemberLines(gs[0], describe, if |gs[0].members| > 1 then tieLabel(earlier + 1) else "")
      + RankedLines(gs[1..], earlier + |gs[0].members|, describe, tieLabel)
  }

  /** What every point-leader collector in the system keeps of the eligible players `e`,
      taken in page order: a prefix of `e` that holds all of `e` or at least `max`
      players; past the first `max`, each kept player is level with or better than the
      one before it; and the first player left out, if any, is strictly worse than the
      last one kept. */
  ghost predicate LeaderCut<T>(e: seq<T>, kept: seq<T>, max: int, descending: bool, key: T -> real)
  {
    && |kept| <= |e| && kept == e[..|kept|]
    && (|kept| >= max || |kept| == |e|)
    && (forall i :: max <= i < |kept| && 0 < i ==> InOrder(descending, key(kept[i]), key(kept[i - 1])))
    && (|kept| < |e| ==>
          0 < |kept| && |kept| >= max && !InOrder(descending, key(e[|kept|]), key(kept[|kept| - 1])))
  }

  /** On a page sorted best first, the cut never splits a tie: a player is kept exactly
      when it is among the first `max` or level with the `max`-th. */
  lemma TiesNeverSplit<T>(e: seq<T>, kept: seq<T>, max: int, descending: bool, key: T -> real)
    requires LeaderCut(e, kept, max, descending, key)
    requires SortedBy(e, key, descending)
    requires max >= 1
    ensures forall i :: 0 <= i < |e| ==> (i < |kept| <==> i < max || key(e[i]) == key(e[max - 1]))
  {
    forall i | 0 <= i < |e|
      ensures i < |kept| <==> i < max || key(e[i]) == key(e[max - 1])
    {
      if max <= i < |kept| {
        KeptLevel(e, kept, max, descending, key, i);
      } else if max <= i && |kept| <= i && key(e[i]) == key(e[max - 1]) {
        assert false;
      }
    }
  }

  /** Every player kept past the first `max` of a sorted page is level with the `max`-th. */
  lemma {:induction false} KeptLevel<T>(e: seq<T>, kept: seq<T>, max: int, descending: bool, key: T -> real, i: int)
    requires LeaderCut(e, kept, max, descending, key)
    requires SortedBy(e, key, descending)
    requires 1 <= max <= i < |kept|
    ensures key(e[i]) == key(e[max - 1])
    decreases i
  {
    assert kept[i] == e[i] && kept[i - 1] == e[i - 1];
    assert InOrder(descending, key(e[i - 1]), key(e[i]));
    if i > max {
      KeptLevel(e, kept, max, descending, key, i - 1);
    }
  }

  /** Some group has key `k`. */
  ghost predicate KeyKept<T>(gs: seq<Group<T>>, k: real)
  {
    exists j :: 0 <= j < |gs| && gs[j].key == k
  }

  /** No element occurs twice. */
  predicate Distinct<T(==)>(s: seq<T>)
  {
    forall i, j :: 0 <= i < j < |s| ==> s[i] != s[j]
  }

  /** A sequence without repeats holds each of its elements once. */
  lemma {:induction false} DistinctCounts<T>(s: seq<T>, x: T)
    requires Distinct(s)
    ensures multiset(s)[x] == if x in s then 1 else 0
  {
    if |s| > 0 {
      assert Distinct(s[1..]) by {
        forall i, j | 0 <= i < j < |s[1..]|
          ensures s[1..][i] != s[1..][j]
        {
          assert s[1..][i] == s[i + 1] && s[1..][j] == s[j + 1];
        }
      }
      DistinctCounts(s[1..], x);
      assert s == [s[0]] + s[1..];
      if x in s[1..] {
        var i :| 0 <= i < |s[1..]| && s[1..][i] == x;
        assert s[i + 1] == x;
      }
    }
  }

  /** An element found at two positions is counted at least twice. */
  lemma TwiceCounted<T>(s: seq<T>, i: int, j: int)
    requires 0 <= i < j < |s| && s[i] == s[j]
    ensures multiset(s)[s[i]] >= 2
  {
    assert s == s[..j] + s[j..];
    assert s[i] in s[..j];
    assert s[j] == s[j..][0];
  }

  /** `KeyFilter` keeps every copy of an element with the key and none of the others. */
  lemma {:induction false} KeyFilterCount<T>(s: seq<T>, key: T -> real, k: real, x: T)
    ensures multiset(KeyFilter(s, key, k))[x] == if key(x) == k then multiset(s)[x] else 0
  {
    if |s| > 0 {
      KeyFilterCount(s[1..], key, k, x);
      assert s == [s[0]] + s[1..];
    }
  }

  /** The groups of distinct keys that each hold all elements of their key hold, together,
      every copy of the elements whose key is kept and nothing else. */
  lemma {:induction false} FlattenCount<T>(gs: seq<Group<T>>, s: seq<T>, key: T -> real, descending: bool, x: T)
    requires WholeKeys(gs, s, key) && StrictlyOrdered(gs, descending)
    ensures multiset(Flatten(gs))[x] == if KeyKept(gs, key(x)) then multiset(s)[x] else 0
  {
    if |gs| > 0 {
      var rest := gs[1..];
      assert WholeKeys(rest, s, key) by {
        forall i | 0 <= i < |rest|
          ensures rest[i].members == KeyFilter(s, key, rest[i].key)
        {
          assert rest[i] == gs[i + 1];
        }
      }
      assert StrictlyOrdered(rest, descending) by {
        forall i, j | 0 <= i < j < |rest|
          ensures StrictlyBefore(descending, rest[i].key, rest[j].key)
        {
          assert rest[i] == gs[i + 1] && rest[j] == gs[j + 1];
        }
      }
      FlattenCount(rest, s, key, descending, x);
      KeyFilterCount(s, key, gs[0].key, x);
      if KeyKept(rest, key(x)) {
        var j :| 0 <= j < |rest| && rest[j].key == key(x);
        assert gs[j + 1] == rest[j];
        assert key(x) != gs[0].key;
      }
      if KeyKept(gs, key(x)) && key(x) != gs[0].key {
        var j :| 0 <= j < |gs| && gs[j].key == key(x);
        assert rest[j - 1] == gs[j];
      }
    }
  }

  /** Kept groups of a repeat-free sequence concatenate to a repeat-free sequence holding
      exactly its elements whose key is kept. */
  lemma FlattenDistinct<T>(gs: seq<Group<T>>, s: seq<T>, key: T -> real, descending: bool)
    requires Distinct(s) && WholeKeys(gs, s, key) && StrictlyOrdered(gs, descending)
    ensures Distinct(Flatten(gs))
    ensures forall i :: 0 <= i < |Flatten(gs)| ==> Flatten(gs)[i] in s && KeyKept(gs, key(Flatten(gs)[i]))
    ensures forall i :: 0 <= i < |s| && KeyKept(gs, key(s[i])) ==> s[i] in Flatten(gs)
  {
    var f := Flatten(gs);
    forall i, j | 0 <= i < j < |f|
      ensures f[i] != f[j]
    {
      if f[i] == f[j] {
        TwiceCounted(f, i, j);
        FlattenCount(gs, s, key, descending, f[i]);
        DistinctCounts(s, f[i]);
      }
    }
    forall i | 0 <= i < |f|
      ensures f[i] in s && KeyKept(gs, key(f[i]))
    {
      FlattenCount(gs, s, key, descending, f[i]);
    }
    forall i | 0 <= i < |s| && KeyKept(gs, key(s[i]))
      ensures s[i] in f
    {
      FlattenCount(gs, s, key, descending, s[i]);
    }
  }

  /** `[x for x in s if keep(x)]`. */
  function Filter<T>(s: seq<T>, keep: T -> bool): (r: seq<T>)
    ensures |r| <= |s|
    ensures forall i :: 0 <= i < |r| ==> r[i] in s && keep(r[i])
    ensures forall i :: 0 <= i < |s| && keep(s[i]) ==> s[i] in r
  {
    if |s| == 0 then []
    else (if keep(s[0]) then [s[0]] else []) + Filter(s[1..], keep)
  }

  /** Filtering a sequence without repeats leaves one without repeats. */
  lemma {:induction false} FilterDistinct<T>(s: seq<T>, keep: T -> bool)
    requires Distinct(s)
    ensures Distinct(Filter(s, keep))
  {
    if |s| > 0 {
      assert Distinct(s[1..]) by {
        forall i, j | 0 <= i < j < |s[1..]|
          ensures s[1..][i] != s[1..][j]
        {
          assert s[1..][i] == s[i + 1] && s[1..][j] == s[j + 1];
        }
      }
      FilterDistinct(s[1..], keep);
      var rest := Filter(s[1..], keep);
      if keep(s[0]) {
        forall i, j | 0 <= i < j < |[s[0]] + rest|
          ensures ([s[0]] + rest)[i] != ([s[0]] + rest)[j]
        {
          if i == 0 {
            assert ([s[0]] + rest)[j] == rest[j - 1];
            assert rest[j - 1] in rest;
          } else {
            assert ([s[0]] + rest)[i] == rest[i - 1] && ([s[0]] + rest)[j] == rest[j - 1];
          }
        }
      } else {
        assert Filter(s, keep) == rest;
      }
    }
  }
}
