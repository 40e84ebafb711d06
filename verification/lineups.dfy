/** Lineups as the all-star optimisers enumerate them: one player id per slot, drawn
    from each slot's candidate list by `itertools.product`, scored by summing the
    players' points. */
module Lineups {
  import opened Grouping

  /** `itertools.product(*options)`, in its order: the first slot varies slowest. */
  function Product(options: seq<seq<int>>): seq<seq<int>>
    decreases |options|
  {
    if |options| == 0 then [[]] else Prepend(options[0], Product(options[1..]))
  }

  /** Every head in front of every tail, heads in order, each head's tails in order. */
  function Prepend(heads: seq<int>, tails: seq<seq<int>>): seq<seq<int>>
  {
    if |heads| == 0 then []
    else seq(|tails|, i requires 0 <= i < |tails| => [heads[0]] + tails[i]) + Prepend(heads[1..], tails)
  }

  /** A lineup has one entry per slot, each from that slot's list. */
  ghost predicate InProduct(l: seq<int>, options: seq<seq<int>>)
  {
    |l| == |options| && forall i :: 0 <= i < |l| ==> l[i] in options[i]
  }

  lemma {:induction false} PrependMembers(heads: seq<int>, tails: seq<seq<int>>, l: seq<int>)
    ensures l in Prepend(heads, tails) <==> |l| > 0 && l[0] in heads && l[1..] in tails
  {
    if |heads| > 0 {
      PrependMembers(heads[1..], tails, l);
      var front := seq(|tails|, i requires 0 <= i < |tails| => [heads[0]] + tails[i]);
      assert Prepend(heads, tails) == front + Prepend(heads[1..], tails);
      if l in front {
        var i :| 0 <= i < |tails| && front[i] == l;
        assert l[1..] == tails[i];
      }
      if |l| > 0 && l[0] == heads[0] && l[1..] in tails {
        var i :| 0 <= i < |tails| && tails[i] == l[1..];
        assert front[i] == l;
      }
    }
  }

  /** The enumeration yields exactly the lineups that take one entry from every slot. */
  lemma {:induction false} ProductMembers(options: seq<seq<int>>, l: seq<int>)
    ensures l in Product(options) <==> InProduct(l, options)
    decreases |options|
  {
    if |options| > 0 {
      PrependMembers(options[0], Product(options[1..]), l);
      if |l| > 0 {
        ProductMembers(options[1..], l[1..]);
        if InProduct(l[1..], options[1..]) && l[0] in options[0] {
          forall i | 0 <= i < |l|
            ensures l[i] in options[i]
          {
            if i > 0 {
              assert l[i] == l[1..][i - 1];
            }
          }
        }
        if InProduct(l, options) {
          forall i | 0 <= i < |l[1..]|
            ensures l[1..][i] in options[1..][i]
          {
            assert l[1..][i] == l[i + 1];
          }
        }
      }
    } else if |l| == 0 {
      assert l == [];
    }
  }

  /** `frozenset(lineup)`. */
  function Members(l: seq<int>): set<int>
  {
    set i | 0 <= i < |l| :: l[i]
  }

  /** The source's test `len(frozenset(lineup)) != len(lineup)` rejects exactly the
      lineups that repeat an id. */
  lemma {:induction false} MembersCount(l: seq<int>)
    ensures |Members(l)| <= |l|
    ensures |Members(l)| == |l| <==> Distinct(l)
  {
    if |l| > 0 {
      MembersCount(l[1..]);
      assert Members(l) == {l[0]} + Members(l[1..]) by {
        forall x | x in Members(l)
          ensures x in {l[0]} + Members(l[1..])
        {
          var i :| 0 <= i < |l| && l[i] == x;
          if i > 0 {
            assert l[1..][i - 1] == x;
          }
        }
        forall x | x in Members(l[1..])
          ensures x in Members(l)
        {
          var i :| 0 <= i < |l[1..]| && l[1..][i] == x;
          assert l[i + 1] == x;
        }
      }
      if l[0] in Members(l[1..]) {
        var j :| 0 <= j < |l[1..]| && l[1..][j] == l[0];
        assert l[j + 1] == l[0];
      } else {
        if Distinct(l) {
          assert Distinct(l[1..]) by {
            forall i, j | 0 <= i < j < |l[1..]|
              ensures l[1..][i] != l[1..][j]
            {
              assert l[1..][i] == l[i + 1] && l[1..][j] == l[j + 1];
            }
          }
        }
        if Distinct(l[1..]) {
          forall i, j | 0 <= i < j < |l|
            ensures l[i] != l[j]
          {
            if i == 0 {
              assert l[j] == l[1..][j - 1];
            } else {
              assert l[i] == l[1..][i - 1] && l[j] == l[1..][j - 1];
            }
          }
        }
      }
    }
  }

  /** `sum(points(id) for id in lineup)`. */
  function Total(l: seq<int>, value: int -> real): real
  {
    if |l| == 0 then 0.0 else value(l[0]) + Total(l[1..], value)
  }

  lemma {:induction false} TotalAppend(a: seq<int>, b: seq<int>, value: int -> real)
    ensures Total(a + b, value) == Total(a, value) + Total(b, value)
  {
    if |a| > 0 {
      TotalAppend(a[1..], b, value);
      assert (a + b)[1..] == a[1..] + b;
    } else {
      assert a + b == b;
    }
  }

  /** Reordering a lineup does not change its total. */
  lemma {:induction false} TotalPermutation(a: seq<int>, b: seq<int>, value: int -> real)
    requires multiset(a) == multiset(b)
    ensures Total(a, value) == Total(b, value)
    decreases |a|
  {
    if |a| > 0 {
      assert a[0] in multiset(b);
      var j :| 0 <= j < |b| && b[j] == a[0];
      var rest := b[..j] + b[j + 1..];
      assert b == b[..j] + [b[j]] + b[j + 1..];
      assert a == [a[0]] + a[1..];
      assert multiset(b) == multiset(b[..j]) + multiset{b[j]} + multiset(b[j + 1..]);
      assert multiset(rest) == multiset(b[..j]) + multiset(b[j + 1..]);
      assert multiset(a) == multiset{a[0]} + multiset(a[1..]);
      assert multiset(a[1..]) == multiset(a) - multiset{a[0]};
      assert multiset(rest) == multiset(b) - multiset{a[0]};
      TotalPermutation(a[1..], rest, value);
      TotalAppend(b[..j] + [b[j]], b[j + 1..], value);
      TotalAppend(b[..j], [b[j]], value);
      TotalAppend(b[..j], b[j + 1..], value);
    } else {
      assert |b| == |multiset(b)| == 0;
    }
  }

  /** Two repeat-free lineups with the same members score the same, so deduplicating
      lineups by their member set loses no total. */
  lemma SameMembersSameTotal(a: seq<int>, b: seq<int>, value: int -> real)
    requires Distinct(a) && Distinct(b) && Members(a) == Members(b)
    ensures Total(a, value) == Total(b, value)
  {
    forall x
      ensures multiset(a)[x] == multiset(b)[x]
    {
      DistinctCounts(a, x);
      DistinctCounts(b, x);
      assert x in a <==> x in Members(a) by {
        if x in a {
          var i :| 0 <= i < |a| && a[i] == x;
        }
      }
      assert x in b <==> x in Members(b) by {
        if x in b {
          var i :| 0 <= i < |b| && b[i] == x;
        }
      }
    }
    assert multiset(a) == multiset(b);
    TotalPermutation(a, b, value);
  }

  /** What both all-star optimisers promise of the lineups they return: each is a
      repeat-free choice of one candidate per slot; all share one total, which is not
      negative and which no repeat-free choice beats; no two have the same members;
      every best choice with a non-negative total is represented by its member set;
      and nothing is returned when every choice totals less than zero. */
  ghost predicate Optimal(lineups: seq<seq<int>>, options: seq<seq<int>>, value: int -> real)
  {
    && (forall k :: 0 <= k < |lineups| ==> InProduct(lineups[k], options) && Distinct(lineups[k]))
    && (forall k, m :: 0 <= k < |lineups| && 0 <= m < |lineups| ==>
          Total(lineups[k], value) == Total(lineups[m], value))
    && (forall k :: 0 <= k < |lineups| ==> Total(lineups[k], value) >= 0.0)
    && (forall k, m :: 0 <= k < m < |lineups| ==> Members(lineups[k]) != Members(lineups[m]))
    && (forall k, p :: 0 <= k < |lineups| && InProduct(p, options) && Distinct(p) ==>
          Total(p, value) <= Total(lineups[k], value))
    && (forall p :: InProduct(p, options) && Distinct(p) && Total(p, value) >= 0.0
          && (forall q :: InProduct(q, options) && Distinct(q) ==> Total(q, value) <= Total(p, value))
          ==> exists k :: 0 <= k < |lineups| && Members(lineups[k]) == Members(p))
    && (|lineups| == 0 ==> forall p :: InProduct(p, options) && Distinct(p) ==> Total(p, value) < 0.0)
  }

  /** The facts a scan over the first `n` enumerated lineups keeps, in terms of the
      enumeration's indices. */
  ghost predicate ScanInvariant(ps: seq<seq<int>>, n: int, lineups: seq<seq<int>>, best: real, value: int -> real)
    requires 0 <= n <= |ps|
  {
    && best >= 0.0
    && (forall k :: 0 <= k < |lineups| ==> lineups[k] in ps && Distinct(lineups[k]) && Total(lineups[k], value) == best)
    && (forall k, m :: 0 <= k < m < |lineups| ==> Members(lineups[k]) != Members(lineups[m]))
    && (forall j :: 0 <= j < n && Distinct(ps[j]) ==> Total(ps[j], value) <= best)
    && (forall j :: 0 <= j < n && Distinct(ps[j]) && Total(ps[j], value) == best ==>
          exists k :: 0 <= k < |lineups| && Members(lineups[k]) == Members(ps[j]))
    && (|lineups| == 0 ==> best == 0.0 && forall j :: 0 <= j < n && Distinct(ps[j]) ==> Total(ps[j], value) < 0.0)
  }

  /** A finished scan of the whole enumeration meets `Optimal`. */
  lemma ScanIsOptimal(options: seq<seq<int>>, lineups: seq<seq<int>>, best: real, value: int -> real)
    requires ScanInvariant(Product(options), |Product(options)|, lineups, best, value)
    ensures Optimal(lineups, options, value)
  {
    var ps := Product(options);
    forall k | 0 <= k < |lineups|
      ensures InProduct(lineups[k], options)
    {
      ProductMembers(options, lineups[k]);
    }
    forall p | InProduct(p, options) && Distinct(p)
      ensures Total(p, value) <= best
      ensures |lineups| == 0 ==> Total(p, value) < 0.0
      ensures Total(p, value) == best ==> exists k :: 0 <= k < |lineups| && Members(lineups[k]) == Members(p)
    {
      ProductMembers(options, p);
      var j :| 0 <= j < |ps| && ps[j] == p;
    }
    forall p | InProduct(p, options) && Distinct(p) && Total(p, value) >= 0.0
          && (forall q :: InProduct(q, options) && Distinct(q) ==> Total(q, value) <= Total(p, value))
      ensures exists k :: 0 <= k < |lineups| && Members(lineups[k]) == Members(p)
    {
      if |lineups| > 0 {
        assert Total(lineups[0], value) <= Total(p, value);
      }
    }
  }

  /** An enumerated lineup that repeats an id changes nothing. */
  lemma ScanSkipRepeat(ps: seq<seq<int>>, n: int, lineups: seq<seq<int>>, best: real, value: int -> real)
    requires 0 <= n < |ps| && ScanInvariant(ps, n, lineups, best, value)
    requires !Distinct(ps[n])
    ensures ScanInvariant(ps, n + 1, lineups, best, value)
  {
  }

  /** A lineup whose member set was seen before scores what that earlier lineup scored,
      so skipping it changes nothing. */
  lemma ScanSkipSeen(ps: seq<seq<int>>, n: int, lineups: seq<seq<int>>, best: real, value: int -> real, j: int)
    requires 0 <= n < |ps| && ScanInvariant(ps, n, lineups, best, value)
    requires Distinct(ps[n]) && 0 <= j < n && Distinct(ps[j]) && Members(ps[j]) == Members(ps[n])
    ensures ScanInvariant(ps, n + 1, lineups, best, value)
  {
    SameMembersSameTotal(ps[j], ps[n], value);
  }

  /** A lineup scoring below the best so far changes nothing. */
  lemma ScanSkipLower(ps: seq<seq<int>>, n: int, lineups: seq<seq<int>>, best: real, value: int -> real)
    requires 0 <= n < |ps| && ScanInvariant(ps, n, lineups, best, value)
    requires Distinct(ps[n]) && Total(ps[n], value) < best
    ensures ScanInvariant(ps, n + 1, lineups, best, value)
  {
  }

  /** A best-scoring lineup whose member set is already kept changes nothing. */
  lemma ScanSkipKept(ps: seq<seq<int>>, n: int, lineups: seq<seq<int>>, best: real, value: int -> real, k: int)
    requires 0 <= n < |ps| && ScanInvariant(ps, n, lineups, best, value)
    requires 0 <= k < |lineups| && Members(lineups[k]) == Members(ps[n])
    ensures ScanInvariant(ps, n + 1, lineups, best, value)
  {
    if Distinct(ps[n]) {
      SameMembersSameTotal(lineups[k], ps[n], value);
    }
  }

  /** A new member set scoring the best so far is appended. */
  lemma ScanAppendTie(ps: seq<seq<int>>, n: int, lineups: seq<seq<int>>, best: real, value: int -> real)
    requires 0 <= n < |ps| && ScanInvariant(ps, n, lineups, best, value)
    requires Distinct(ps[n]) && Total(ps[n], value) == best
    requires forall k :: 0 <= k < |lineups| ==> Members(lineups[k]) != Members(ps[n])
    ensures ScanInvariant(ps, n + 1, lineups + [ps[n]], best, value)
  {
    var next := lineups + [ps[n]];
    forall j | 0 <= j < n + 1 && Distinct(ps[j]) && Total(ps[j], value) == best
      ensures exists k :: 0 <= k < |next| && Members(next[k]) == Members(ps[j])
    {
      if j == n {
        assert next[|lineups|] == ps[n];
      } else {
        var k :| 0 <= k < |lineups| && Members(lineups[k]) == Members(ps[j]);
        assert next[k] == lineups[k];
      }
    }
  }

  /** A lineup beating the best so far replaces every kept one. */
  lemma ScanReplace(ps: seq<seq<int>>, n: int, lineups: seq<seq<int>>, best: real, value: int -> real)
    requires 0 <= n < |ps| && ScanInvariant(ps, n, lineups, best, value)
    requires Distinct(ps[n]) && Total(ps[n], value) > best
    ensures ScanInvariant(ps, n + 1, [ps[n]], Total(ps[n], value), value)
  {
    var next := [ps[n]];
    forall j | 0 <= j < n + 1 && Distinct(ps[j]) && Total(ps[j], value) == Total(ps[n], value)
      ensures exists k :: 0 <= k < |next| && Members(next[k]) == Members(ps[j])
    {
      assert j == n;
      assert next[0] == ps[n];
    }
  }
}
