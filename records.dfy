/** The sales table every dashboard computation reads: one record per sale,
    with its calendar day (a day number), the region, the sales rep, the
    product category, the product and the amount. Selections over the table
    keep the table's own order. */
module Records {

  datatype Record = Record(
    date: int,
    region: string,
    rep: string,
    category: string,
    product: string,
    amount: real)

  /** Sum of the amounts of `rs` (the `.sum()` of the sales column). */
  function Total(rs: seq<Record>): real
  {
    if rs == [] then 0.0 else Total(rs[..|rs| - 1]) + rs[|rs| - 1].amount
  }

  /** The records of `rs` that satisfy `keep`, in their original order
      (a boolean-mask selection of a data frame). */
  function Filter(rs: seq<Record>, keep: Record -> bool): seq<Record>
  {
    if rs == [] then []
    else Filter(rs[..|rs| - 1], keep) + (if keep(rs[|rs| - 1]) then [rs[|rs| - 1]] else [])
  }

  /** A record is selected exactly when it is in the table and passes `keep`. */
  lemma {:induction false} FilterMembers(rs: seq<Record>, keep: Record -> bool)
    ensures |Filter(rs, keep)| <= |rs|
    ensures forall x :: x in Filter(rs, keep) <==> x in rs && keep(x)
  {
    if rs != [] {
      var init := rs[..|rs| - 1];
      FilterMembers(init, keep);
      assert rs == init + [rs[|rs| - 1]];
    }
  }

  /** `s` can be obtained from `t` by deleting elements: an order-preserving subset. */
  predicate IsSubsequence<T(==)>(s: seq<T>, t: seq<T>)
    decreases |t|
  {
    if s == [] then true
    else if t == [] then false
    else if s[|s| - 1] == t[|t| - 1] then IsSubsequence(s[..|s| - 1], t[..|t| - 1])
    else IsSubsequence(s, t[..|t| - 1])
  }

  lemma {:induction false} SubsequenceOfSnoc<T>(s: seq<T>, t: seq<T>, x: T)
    requires IsSubsequence(s, t)
    ensures IsSubsequence(s, t + [x])
    ensures IsSubsequence(s + [x], t + [x])
    decreases |t|, 1
  {
    assert (t + [x])[..|t + [x]| - 1] == t;
    assert (s + [x])[..|s + [x]| - 1] == s;
    if s != [] && s[|s| - 1] == x {
      // matching the last element of s against x keeps the earlier part a subsequence of t
      SubsequenceDropLast(s, t);
    }
  }

  lemma {:induction false} SubsequenceDropLast<T>(s: seq<T>, t: seq<T>)
    requires s != [] && IsSubsequence(s, t)
    ensures IsSubsequence(s[..|s| - 1], t)
    decreases |t|, 0
  {
    if t == [] {
    } else if s[|s| - 1] == t[|t| - 1] {
      var t' := t[..|t| - 1];
      assert IsSubsequence(s[..|s| - 1], t');
      SubsequenceOfSnoc(s[..|s| - 1], t', t[|t| - 1]);
      assert t' + [t[|t| - 1]] == t;
    } else {
      SubsequenceDropLast(s, t[..|t| - 1]);
      SubsequenceOfSnoc(s[..|s| - 1], t[..|t| - 1], t[|t| - 1]);
      assert t[..|t| - 1] + [t[|t| - 1]] == t;
    }
  }

  /** A selection is an order-preserving subset of what it selects from. */
  lemma {:induction false} FilterIsSubsequence(rs: seq<Record>, keep: Record -> bool)
    ensures IsSubsequence(Filter(rs, keep), rs)
  {
    if rs != [] {
      var init, last := rs[..|rs| - 1], rs[|rs| - 1];
      FilterIsSubsequence(init, keep);
      SubsequenceOfSnoc(Filter(init, keep), init, last);
      assert init + [last] == rs;
      if keep(last) {
        assert Filter(rs, keep) == Filter(init, keep) + [last];
      } else {
        assert Filter(rs, keep) == Filter(init, keep);
      }
    }
  }

  lemma {:induction false} TotalAppend(a: seq<Record>, b: seq<Record>)
    ensures Total(a + b) == Total(a) + Total(b)
    decreases |b|
  {
    if b == [] {
      assert a + b == a;
    } else {
      var b' := b[..|b| - 1];
      assert (a + b)[..|a + b| - 1] == a + b';
      TotalAppend(a, b');
    }
  }

  /** A selection keeps every copy of a record that passes, and none of one
      that does not. */
  lemma {:induction false} FilterCount(rs: seq<Record>, keep: Record -> bool, x: Record)
    ensures multiset(Filter(rs, keep))[x] == if keep(x) then multiset(rs)[x] else 0
  {
    if rs != [] {
      var init, last := rs[..|rs| - 1], rs[|rs| - 1];
      FilterCount(init, keep, x);
      var f := Filter(init, keep);
      assert rs == init + [last];
      if keep(last) {
        assert Filter(rs, keep) == f + [last];
      } else {
        assert Filter(rs, keep) == f;
      }
    }
  }

  /** Selecting with `keep` and with its negation splits the table in two:
      the two parts hold every record exactly once. */
  lemma FilterPartition(rs: seq<Record>, keep: Record -> bool, drop: Record -> bool)
    requires forall x :: drop(x) == !keep(x)
    ensures multiset(Filter(rs, keep)) + multiset(Filter(rs, drop)) == multiset(rs)
  {
    forall x
      ensures (multiset(Filter(rs, keep)) + multiset(Filter(rs, drop)))[x] == multiset(rs)[x]
    {
      FilterCount(rs, keep, x);
      FilterCount(rs, drop, x);
    }
  }

  /** The totals of the two parts of such a split add up to the table's total. */
  lemma {:induction false} FilterPartitionTotal(rs: seq<Record>, keep: Record -> bool, drop: Record -> bool)
    requires forall x :: drop(x) == !keep(x)
    ensures Total(Filter(rs, keep)) + Total(Filter(rs, drop)) == Total(rs)
  {
    if rs != [] {
      var init, last := rs[..|rs| - 1], rs[|rs| - 1];
      FilterPartitionTotal(init, keep, drop);
      var k, d := Filter(init, keep), Filter(init, drop);
      if keep(last) {
        assert Filter(rs, keep) == k + [last] && Filter(rs, drop) == d;
        TotalAppend(k, [last]);
      } else {
        assert Filter(rs, drop) == d + [last] && Filter(rs, keep) == k;
        TotalAppend(d, [last]);
      }
      assert Total([last]) == last.amount by {
        assert [last][..0] == [];
      }
    }
  }

  /** A selection that every record passes is the whole table. */
  lemma {:induction false} FilterAll(rs: seq<Record>, keep: Record -> bool)
    requires forall x :: x in rs ==> keep(x)
    ensures Filter(rs, keep) == rs
  {
    if rs != [] {
      var init := rs[..|rs| - 1];
      FilterAll(init, keep);
      assert init + [rs[|rs| - 1]] == rs;
    }
  }

  /** Selections with predicates that agree on every record give the same result. */
  lemma {:induction false} FilterSame(rs: seq<Record>, p: Record -> bool, q: Record -> bool)
    requires forall x :: p(x) == q(x)
    ensures Filter(rs, p) == Filter(rs, q)
  {
    if rs != [] {
      FilterSame(rs[..|rs| - 1], p, q);
    }
  }

  /** Selecting twice is selecting once with the conjunction. */
  lemma {:induction false} FilterFilter(rs: seq<Record>, p: Record -> bool, q: Record -> bool, both: Record -> bool)
    requires forall x :: both(x) == (p(x) && q(x))
    ensures Filter(Filter(rs, p), q) == Filter(rs, both)
  {
    if rs != [] {
      var init, last := rs[..|rs| - 1], rs[|rs| - 1];
      FilterFilter(init, p, q, both);
      var f := Filter(init, p);
      if p(last) {
        assert Filter(rs, p) == f + [last];
        assert (f + [last])[..|f + [last]| - 1] == f;
      } else {
        assert Filter(rs, p) == f;
      }
    }
  }

  lemma {:induction false} TotalAtLeast(rs: seq<Record>, lo: real)
    requires forall x :: x in rs ==> lo <= x.amount
    ensures lo * (|rs| as real) <= Total(rs)
  {
    if rs != [] {
      var init := rs[..|rs| - 1];
      assert forall x :: x in init ==> x in rs;
      TotalAtLeast(init, lo);
      assert rs[|rs| - 1] in rs;
      var n := |init| as real;
      assert lo * (|rs| as real) == lo * n + lo by {
        assert |rs| as real == n + 1.0;
      }
    }
  }

  lemma {:induction false} TotalAtMost(rs: seq<Record>, hi: real)
    requires forall x :: x in rs ==> x.amount <= hi
    ensures Total(rs) <= hi * (|rs| as real)
  {
    if rs != [] {
      var init := rs[..|rs| - 1];
      assert forall x :: x in init ==> x in rs;
      TotalAtMost(init, hi);
      assert rs[|rs| - 1] in rs;
      var n := |init| as real;
      assert hi * (|rs| as real) == hi * n + hi by {
        assert |rs| as real == n + 1.0;
      }
    }
  }

  /** When every amount lies in [lo, hi], the total lies in [lo * n, hi * n]. */
  lemma TotalBounds(rs: seq<Record>, lo: real, hi: real)
    requires forall x :: x in rs ==> lo <= x.amount <= hi
    ensures lo * (|rs| as real) <= Total(rs) <= hi * (|rs| as real)
  {
    TotalAtLeast(rs, lo);
    TotalAtMost(rs, hi);
  }
}
