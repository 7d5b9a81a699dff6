/** Group-by-sum over the sales table (`groupby(column)['amount'].sum()`),
    the descending ranking of the group sums (`sort_values(ascending=False)`)
    and the top-N cut (`nlargest(n)`). */
module Grouping {
  import opened Records

  /** One row of a grouped series: a group key and the sum of its amounts. */
  datatype Group<K> = Group(key: K, sum: real)

  /** The text columns a table can be grouped by. */
  datatype Dimension = Region | Category | Rep | Product

  function Field(d: Dimension): Record -> string
  {
    match d
    case Region => (r: Record) => r.region
    case Category => (r: Record) => r.category
    case Rep => (r: Record) => r.rep
    case Product => (r: Record) => r.product
  }

  /** The values of a text column on the given records. */
  function ValuesOf(rs: seq<Record>, d: Dimension): set<string>
  {
    set r | r in rs :: Field(d)(r)
  }

  /** The calendar day of a record, as a grouping key. */
  function DateKey(): Record -> int
  {
    (r: Record) => r.date
  }

  /** The key column of a grouped series. */
  function Keys<K>(g: seq<Group<K>>): seq<K>
  {
    seq(|g|, i requires 0 <= i < |g| => g[i].key)
  }

  /** The sum column of a grouped series. */
  function Sums<K>(g: seq<Group<K>>): seq<real>
  {
    seq(|g|, i requires 0 <= i < |g| => g[i].sum)
  }

  function KeySet<K>(g: seq<Group<K>>): set<K>
  {
    set e | e in g :: e.key
  }

  predicate DistinctKeys<K(==)>(g: seq<Group<K>>)
  {
    forall i, j :: 0 <= i < j < |g| ==> g[i].key != g[j].key
  }

  /** Sum over all groups. */
  function SumOf<K>(g: seq<Group<K>>): real
  {
    if g == [] then 0.0 else g[0].sum + SumOf(g[1..])
  }

  /** The sum stored for key `k`, or 0 when `k` has no group. */
  function Lookup<K(==)>(g: seq<Group<K>>, k: K): real
  {
    if g == [] then 0.0 else if g[0].key == k then g[0].sum else Lookup(g[1..], k)
  }

  /** Adds amount `a` to the group of `k`, opening a new group at the end
      when `k` has none yet. */
  function Add<K(==)>(g: seq<Group<K>>, k: K, a: real): seq<Group<K>>
  {
    if g == [] then [Group(k, a)]
    else if g[0].key == k then [Group(k, g[0].sum + a)] + g[1..]
    else [g[0]] + Add(g[1..], k, a)
  }

  /** The selection mask "has key `k`". */
  function HasKey<K(==)>(key: Record -> K, k: K): Record -> bool
  {
    (r: Record) => key(r) == k
  }

  /** The sum of the amounts of the records whose key is `k`. */
  function SumWithKey<K(==)>(rs: seq<Record>, key: Record -> K, k: K): real
  {
    Total(Filter(rs, HasKey(key, k)))
  }

  /** One group per distinct key of `rs`, in order of first occurrence. */
  function GroupSum<K(==)>(rs: seq<Record>, key: Record -> K): seq<Group<K>>
  {
    if rs == [] then []
    else Add(GroupSum(rs[..|rs| - 1], key), key(rs[|rs| - 1]), rs[|rs| - 1].amount)
  }

  lemma KeySetCons<K>(x: Group<K>, s: seq<Group<K>>)
    ensures KeySet([x] + s) == {x.key} + KeySet(s)
  {
    assert forall e :: e in [x] + s <==> e == x || e in s;
  }

  lemma DistinctCons<K>(x: Group<K>, s: seq<Group<K>>)
    requires DistinctKeys(s) && x.key !in KeySet(s)
    ensures DistinctKeys([x] + s)
  {
    var r := [x] + s;
    forall i, j | 0 <= i < j < |r| ensures r[i].key != r[j].key {
      assert r[j] == s[j - 1] && s[j - 1] in s;
      if i > 0 {
        assert r[i] == s[i - 1];
      }
    }
  }

  /** Adding an amount raises the grand total by that amount. */
  lemma {:induction false} AddSum<K>(g: seq<Group<K>>, k: K, a: real)
    ensures SumOf(Add(g, k, a)) == SumOf(g) + a
  {
    var r := Add(g, k, a);
    if g == [] {
      assert r[1..] == [];
    } else if g[0].key == k {
      assert r[1..] == g[1..];
    } else {
      AddSum(g[1..], k, a);
      assert r[1..] == Add(g[1..], k, a);
    }
  }

  /** Adding under `k` leaves `k` among the keys and no other key new. */
  lemma {:induction false} AddKeys<K>(g: seq<Group<K>>, k: K, a: real)
    ensures KeySet(Add(g, k, a)) == KeySet(g) + {k}
  {
    var r := Add(g, k, a);
    if g == [] {
      KeySetCons(Group(k, a), []);
      assert r == [Group(k, a)] + [];
    } else if g[0].key == k {
      KeySetCons(g[0], g[1..]);
      KeySetCons(r[0], g[1..]);
      assert g == [g[0]] + g[1..];
    } else {
      AddKeys(g[1..], k, a);
      KeySetCons(g[0], g[1..]);
      KeySetCons(g[0], Add(g[1..], k, a));
      assert g == [g[0]] + g[1..];
    }
  }

  /** Adding under `k` changes the sum looked up for `k` only, by the amount. */
  lemma {:induction false} AddLookup<K>(g: seq<Group<K>>, k: K, a: real)
    ensures forall k' :: Lookup(Add(g, k, a), k') == Lookup(g, k') + (if k' == k then a else 0.0)
  {
    var r := Add(g, k, a);
    if g == [] {
      assert r[1..] == [];
    } else if g[0].key == k {
      assert r[1..] == g[1..];
    } else {
      AddLookup(g[1..], k, a);
      assert r[1..] == Add(g[1..], k, a);
    }
  }

  /** Adding keeps the keys distinct. */
  lemma {:induction false} AddDistinct<K>(g: seq<Group<K>>, k: K, a: real)
    requires DistinctKeys(g)
    ensures DistinctKeys(Add(g, k, a))
  {
    var r := Add(g, k, a);
    if g == [] {
    } else if g[0].key == k {
      DistinctSplit(g);
      DistinctCons(r[0], g[1..]);
    } else {
      DistinctSplit(g);
      AddDistinct(g[1..], k, a);
      AddKeys(g[1..], k, a);
      DistinctCons(g[0], Add(g[1..], k, a));
    }
  }

  /** Splitting off the last record: its amount goes to its own key only. */
  lemma SumWithKeySnoc<K>(rs: seq<Record>, key: Record -> K, k: K)
    requires rs != []
    ensures SumWithKey(rs, key, k)
         == SumWithKey(rs[..|rs| - 1], key, k) + (if key(rs[|rs| - 1]) == k then rs[|rs| - 1].amount else 0.0)
  {
    var init, last := rs[..|rs| - 1], rs[|rs| - 1];
    var f := Filter(init, HasKey(key, k));
    if key(last) == k {
      TotalAppend(f, [last]);
    } else {
      assert f + [] == f;
    }
  }

  lemma {:induction false} GroupSumDistinct<K>(rs: seq<Record>, key: Record -> K)
    ensures DistinctKeys(GroupSum(rs, key))
  {
    if rs != [] {
      var init, last := rs[..|rs| - 1], rs[|rs| - 1];
      GroupSumDistinct(init, key);
      AddDistinct(GroupSum(init, key), key(last), last.amount);
    }
  }

  lemma {:induction false} GroupSumKeys<K>(rs: seq<Record>, key: Record -> K)
    ensures KeySet(GroupSum(rs, key)) == set r | r in rs :: key(r)
  {
    if rs != [] {
      var init, last := rs[..|rs| - 1], rs[|rs| - 1];
      GroupSumKeys(init, key);
      AddKeys(GroupSum(init, key), key(last), last.amount);
      assert rs == init + [last];
      assert (set r | r in rs :: key(r)) == (set r | r in init :: key(r)) + {key(last)};
    }
  }

  lemma {:induction false} GroupSumLookup<K>(rs: seq<Record>, key: Record -> K)
    ensures forall k :: Lookup(GroupSum(rs, key), k) == SumWithKey(rs, key, k)
  {
    if rs == [] {
      forall k ensures Lookup(GroupSum(rs, key), k) == SumWithKey(rs, key, k) {
      }
    } else {
      var init, last := rs[..|rs| - 1], rs[|rs| - 1];
      GroupSumLookup(init, key);
      AddLookup(GroupSum(init, key), key(last), last.amount);
      forall k ensures Lookup(GroupSum(rs, key), k) == SumWithKey(rs, key, k) {
        SumWithKeySnoc(rs, key, k);
      }
    }
  }

  lemma {:induction false} GroupSumTotal<K>(rs: seq<Record>, key: Record -> K)
    ensures SumOf(GroupSum(rs, key)) == Total(rs)
  {
    if rs != [] {
      var init, last := rs[..|rs| - 1], rs[|rs| - 1];
      GroupSumTotal(init, key);
      AddSum(GroupSum(init, key), key(last), last.amount);
    }
  }

  /** Group-by-sum is exact: keys are distinct, they are exactly the keys
      present in the table, every group holds the sum of its records, and the
      group sums add up to the table's total. */
  lemma GroupSumCorrect<K>(rs: seq<Record>, key: Record -> K)
    ensures DistinctKeys(GroupSum(rs, key))
    ensures KeySet(GroupSum(rs, key)) == set r | r in rs :: key(r)
    ensures forall k :: Lookup(GroupSum(rs, key), k) == SumWithKey(rs, key, k)
    ensures SumOf(GroupSum(rs, key)) == Total(rs)
  {
    GroupSumDistinct(rs, key);
    GroupSumKeys(rs, key);
    GroupSumLookup(rs, key);
    GroupSumTotal(rs, key);
  }

  lemma {:induction false} DistinctLookup<K>(g: seq<Group<K>>, e: Group<K>)
    requires DistinctKeys(g) && e in g
    ensures Lookup(g, e.key) == e.sum
  {
    if g[0] != e {
      assert g == [g[0]] + g[1..];
      assert e in g[1..];
      DistinctSplit(g);
      DistinctLookup(g[1..], e);
    }
  }

  lemma {:induction false} DistinctCardinality<K>(g: seq<Group<K>>)
    requires DistinctKeys(g)
    ensures |KeySet(g)| == |g|
  {
    if g != [] {
      DistinctSplit(g);
      DistinctCardinality(g[1..]);
    }
  }

  /** What a caller of group-by-sum may rely on, entry by entry: one entry per
      distinct key present, each holding exactly that key's sum. */
  lemma GroupSumEntries<K>(rs: seq<Record>, key: Record -> K)
    ensures forall e :: e in GroupSum(rs, key) ==> e.sum == SumWithKey(rs, key, e.key)
    ensures |GroupSum(rs, key)| == |set r | r in rs :: key(r)|
  {
    var g := GroupSum(rs, key);
    GroupSumCorrect(rs, key);
    DistinctCardinality(g);
    assert KeySet(g) == set r | r in rs :: key(r);
    forall e | e in g ensures e.sum == SumWithKey(rs, key, e.key) {
      DistinctLookup(g, e);
      assert Lookup(g, e.key) == SumWithKey(rs, key, e.key);
    }
  }

  predicate NonIncreasing<K>(s: seq<Group<K>>)
  {
    forall i, j :: 0 <= i < j < |s| ==> s[i].sum >= s[j].sum
  }

  /** Places `x` before the first entry whose sum does not exceed its own. */
  function Insert<K>(x: Group<K>, s: seq<Group<K>>): seq<Group<K>>
  {
    if s == [] then [x]
    else if x.sum >= s[0].sum then [x] + s
    else [s[0]] + Insert(x, s[1..])
  }

  /** Stable insertion sort by sum, largest first. */
  function SortDescending<K>(s: seq<Group<K>>): seq<Group<K>>
  {
    if s == [] then [] else Insert(s[0], SortDescending(s[1..]))
  }

  lemma {:induction false} InsertPermutes<K>(x: Group<K>, s: seq<Group<K>>)
    ensures multiset(Insert(x, s)) == multiset(s) + multiset{x}
    ensures |Insert(x, s)| == |s| + 1
  {
    if s != [] && x.sum < s[0].sum {
      InsertPermutes(x, s[1..]);
      assert s == [s[0]] + s[1..];
    }
  }

  lemma NonIncreasingCons<K>(h: Group<K>, t: seq<Group<K>>)
    requires NonIncreasing(t) && forall e :: e in t ==> e.sum <= h.sum
    ensures NonIncreasing([h] + t)
  {
    var r := [h] + t;
    forall i, j | 0 <= i < j < |r| ensures r[i].sum >= r[j].sum {
      assert r[j] == t[j - 1] && t[j - 1] in t;
      if i > 0 {
        assert r[i] == t[i - 1];
      }
    }
  }

  lemma NonIncreasingTail<K>(s: seq<Group<K>>)
    requires s != [] && NonIncreasing(s)
    ensures NonIncreasing(s[1..])
    ensures forall e :: e in s ==> e.sum <= s[0].sum
  {
    var tail := s[1..];
    forall i, j | 0 <= i < j < |tail| ensures tail[i].sum >= tail[j].sum {
      assert tail[i] == s[i + 1] && tail[j] == s[j + 1];
    }
  }

  lemma {:induction false} InsertFacts<K>(x: Group<K>, s: seq<Group<K>>)
    requires NonIncreasing(s)
    ensures NonIncreasing(Insert(x, s))
    ensures multiset(Insert(x, s)) == multiset(s) + multiset{x}
    ensures |Insert(x, s)| == |s| + 1
  {
    InsertPermutes(x, s);
    if s == [] {
    } else if x.sum >= s[0].sum {
      NonIncreasingTail(s);
      NonIncreasingCons(x, s);
    } else {
      var tail := s[1..];
      var t := Insert(x, tail);
      NonIncreasingTail(s);
      InsertFacts(x, tail);
      forall e | e in t ensures e.sum <= s[0].sum {
        assert e in multiset(t);
        assert s == [s[0]] + tail;
      }
      NonIncreasingCons(s[0], t);
    }
  }

  /** The descending ranking is sorted and is a permutation of its input. */
  lemma {:induction false} SortDescendingCorrect<K>(s: seq<Group<K>>)
    ensures NonIncreasing(SortDescending(s))
    ensures multiset(SortDescending(s)) == multiset(s)
    ensures |SortDescending(s)| == |s|
  {
    if s != [] {
      SortDescendingCorrect(s[1..]);
      InsertFacts(s[0], SortDescending(s[1..]));
      assert s == [s[0]] + s[1..];
    }
  }

  /** The `n` groups with the largest sums, largest first. */
  function Top<K>(g: seq<Group<K>>, n: nat): seq<Group<K>>
  {
    var s := SortDescending(g);
    s[..if n < |s| then n else |s|]
  }

  /** The top-N cut has at most N entries (all of them when there are no
      more groups), each an entry of the grouping, in non-increasing order,
      and no group left out has a larger sum than any group kept. */
  lemma TopCorrect<K>(g: seq<Group<K>>, n: nat)
    ensures |Top(g, n)| == if n < |g| then n else |g|
    ensures NonIncreasing(Top(g, n))
    ensures forall e :: e in Top(g, n) ==> e in g
    ensures forall e, i :: e in g && e !in Top(g, n) && 0 <= i < |Top(g, n)| ==> Top(g, n)[i].sum >= e.sum
    ensures |g| <= n ==> multiset(Top(g, n)) == multiset(g)
  {
    var s := SortDescending(g);
    SortDescendingCorrect(g);
    var t := Top(g, n);
    assert t == s[..|t|];
    forall e | e in t ensures e in g {
      assert e in multiset(s);
    }
    forall e, i | e in g && e !in t && 0 <= i < |t| ensures t[i].sum >= e.sum {
      assert e in multiset(s);
      var j :| 0 <= j < |s| && s[j] == e;
    }
    if |g| <= n {
      assert t == s;
    }
  }

  lemma {:induction false} InsertSum<K>(x: Group<K>, s: seq<Group<K>>)
    ensures SumOf(Insert(x, s)) == x.sum + SumOf(s)
  {
    if s != [] && x.sum < s[0].sum {
      InsertSum(x, s[1..]);
      assert ([s[0]] + Insert(x, s[1..]))[1..] == Insert(x, s[1..]);
    } else if s != [] {
      assert ([x] + s)[1..] == s;
    }
  }

  /** The first entry's key is not among the rest, and the rest are distinct. */
  lemma DistinctSplit<K>(g: seq<Group<K>>)
    requires g != [] && DistinctKeys(g)
    ensures DistinctKeys(g[1..]) && g[0].key !in KeySet(g[1..])
    ensures KeySet(g) == {g[0].key} + KeySet(g[1..])
  {
    forall i, j | 0 <= i < j < |g[1..]| ensures g[1..][i].key != g[1..][j].key {
      assert g[1..][i] == g[i + 1] && g[1..][j] == g[j + 1];
    }
    forall e | e in g[1..] ensures e.key != g[0].key {
      var j :| 0 <= j < |g[1..]| && g[1..][j] == e;
      assert g[j + 1] == e;
    }
    assert g == [g[0]] + g[1..];
  }

  lemma {:induction false} InsertKeySet<K>(x: Group<K>, s: seq<Group<K>>)
    ensures KeySet(Insert(x, s)) == KeySet(s) + {x.key}
  {
    if s == [] {
      KeySetCons(x, []);
      assert [x] == [x] + [];
    } else if x.sum >= s[0].sum {
      KeySetCons(x, s);
    } else {
      InsertKeySet(x, s[1..]);
      KeySetCons(s[0], s[1..]);
      KeySetCons(s[0], Insert(x, s[1..]));
      assert s == [s[0]] + s[1..];
    }
  }

  lemma {:induction false} InsertDistinct<K>(x: Group<K>, s: seq<Group<K>>)
    requires DistinctKeys(s) && x.key !in KeySet(s)
    ensures DistinctKeys(Insert(x, s))
  {
    if s == [] {
    } else if x.sum >= s[0].sum {
      DistinctCons(x, s);
    } else {
      DistinctSplit(s);
      InsertDistinct(x, s[1..]);
      InsertKeySet(x, s[1..]);
      DistinctCons(s[0], Insert(x, s[1..]));
    }
  }

  /** Ranking keeps the grouping's keys, and keeps them distinct. */
  lemma {:induction false} SortDescendingKeys<K>(s: seq<Group<K>>)
    requires DistinctKeys(s)
    ensures DistinctKeys(SortDescending(s)) && KeySet(SortDescending(s)) == KeySet(s)
  {
    if s != [] {
      DistinctSplit(s);
      SortDescendingKeys(s[1..]);
      InsertKeySet(s[0], SortDescending(s[1..]));
      InsertDistinct(s[0], SortDescending(s[1..]));
    }
  }

  /** Ranking moves entries around but keeps the grand total. */
  lemma {:induction false} SortDescendingSum<K>(s: seq<Group<K>>)
    ensures SumOf(SortDescending(s)) == SumOf(s)
  {
    if s != [] {
      SortDescendingSum(s[1..]);
      InsertSum(s[0], SortDescending(s[1..]));
    }
  }
}
