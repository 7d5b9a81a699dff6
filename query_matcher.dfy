/** The keyword question answerer of the professional dashboard: the query
    is lower-cased, the known rep, region and category values that occur in it
    select records (values matched within one column are alternatives, the
    columns must all hold), and a trigger phrase asks for the number of orders
    instead of the sales total. */
module QueryMatcher {
  import opened Records
  import opened Grouping

  predicate IsUpperAscii(c: char)
  {
    'A' <= c <= 'Z'
  }

  /** Lower-casing of one character, on the ASCII letters only. */
  function LowerChar(c: char): char
  {
    if IsUpperAscii(c) then (c as int + 32) as char else c
  }

  function Lower(s: string): string
  {
    if s == [] then [] else [LowerChar(s[0])] + Lower(s[1..])
  }

  /** A string without upper-case ASCII letters is its own lower-case form. */
  lemma {:induction false} LowerIdentity(s: string)
    requires forall c :: c in s ==> !IsUpperAscii(c)
    ensures Lower(s) == s
  {
    if s != [] {
      assert forall c :: c in s[1..] ==> c in s;
      LowerIdentity(s[1..]);
    }
  }

  /** Lower-casing works character by character, leaves no upper-case ASCII
      letter behind, and is idempotent. */
  lemma {:induction false} LowerFacts(s: string)
    ensures |Lower(s)| == |s|
    ensures forall i :: 0 <= i < |s| ==> Lower(s)[i] == LowerChar(s[i])
    ensures forall c :: c in Lower(s) ==> !IsUpperAscii(c)
    ensures Lower(Lower(s)) == Lower(s)
  {
    if s != [] {
      LowerFacts(s[1..]);
      var l := Lower(s);
      assert l == [LowerChar(s[0])] + Lower(s[1..]);
      forall i | 0 <= i < |s| ensures l[i] == LowerChar(s[i]) {
        if i > 0 {
          assert l[i] == Lower(s[1..])[i - 1];
        }
      }
      LowerIdentity(l);
    }
  }

  predicate IsPrefix(p: string, s: string)
  {
    |p| <= |s| && p == s[..|p|]
  }

  /** Python's `p in s` on strings: `p` occurs as a contiguous substring
      (the empty string occurs everywhere). */
  predicate Contains(s: string, p: string)
    decreases |s|
  {
    IsPrefix(p, s) || (s != [] && Contains(s[1..], p))
  }

  predicate OccursAt(s: string, p: string, i: int)
  {
    0 <= i && i + |p| <= |s| && s[i..i + |p|] == p
  }

  /** Containment means an occurrence at some position. */
  lemma {:induction false} ContainsOccurrence(s: string, p: string)
    ensures Contains(s, p) <==> exists i :: OccursAt(s, p, i)
    decreases |s|
  {
    if IsPrefix(p, s) {
      assert OccursAt(s, p, 0);
    } else if s == [] {
      assert forall i :: !OccursAt(s, p, i);
    } else {
      ContainsOccurrence(s[1..], p);
      if Contains(s[1..], p) {
        var i :| OccursAt(s[1..], p, i);
        assert s[1..][i..i + |p|] == s[i + 1..i + 1 + |p|];
        assert OccursAt(s, p, i + 1);
      } else {
        forall i | OccursAt(s, p, i) ensures false {
          assert i != 0;
          assert s[1..][i - 1..i - 1 + |p|] == s[i..i + |p|];
          assert OccursAt(s[1..], p, i - 1);
        }
      }
    }
  }

  /** Every character of a contained string is a character of the container. */
  lemma ContainsChar(s: string, p: string, c: char)
    requires Contains(s, p) && c in p
    ensures c in s
  {
    ContainsOccurrence(s, p);
    var i :| OccursAt(s, p, i);
    var k :| 0 <= k < |p| && p[k] == c;
    assert s[i + k] == c;
  }

  /** The values of one column, row by row. */
  function Column(data: seq<Record>, field: Record -> string): (col: seq<string>)
    ensures |col| == |data|
    ensures forall i :: 0 <= i < |data| ==> col[i] == field(data[i])
  {
    seq(|data|, i requires 0 <= i < |data| => field(data[i]))
  }

  /** `.unique()`: each value once, in order of first occurrence. */
  function Distinct(xs: seq<string>): seq<string>
  {
    if xs == [] then []
    else
      var d := Distinct(xs[..|xs| - 1]);
      if xs[|xs| - 1] in d then d else d + [xs[|xs| - 1]]
  }

  lemma {:induction false} DistinctCorrect(xs: seq<string>)
    ensures forall v :: v in Distinct(xs) <==> v in xs
    ensures forall i, j :: 0 <= i < j < |Distinct(xs)| ==> Distinct(xs)[i] != Distinct(xs)[j]
  {
    if xs != [] {
      DistinctCorrect(xs[..|xs| - 1]);
      assert xs == xs[..|xs| - 1] + [xs[|xs| - 1]];
    }
  }

  /** The candidate values that occur in the query; with `fold` each value is
      lower-cased before the test, without it the value is tested as is. */
  function Matches(values: seq<string>, query: string, fold: bool): seq<string>
  {
    if values == [] then []
    else
      var v := values[0];
      (if Contains(query, if fold then Lower(v) else v) then [v] else []) + Matches(values[1..], query, fold)
  }

  lemma {:induction false} MatchesCorrect(values: seq<string>, query: string, fold: bool)
    ensures forall v :: v in Matches(values, query, fold) <==>
      v in values && Contains(query, if fold then Lower(v) else v)
  {
    if values != [] {
      MatchesCorrect(values[1..], query, fold);
      assert values == [values[0]] + values[1..];
    }
  }

  /** The matched reps, regions and categories for the lower-cased query `q`.
      Reps and categories are lower-cased before the test; regions are not. */
  function FoundReps(data: seq<Record>, q: string): seq<string>
  {
    Matches(Distinct(Column(data, Field(Rep))), q, true)
  }

  function FoundRegions(data: seq<Record>, q: string): seq<string>
  {
    Matches(Distinct(Column(data, Field(Region))), q, false)
  }

  function FoundCategories(data: seq<Record>, q: string): seq<string>
  {
    Matches(Distinct(Column(data, Field(Category))), q, true)
  }

  /** A value is matched exactly when some record carries it in that column
      and it occurs in the query (after lower-casing, where the column is
      lower-cased). */
  lemma FoundValues(data: seq<Record>, q: string, d: Dimension, v: string)
    requires d == Rep || d == Region || d == Category
    ensures var found := (match d
        case Rep => FoundReps(data, q)
        case Region => FoundRegions(data, q)
        case Category => FoundCategories(data, q)
        case Product => []);
      v in found <==> (exists r :: r in data && Field(d)(r) == v) && Contains(q, if d == Region then v else Lower(v))
  {
    var col := Column(data, Field(d));
    DistinctCorrect(col);
    MatchesCorrect(Distinct(col), q, d != Region);
    if v in col {
      var i :| 0 <= i < |col| && col[i] == v;
      assert data[i] in data && Field(d)(data[i]) == v;
    }
    if exists r :: r in data && Field(d)(r) == v {
      var r :| r in data && Field(d)(r) == v;
      var i :| 0 <= i < |data| && data[i] == r;
      assert col[i] == v;
    }
  }

  /** The selection mask "the value in this column is one of `found`". */
  function InValues(field: Record -> string, found: seq<string>): Record -> bool
  {
    (r: Record) => field(r) in found
  }

  /** One `isin` narrowing step, skipped when nothing was matched. */
  function Narrow(rs: seq<Record>, field: Record -> string, found: seq<string>): seq<Record>
  {
    if found == [] then rs else Filter(rs, InValues(field, found))
  }

  /** The records the query selects, for the lower-cased query `q`. */
  function QueryFilter(data: seq<Record>, q: string): seq<Record>
  {
    var byRep := Narrow(data, Field(Rep), FoundReps(data, q));
    var byRegion := Narrow(byRep, Field(Region), FoundRegions(data, q));
    Narrow(byRegion, Field(Category), FoundCategories(data, q))
  }

  /** A record passes a column constraint when the column matched nothing or
      its value is among the matched values. */
  predicate Allowed(value: string, found: seq<string>)
  {
    found == [] || value in found
  }

  predicate Survives(data: seq<Record>, q: string, r: Record)
  {
    && Allowed(r.rep, FoundReps(data, q))
    && Allowed(r.region, FoundRegions(data, q))
    && Allowed(r.category, FoundCategories(data, q))
  }

  function SurvivesMask(data: seq<Record>, q: string): Record -> bool
  {
    (r: Record) => Survives(data, q, r)
  }

  function AllowedMask(field: Record -> string, found: seq<string>): Record -> bool
  {
    (r: Record) => Allowed(field(r), found)
  }

  lemma NarrowIsFilter(rs: seq<Record>, field: Record -> string, found: seq<string>)
    ensures Narrow(rs, field, found) == Filter(rs, AllowedMask(field, found))
  {
    if found == [] {
      FilterAll(rs, AllowedMask(field, found));
    } else {
      forall x ensures InValues(field, found)(x) == AllowedMask(field, found)(x) {
        assert InValues(field, found)(x) == (field(x) in found);
        assert AllowedMask(field, found)(x) == Allowed(field(x), found);
      }
      FilterSame(rs, InValues(field, found), AllowedMask(field, found));
    }
  }

  /** The three narrowing steps together are one selection by every column
      that matched something. */
  lemma QueryFilterSelects(data: seq<Record>, q: string)
    ensures QueryFilter(data, q) == Filter(data, SurvivesMask(data, q))
  {
    var fr, fg, fc := FoundReps(data, q), FoundRegions(data, q), FoundCategories(data, q);
    var pr, pg, pc := AllowedMask(Field(Rep), fr), AllowedMask(Field(Region), fg), AllowedMask(Field(Category), fc);
    var prg := (r: Record) => pr(r) && pg(r);
    var byRep := Narrow(data, Field(Rep), fr);
    var byRegion := Narrow(byRep, Field(Region), fg);
    assert byRep == Filter(data, pr) by {
      NarrowIsFilter(data, Field(Rep), fr);
    }
    assert byRegion == Filter(data, prg) by {
      NarrowIsFilter(byRep, Field(Region), fg);
      FilterFilter(data, pr, pg, prg);
    }
    assert Narrow(byRegion, Field(Category), fc) == Filter(data, SurvivesMask(data, q)) by {
      NarrowIsFilter(byRegion, Field(Category), fc);
      FilterFilter(data, prg, pc, SurvivesMask(data, q));
    }
  }

  /** The filter keeps exactly the records that satisfy every column that
      matched something, in the table's order. */
  lemma QueryFilterMembers(data: seq<Record>, q: string)
    ensures forall r :: r in QueryFilter(data, q) <==> r in data && Survives(data, q, r)
    ensures IsSubsequence(QueryFilter(data, q), data)
  {
    QueryFilterSelects(data, q);
    FilterMembers(data, SurvivesMask(data, q));
    FilterIsSubsequence(data, SurvivesMask(data, q));
  }

  /** When no rep, region or category value of the table occurs in the query,
      the filter keeps the whole table. */
  lemma NoMatchKeepsAll(data: seq<Record>, q: string)
    requires forall r :: r in data ==>
      !Contains(q, Lower(r.rep)) && !Contains(q, r.region) && !Contains(q, Lower(r.category))
    ensures QueryFilter(data, q) == data
  {
    NothingFound(data, q, Rep);
    NothingFound(data, q, Region);
    NothingFound(data, q, Category);
  }

  lemma {:induction false} MatchesNone(values: seq<string>, query: string, fold: bool)
    requires forall k :: 0 <= k < |values| ==> !Contains(query, if fold then Lower(values[k]) else values[k])
    ensures Matches(values, query, fold) == []
  {
    if values != [] {
      MatchesNone(values[1..], query, fold);
    }
  }

  lemma NothingFound(data: seq<Record>, q: string, d: Dimension)
    requires d == Rep || d == Region || d == Category
    requires forall r :: r in data ==> !Contains(q, if d == Region then Field(d)(r) else Lower(Field(d)(r)))
    ensures Matches(Distinct(Column(data, Field(d))), q, d != Region) == []
  {
    var col := Column(data, Field(d));
    var vs := Distinct(col);
    DistinctCorrect(col);
    forall k | 0 <= k < |vs| ensures !Contains(q, if d != Region then Lower(vs[k]) else vs[k]) {
      assert vs[k] in col;
      var i :| 0 <= i < |col| && col[i] == vs[k];
      assert data[i] in data;
    }
    MatchesNone(vs, q, d != Region);
  }

  /** A region value with an upper-case ASCII letter never occurs in a
      lower-cased query, so it never narrows the selection. */
  lemma UpperCaseRegionNeverMatches(data: seq<Record>, query: string, v: string, c: char)
    requires c in v && IsUpperAscii(c)
    ensures v !in FoundRegions(data, Lower(query))
  {
    FoundValues(data, Lower(query), Region, v);
    LowerFacts(query);
    if Contains(Lower(query), v) {
      ContainsChar(Lower(query), v, c);
    }
  }

  /** What the answer reports. */
  datatype Answer = OrderCount(count: nat) | SalesTotal(total: real)

  /** The query asks for a number of orders ("订单" or "卖了多少笔"). */
  predicate AsksForCount(q: string)
  {
    Contains(q, "订单") || Contains(q, "卖了多少笔")
  }

  /** The answer to `query` over the whole table. */
  function ParseQuery(query: string, data: seq<Record>): (a: Answer)
    ensures a.OrderCount? <==> AsksForCount(Lower(query))
    ensures a.OrderCount? ==> a.count == |QueryFilter(data, Lower(query))|
    ensures a.SalesTotal? ==> a.total == Total(QueryFilter(data, Lower(query)))
  {
    var q := Lower(query);
    var selected := QueryFilter(data, q);
    if AsksForCount(q) then OrderCount(|selected|) else SalesTotal(Total(selected))
  }

  /** A character whose lower-case form is not an ASCII letter was already that character. */
  lemma LowerCharKeepsNonLetters(c: char, d: char)
    requires LowerChar(c) == d && !('a' <= d <= 'z')
    ensures c == d
  {
  }

  /** Lower-casing the query never creates or destroys a trigger phrase,
      because the phrases hold no ASCII letter. */
  lemma {:induction false} LowerKeepsPhrase(s: string, p: string)
    requires forall k :: 0 <= k < |p| ==> !('a' <= p[k] <= 'z') && !IsUpperAscii(p[k])
    ensures Contains(Lower(s), p) <==> Contains(s, p)
    decreases |s|
  {
    LowerFacts(s);
    var l := Lower(s);
    assert IsPrefix(p, l) <==> IsPrefix(p, s) by {
      if |p| <= |s| {
        if p == l[..|p|] {
          forall k | 0 <= k < |p| ensures s[k] == p[k] {
            LowerCharKeepsNonLetters(s[k], l[k]);
          }
        }
        if p == s[..|p|] {
          forall k | 0 <= k < |p| ensures l[k] == p[k] {
            assert l[k] == LowerChar(s[k]);
          }
        }
      }
    }
    if s != [] {
      LowerKeepsPhrase(s[1..], p);
      assert l[1..] == Lower(s[1..]);
    }
  }

  lemma TriggerIgnoresCase(query: string)
    ensures AsksForCount(Lower(query)) <==> AsksForCount(query)
  {
    LowerKeepsPhrase(query, "订单");
    LowerKeepsPhrase(query, "卖了多少笔");
  }
}
