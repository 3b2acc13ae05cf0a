/** Walking the audit index page by page. */
module Pagination {
  import Sets

  /** The page size SnapshotLeasesBefore really uses. */
  function Clamp(limit: int): (r: nat)
    ensures 1 <= r <= 200
  {
    if limit <= 0 then 50 else if limit > 200 then 200 else limit
  }

  function Largest(ids: set<nat>): (m: nat)
    requires ids != {}
    ensures m in ids && forall x :: x in ids ==> x <= m
  {
    LargestExists(ids);
    var m :| m in ids && forall x :: x in ids ==> x <= m;
    m
  }

  lemma {:induction false} LargestExists(ids: set<nat>)
    requires ids != {}
    ensures exists m :: m in ids && forall x :: x in ids ==> x <= m
    decreases |ids|
  {
    var one :| one in ids;
    var rest := ids - {one};
    if rest != {} {
      LargestExists(rest);
      var m :| m in rest && forall x :: x in rest ==> x <= m;
      var best := if m > one then m else one;
      forall x | x in ids ensures x <= best { assert x == one || x in rest; }
      assert best in ids;
    } else {
      assert ids == {one};
    }
  }

  /** All of `ids`, largest first. */
  function Descending(ids: set<nat>): (r: seq<nat>)
    decreases |ids|
  {
    if ids == {} then [] else [Largest(ids)] + Descending(ids - {Largest(ids)})
  }

  predicate Decreasing(s: seq<nat>) { forall i, j :: 0 <= i < j < |s| ==> s[i] > s[j] }

  lemma {:induction false} DescendingIs(ids: set<nat>)
    ensures Decreasing(Descending(ids)) && |Descending(ids)| == |ids|
    ensures forall x :: x in Descending(ids) <==> x in ids
    decreases |ids|
  {
    if ids != {} {
      var m := Largest(ids);
      DescendingIs(ids - {m});
      var rest := Descending(ids - {m});
      assert Descending(ids) == [m] + rest;
      hide Descending, Largest;
      forall x | x in rest ensures x < m { assert x in ids - {m}; }
      ConsDecreasing(m, rest);
      forall x ensures x in [m] + rest <==> x in ids { assert x in [m] + rest <==> x == m || x in rest; }
    }
  }

  lemma ConsDecreasing(m: nat, rest: seq<nat>)
    requires Decreasing(rest) && forall x :: x in rest ==> x < m
    ensures Decreasing([m] + rest)
  {
    forall i, j | 0 <= i < j < |rest| + 1 ensures ([m] + rest)[i] > ([m] + rest)[j] {
      assert rest[j - 1] in rest;
    }
  }

  /** A decreasing list is determined by its elements. */
  lemma {:induction false} DecreasingIsUnique(s: seq<nat>, ids: set<nat>)
    requires Decreasing(s) && forall x :: x in s <==> x in ids
    ensures s == Descending(ids)
    decreases |ids|
  {
    if s == [] {
      assert ids == {};
    } else {
      assert s[0] in ids;
      var m := Largest(ids);
      assert m in s && s[0] == m;
      forall x ensures x in s[1..] <==> x in ids - {m} {
        if x in s[1..] { var i :| 0 < i < |s| && s[i] == x; }
        if x in ids - {m} { var i :| 0 <= i < |s| && s[i] == x; assert s[1..][i - 1] == x; }
      }
      DecreasingIsUnique(s[1..], ids - {m});
      assert s == [m] + s[1..];
    }
  }

  /** The items a cursor still lets through; zero is no cursor. */
  function Below(ids: set<nat>, before: nat): set<nat> {
    if before == 0 then ids else set x | x in ids && x < before
  }

  function First(s: seq<nat>, n: nat): (r: seq<nat>) {
    if |s| <= n then s else s[..n]
  }

  /** One page: the largest matching identities under the cursor. */
  function Page(ids: set<nat>, before: nat, limit: int): seq<nat> {
    First(Descending(Below(ids, before)), Clamp(limit))
  }

  lemma PageRestMember(ids: set<nat>, before: nat, all: seq<nat>, n: nat, x: nat)
    requires 0 !in ids && 0 < n < |all| && Decreasing(all) && forall y :: y in all <==> y in Below(ids, before)
    ensures x in all[n..] <==> x in Below(ids, all[n - 1])
  {
    var cut := all[n - 1];
    assert cut in all;
    forall i | n <= i < |all| ensures all[i] in all[n..] { assert all[n..][i - n] == all[i]; }
    if x in all[n..] {
      var i :| n <= i < |all| && all[i] == x;
      assert all[i] in all;
    } else if x in all {
      var i :| 0 <= i < |all| && all[i] == x;
      assert i < n ==> x >= cut;
    }
  }

  /** After a full page the cursor lets through exactly what the page left out. */
  lemma PageRest(ids: set<nat>, before: nat, n: nat)
    requires 0 !in ids && 0 < n < |Descending(Below(ids, before))|
    ensures var all := Descending(Below(ids, before)); Descending(Below(ids, all[n - 1])) == all[n..]
  {
    var left := Below(ids, before);
    var all := Descending(left);
    DescendingIs(left);
    var cut := all[n - 1];
    assert cut in all;
    hide Descending;
    forall x ensures x in all[n..] <==> x in Below(ids, cut) { PageRestMember(ids, before, all, n, x); }
    DecreasingIsUnique(all[n..], Below(ids, cut));
  }

  /** Following the last identity of each page until a page comes back empty. */
  function Walk(ids: set<nat>, before: nat, limit: int): (pages: seq<nat>)
    requires 0 !in ids
    decreases |Below(ids, before)|
  {
    DescendingIs(Below(ids, before));
    var page := Page(ids, before, limit);
    if page == [] then []
    else
      NextIsSmaller(ids, before, page[|page| - 1]);
      page + Walk(ids, page[|page| - 1], limit)
  }

  lemma NextIsSmaller(ids: set<nat>, before: nat, next: nat)
    requires 0 !in ids && next in Below(ids, before)
    ensures |Below(ids, next)| < |Below(ids, before)|
  {
    assert Below(ids, next) <= Below(ids, before) - {next};
    Sets.SubsetSize(Below(ids, next), Below(ids, before) - {next});
  }

  /** On an unchanged index, walking by the last identity visits every matching item once, largest
      first, for any limit. */
  lemma {:induction false} WalkVisitsAllOnce(ids: set<nat>, before: nat, limit: int)
    requires 0 !in ids
    ensures Walk(ids, before, limit) == Descending(Below(ids, before))
    decreases |Below(ids, before)|
  {
    hide Descending, Below, Clamp;
    var all := Descending(Below(ids, before));
    var page := Page(ids, before, limit);
    DescendingIs(Below(ids, before));
    if page != [] {
      var last := page[|page| - 1];
      assert last in all;
      NextIsSmaller(ids, before, last);
      WalkVisitsAllOnce(ids, last, limit);
      PageThenRest(ids, before, limit);
    } else {
      assert all == [];
    }
  }

  /** A page, and what its last identity lets through, make up the whole. */
  lemma PageThenRest(ids: set<nat>, before: nat, limit: int)
    requires 0 !in ids && Page(ids, before, limit) != []
    ensures var page := Page(ids, before, limit);
            page + Descending(Below(ids, page[|page| - 1])) == Descending(Below(ids, before))
  {
    hide Descending, Below;
    var all := Descending(Below(ids, before));
    var n := Clamp(limit);
    if |all| > n {
      PageRest(ids, before, n);
      assert all[..n] + all[n..] == all;
    } else {
      NothingBelowTheLast(ids, before);
      assert all + [] == all;
    }
  }

  lemma NothingBelowTheLast(ids: set<nat>, before: nat)
    requires 0 !in ids && Descending(Below(ids, before)) != []
    ensures var all := Descending(Below(ids, before)); Descending(Below(ids, all[|all| - 1])) == []
  {
    var all := Descending(Below(ids, before));
    DescendingIs(Below(ids, before));
    var last := all[|all| - 1];
    assert last in all;
    hide Descending;
    forall x | x in all ensures x >= last {
      var i :| 0 <= i < |all| && all[i] == x;
    }
    assert Below(ids, last) <= Below(ids, before);
    assert Below(ids, last) == {};
    DescendingIs({});
  }

  // ---- ListLeases ----

  /** ListLeases: one item more than the page is asked for, to learn whether more remain. */
  function Listed(ids: set<nat>, cursor: nat, limit: nat): (r: (seq<nat>, bool)) {
    var found := Page(ids, cursor, limit + 1);
    (First(found, limit), |found| > limit)
  }

  /** has_more is right exactly up to a limit of 199; at 200 the extra item is clamped away, and a
      client that stops at has_more == false misses everything after the first 200. */
  lemma HasMoreIsHonestIff(ids: set<nat>, cursor: nat, limit: nat)
    requires 1 <= limit <= 200
    ensures Listed(ids, cursor, limit).0 == First(Descending(Below(ids, cursor)), limit)
    ensures (Listed(ids, cursor, limit).1 <==> |Below(ids, cursor)| > limit) <==> limit <= 199 || |Below(ids, cursor)| <= limit
  {
    DescendingIs(Below(ids, cursor));
  }
}
