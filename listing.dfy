/** The orders in which the queries return rows. A table is a map from id
    to row; every id is below a bound (the store's id counter), so a table
    can be scanned in primary-key order. */
module Listing {
  import opened Values

  /** The ids of `m` below `n`, ascending: a scan in primary-key order. */
  function KeysBelow<V>(m: map<nat, V>, n: nat): (r: seq<nat>)
    ensures forall k :: k in r <==> k in m && k < n
    ensures Ascending(r)
  {
    if n == 0 then []
    else
      var prev := KeysBelow(m, n - 1);
      assert forall i :: 0 <= i < |prev| ==> prev[i] in prev;
      assert forall i :: 0 <= i < |prev| ==> prev[i] < n - 1;
      prev + (if n - 1 in m then [n - 1] else [])
  }

  /** `.filter(...)` over a list of ids, keeping their order. */
  function Select(ids: seq<nat>, keep: nat -> bool): (r: seq<nat>)
    ensures forall k :: k in r <==> k in ids && keep(k)
    ensures |r| <= |ids|
    ensures r == [] <==> forall k :: k in ids ==> !keep(k)
  {
    if ids == [] then []
    else
      var rest := Select(ids[1..], keep);
      assert forall k :: k in ids[1..] ==> k in ids;
      if keep(ids[0]) then [ids[0]] + rest else rest
  }

  predicate Ascending(s: seq<nat>) {
    forall i, j :: 0 <= i < j < |s| ==> s[i] < s[j]
  }

  /** Filtering a list in primary-key order leaves it in primary-key order. */
  lemma {:induction false} SelectAscending(ids: seq<nat>, keep: nat -> bool)
    requires Ascending(ids)
    ensures Ascending(Select(ids, keep))
  {
    if ids != [] {
      var rest := Select(ids[1..], keep);
      SelectAscending(ids[1..], keep);
      forall j | 0 <= j < |rest|
        ensures ids[0] < rest[j]
      {
        assert rest[j] in ids[1..];
        var l :| 0 <= l < |ids[1..]| && ids[1..][l] == rest[j];
        assert ids[l + 1] == rest[j];
      }
    }
  }

  /** `.filter(...).first()` with no ORDER BY: the model takes the row with
      the lowest id among those below `n` that satisfy `p`. */
  function FirstWhere<V>(m: map<nat, V>, p: V -> bool, n: nat): (r: Option<nat>)
    ensures r.Some? ==> r.value in m && r.value < n && p(m[r.value])
    ensures r.Some? ==> forall k :: k in m && k < r.value ==> !p(m[k])
    ensures r.None? ==> forall k :: k in m && k < n ==> !p(m[k])
  {
    if n == 0 then None
    else
      match FirstWhere(m, p, n - 1)
      case Some(k) => Some(k)
      case None => if n - 1 in m && p(m[n - 1]) then Some(n - 1) else None
  }

  /** Newest first: the creation time never increases along the list. */
  predicate NewestFirst(s: seq<nat>, created: nat -> nat) {
    forall i, j :: 0 <= i < j < |s| ==> created(s[i]) >= created(s[j])
  }

  function Insert(x: nat, s: seq<nat>, created: nat -> nat): (r: seq<nat>)
    ensures multiset(r) == multiset(s) + multiset{x}
  {
    if s == [] then [x]
    else if created(x) >= created(s[0]) then [x] + s
    else
      assert s == [s[0]] + s[1..];
      [s[0]] + Insert(x, s[1..], created)
  }

  lemma {:induction false} InsertNewestFirst(x: nat, s: seq<nat>, created: nat -> nat)
    requires NewestFirst(s, created)
    ensures NewestFirst(Insert(x, s, created), created)
  {
    if s != [] && created(x) < created(s[0]) {
      var rest := Insert(x, s[1..], created);
      InsertNewestFirst(x, s[1..], created);
      forall j | 0 <= j < |rest|
        ensures created(s[0]) >= created(rest[j])
      {
        assert rest[j] in multiset(rest);
        assert rest[j] == x || rest[j] in multiset(s[1..]);
        if rest[j] != x {
          var l :| 0 <= l < |s[1..]| && s[1..][l] == rest[j];
          assert s[l + 1] == rest[j];
        }
      }
    }
  }

  /** `.order_by(created_at.desc())`: the same ids, newest first. */
  function SortNewestFirst(s: seq<nat>, created: nat -> nat): (r: seq<nat>)
    ensures multiset(r) == multiset(s)
    ensures NewestFirst(r, created)
  {
    if s == [] then []
    else
      assert s == [s[0]] + s[1..];
      var rest := SortNewestFirst(s[1..], created);
      InsertNewestFirst(s[0], rest, created);
      Insert(s[0], rest, created)
  }

  /** Sorting keeps exactly the ids it is given. */
  lemma SortedSameIds(s: seq<nat>, created: nat -> nat)
    ensures forall k :: k in SortNewestFirst(s, created) <==> k in s
  {
    var r := SortNewestFirst(s, created);
    forall k
      ensures k in r <==> k in s
    {
      assert k in r <==> k in multiset(r);
      assert k in s <==> k in multiset(s);
    }
  }

  /** No id occurs twice. */
  predicate Distinct(s: seq<nat>) {
    forall i, j :: 0 <= i < j < |s| ==> s[i] != s[j]
  }

  /** A list of distinct ids stays a list of distinct ids when sorted. */
  lemma SortedDistinct(s: seq<nat>, created: nat -> nat)
    requires Distinct(s)
    ensures Distinct(SortNewestFirst(s, created))
  {
    var r := SortNewestFirst(s, created);
    DistinctIffMultiplicityOne(s);
    DistinctIffMultiplicityOne(r);
  }

  lemma {:induction false} DistinctIffMultiplicityOne(s: seq<nat>)
    ensures Distinct(s) <==> (forall k :: multiset(s)[k] <= 1)
  {
    if s != [] {
      DistinctIffMultiplicityOne(s[1..]);
      assert s == [s[0]] + s[1..];
      if forall i, j :: 0 <= i < j < |s| ==> s[i] != s[j] {
        forall j | 0 <= j < |s[1..]|
          ensures s[1..][j] != s[0]
        {
          assert s[1..][j] == s[j + 1];
        }
        assert s[0] !in s[1..];
        assert forall i, j :: 0 <= i < j < |s[1..]| ==> s[1..][i] != s[1..][j] by {
          forall i, j | 0 <= i < j < |s[1..]| ensures s[1..][i] != s[1..][j] {
            assert s[1..][i] == s[i + 1] && s[1..][j] == s[j + 1];
          }
        }
      }
      if forall k :: multiset(s)[k] <= 1 {
        assert multiset(s)[s[0]] == multiset(s[1..])[s[0]] + 1;
        assert forall k :: multiset(s[1..])[k] <= multiset(s)[k];
        forall i, j | 0 <= i < j < |s| ensures s[i] != s[j] {
          if i == 0 {
            assert s[j] in s[1..];
          } else {
            assert s[1..][i - 1] == s[i] && s[1..][j - 1] == s[j];
          }
        }
      }
    }
  }

  /** A list of distinct ids all found in another list of distinct ids is no longer than it. */
  lemma DistinctSubsetShorter(a: seq<nat>, b: seq<nat>)
    requires Distinct(a) && Distinct(b)
    requires forall k :: k in a ==> k in b
    ensures |a| <= |b|
  {
    DistinctIffMultiplicityOne(a);
    DistinctIffMultiplicityOne(b);
    var ma := multiset(a);
    var mb := multiset(b);
    forall k
      ensures ma[k] <= mb[k]
    {
      if k in a {
        assert k in mb;
      }
    }
    SubMultisetSmaller(ma, mb);
  }

  lemma {:induction false} SubMultisetSmaller(m: multiset<nat>, big: multiset<nat>)
    requires m <= big
    ensures |m| <= |big|
    decreases |m|
  {
    if m != multiset{} {
      var x :| x in m;
      SubMultisetSmaller(m - multiset{x}, big - multiset{x});
    }
  }
}
