/** Database queries over tables kept as maps: rows in the order of an integer
    column and then the primary key, and sums of an integer column. */
module Ordered {
  import opened Basics

  predicate Before(rank: map<string, int>, a: string, b: string)
    requires a in rank && b in rank
  {
    rank[a] < rank[b] || (rank[a] == rank[b] && TextLess(a, b))
  }

  predicate IsFirst(rank: map<string, int>, ids: set<string>, m: string)
    requires ids <= rank.Keys
  {
    m in ids && forall x :: x in ids && x != m ==> Before(rank, m, x)
  }

  lemma {:induction false} FirstExists(rank: map<string, int>, ids: set<string>)
    requires ids != {} && ids <= rank.Keys
    ensures exists m :: IsFirst(rank, ids, m)
    decreases |ids|
  {
    var a :| a in ids;
    if ids == {a} {
      assert IsFirst(rank, ids, a);
    } else {
      FirstExists(rank, ids - {a});
      var m :| IsFirst(rank, ids - {a}, m);
      TextLessTotal(a, m);
      if Before(rank, a, m) {
        forall x | x in ids && x != a ensures Before(rank, a, x) {
          assert x in ids - {a};
          assert x != m ==> Before(rank, m, x);
          if x != m && rank[a] == rank[m] == rank[x] {
            TextLessTransitive(a, m, x);
          }
        }
        assert IsFirst(rank, ids, a);
      } else {
        assert IsFirst(rank, ids, m);
      }
    }
  }

  lemma FirstIsUnique(rank: map<string, int>, ids: set<string>, a: string, b: string)
    requires ids <= rank.Keys && IsFirst(rank, ids, a) && IsFirst(rank, ids, b)
    ensures a == b
  {
    TextLessTotal(a, b);
  }

  function First(rank: map<string, int>, ids: set<string>): (m: string)
    requires ids != {} && ids <= rank.Keys
    ensures IsFirst(rank, ids, m)
  {
    FirstExists(rank, ids);
    assert forall a, b :: IsFirst(rank, ids, a) && IsFirst(rank, ids, b) ==> a == b by {
      forall a, b | IsFirst(rank, ids, a) && IsFirst(rank, ids, b) ensures a == b {
        FirstIsUnique(rank, ids, a, b);
      }
    }
    var m :| m in ids && IsFirst(rank, ids, m);
    m
  }

  /** `SELECT ... ORDER BY rank, id` */
  function SortBy(rank: map<string, int>, ids: set<string>): (r: seq<string>)
    requires ids <= rank.Keys
    ensures forall k :: k in r <==> k in ids
    decreases |ids|
  {
    if ids == {} then [] else [First(rank, ids)] + SortBy(rank, ids - {First(rank, ids)})
  }

  ghost predicate IsSorted(rank: map<string, int>, s: seq<string>) {
    && (forall i :: 0 <= i < |s| ==> s[i] in rank)
    && (forall i, j :: 0 <= i < j < |s| ==> Before(rank, s[i], s[j]))
  }

  lemma {:induction false} SortBySorts(rank: map<string, int>, ids: set<string>)
    requires ids <= rank.Keys
    ensures IsSorted(rank, SortBy(rank, ids)) && |SortBy(rank, ids)| == |ids|
    decreases |ids|
  {
    if ids == {} {
    } else {
      var m := First(rank, ids);
      var rest := SortBy(rank, ids - {m});
      SortBySorts(rank, ids - {m});
      forall j | 0 <= j < |rest| ensures Before(rank, m, rest[j]) {
        assert rest[j] in rest;
      }
    }
  }

  lemma SortedIsDistinct(rank: map<string, int>, s: seq<string>)
    requires IsSorted(rank, s)
    ensures forall i, j :: 0 <= i < j < |s| ==> s[i] != s[j]
  {
    forall i, j | 0 <= i < j < |s| ensures s[i] != s[j] {
      TextLessTotal(s[i], s[i]);
    }
  }

  // ----- Sums -----

  ghost function SumOver(size: map<string, int>, ids: set<string>): int
    requires ids <= size.Keys
    decreases |ids|
  {
    if ids == {} then 0
    else
      var a :| a in ids;
      size[a] + SumOver(size, ids - {a})
  }

  /** The sum does not depend on the order in which rows are visited. */
  lemma {:induction false} SumRemoves(size: map<string, int>, ids: set<string>, x: string)
    requires ids <= size.Keys && x in ids
    ensures SumOver(size, ids) == size[x] + SumOver(size, ids - {x})
    decreases |ids|
  {
    var a :| a in ids && SumOver(size, ids) == size[a] + SumOver(size, ids - {a});
    if a == x {
    } else {
      SumRemoves(size, ids - {a}, x);
      SumRemoves(size, ids - {x}, a);
      assert ids - {a} - {x} == ids - {x} - {a};
    }
  }

  lemma {:induction false} SumAgrees(size: map<string, int>, other: map<string, int>, ids: set<string>)
    requires ids <= size.Keys && ids <= other.Keys
    requires forall k :: k in ids ==> size[k] == other[k]
    ensures SumOver(size, ids) == SumOver(other, ids)
    decreases |ids|
  {
    if ids == {} {
    } else {
      var a :| a in ids;
      SumRemoves(size, ids, a);
      SumRemoves(other, ids, a);
      SumAgrees(size, other, ids - {a});
    }
  }

  lemma {:induction false} SumOfSubset(size: map<string, int>, part: set<string>, ids: set<string>)
    requires part <= ids <= size.Keys
    requires forall k :: k in ids ==> size[k] >= 0
    ensures SumOver(size, part) <= SumOver(size, ids)
    decreases |ids|
  {
    if x :| x in ids && x !in part {
      SumRemoves(size, ids, x);
      SumOfSubset(size, part, ids - {x});
    } else {
      assert part == ids;
    }
  }

  /** `SELECT SUM(size)` */
  function Sum(size: map<string, int>, s: seq<string>): int
    requires forall i :: 0 <= i < |s| ==> s[i] in size
  {
    if s == [] then 0 else size[s[0]] + Sum(size, s[1..])
  }

  lemma {:induction false} SumOfSorted(rank: map<string, int>, size: map<string, int>, ids: set<string>)
    requires ids <= rank.Keys && ids <= size.Keys
    ensures Sum(size, SortBy(rank, ids)) == SumOver(size, ids)
    decreases |ids|
  {
    if ids == {} {
    } else {
      var m := First(rank, ids);
      SumOfSorted(rank, size, ids - {m});
      SumRemoves(size, ids, m);
      assert SortBy(rank, ids)[1..] == SortBy(rank, ids - {m});
    }
  }
}
