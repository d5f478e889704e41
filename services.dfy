/** The automation-service catalogue of src/lib/services.ts and its four
    lookup helpers. The catalogue is one shared array: `getPopularServices`
    sorts it in place, so every later lookup sees the new order. */
module Services {
  import opened Wrappers
  import opened Strings

  datatype Category = Marketing | Hr | Finance | Product | General

  /** The fields the helpers look at. */
  datatype Service = Service(id: string, name: string, description: string,
                             category: Category, popularity: int, tags: seq<string>)

  // ---------------------------------------------------------------------
  // Filtering
  // ---------------------------------------------------------------------

  /** `Array.prototype.filter`: the elements satisfying `p`, in order. */
  function Filter<T(!new)>(s: seq<T>, p: T -> bool): (r: seq<T>)
    ensures |r| <= |s|
    ensures forall x :: x in r <==> x in s && p(x)
  {
    if s == [] then []
    else (if p(s[0]) then [s[0]] else []) + Filter(s[1..], p)
  }

  /** Filtering a concatenation filters each part: the order of the kept
      elements is the order they had. */
  lemma {:induction false} FilterConcat<T(!new)>(s: seq<T>, t: seq<T>, p: T -> bool)
    ensures Filter(s + t, p) == Filter(s, p) + Filter(t, p)
  {
    if s == [] {
      assert s + t == t;
    } else {
      assert (s + t)[1..] == s[1..] + t;
      FilterConcat(s[1..], t, p);
    }
  }

  lemma {:induction false} FilterAll<T(!new)>(s: seq<T>, p: T -> bool)
    requires forall x :: x in s ==> p(x)
    ensures Filter(s, p) == s
  {
    if s != [] {
      FilterAll(s[1..], p);
    }
  }

  /** The number of elements kept equals the number that satisfy `p`. */
  lemma {:induction false} FilterCount<T(!new)>(s: seq<T>, p: T -> bool, x: T)
    ensures multiset(Filter(s, p))[x] == if p(x) then multiset(s)[x] else 0
  {
    if s != [] {
      FilterCount(s[1..], p, x);
      assert s == [s[0]] + s[1..];
    }
  }

  // ---------------------------------------------------------------------
  // Stable sort by popularity, highest first
  // ---------------------------------------------------------------------

  predicate SortedDesc(s: seq<Service>) {
    forall i, j :: 0 <= i < j < |s| ==> s[i].popularity >= s[j].popularity
  }

  /** Puts `x` after every element at least as popular as it. */
  function Insert(t: seq<Service>, x: Service): (r: seq<Service>)
    ensures multiset(r) == multiset(t) + multiset{x}
  {
    if t == [] then [x]
    else if t[|t| - 1].popularity >= x.popularity then t + [x]
    else
      var r := Insert(t[..|t| - 1], x) + [t[|t| - 1]];
      assert t == t[..|t| - 1] + [t[|t| - 1]];
      r
  }

  lemma {:induction false} InsertSorted(t: seq<Service>, x: Service)
    requires SortedDesc(t)
    ensures SortedDesc(Insert(t, x))
  {
    if t != [] && t[|t| - 1].popularity < x.popularity {
      var u, last := t[..|t| - 1], t[|t| - 1];
      InsertSorted(u, x);
      var v := Insert(u, x);
      forall y | y in v ensures y.popularity >= last.popularity {
        assert y in multiset(v);
        assert y in multiset(u) || y == x;
      }
      forall i, j | 0 <= i < j < |v + [last]|
        ensures (v + [last])[i].popularity >= (v + [last])[j].popularity
      {
        if j == |v| {
          assert v[i] in v;
        }
      }
    }
  }

  /** `sort((a, b) => b.popularity - a.popularity)`; the comparator sort of
      JavaScript is stable. */
  function SortByPopularity(s: seq<Service>): (r: seq<Service>)
    ensures SortedDesc(r)
    ensures multiset(r) == multiset(s)
  {
    if s == [] then []
    else
      var r := Insert(SortByPopularity(s[..|s| - 1]), s[|s| - 1]);
      InsertSorted(SortByPopularity(s[..|s| - 1]), s[|s| - 1]);
      assert s == s[..|s| - 1] + [s[|s| - 1]];
      r
  }

  function HasPopularity(p: int): Service -> bool {
    (x: Service) => x.popularity == p
  }

  lemma {:induction false} InsertStable(t: seq<Service>, x: Service, p: int)
    ensures Filter(Insert(t, x), HasPopularity(p)) ==
              Filter(t, HasPopularity(p)) + Filter([x], HasPopularity(p))
  {
    var f := HasPopularity(p);
    if t == [] {
    } else if t[|t| - 1].popularity >= x.popularity {
      FilterConcat(t, [x], f);
    } else {
      var u, last := t[..|t| - 1], t[|t| - 1];
      InsertStable(u, x, p);
      InsertPast(t, x, p);
    }
  }

  lemma InsertUnfold(t: seq<Service>, x: Service)
    requires t != [] && t[|t| - 1].popularity < x.popularity
    ensures Insert(t, x) == Insert(t[..|t| - 1], x) + [t[|t| - 1]]
  {
  }

  /** The case where `x` moves in front of the last element: at most one
      of the two can have popularity `p`, so their order does not matter
      to the filter. */
  lemma InsertPast(t: seq<Service>, x: Service, p: int)
    requires t != [] && t[|t| - 1].popularity < x.popularity
    requires var u := t[..|t| - 1];
             Filter(Insert(u, x), HasPopularity(p)) == Filter(u, HasPopularity(p)) + Filter([x], HasPopularity(p))
    ensures Filter(Insert(t, x), HasPopularity(p)) ==
              Filter(t, HasPopularity(p)) + Filter([x], HasPopularity(p))
  {
    InsertUnfold(t, x);
    var u, last := t[..|t| - 1], t[|t| - 1];
    SplitLast(t);
    FilterSwap(Insert(u, x), u, x, last, HasPopularity(p));
  }

  lemma SplitLast<T>(t: seq<T>)
    requires t != []
    ensures t == t[..|t| - 1] + [t[|t| - 1]]
  {
  }

  /** Moving `x` behind `last` does not change the filter when at most one
      of the two passes it. */
  lemma FilterSwap<T(!new)>(a: seq<T>, u: seq<T>, x: T, last: T, f: T -> bool)
    requires !(f(x) && f(last))
    requires Filter(a, f) == Filter(u, f) + Filter([x], f)
    ensures Filter(a + [last], f) == Filter(u + [last], f) + Filter([x], f)
  {
    FilterConcat(a, [last], f);
    FilterConcat(u, [last], f);
    var fa, fu, fx, fl := Filter(a, f), Filter(u, f), Filter([x], f), Filter([last], f);
    if f(x) {
      assert fl == [];
      assert fa + fl == fa && fu + fl == fu;
    } else {
      assert fx == [];
      assert fa == fu && (fu + fl) + fx == fu + fl;
    }
  }

  /** Stability: the services that share a popularity keep their relative
      order. With `SortedDesc` and the permutation this pins the result. */
  lemma {:induction false} SortStable(s: seq<Service>, p: int)
    ensures Filter(SortByPopularity(s), HasPopularity(p)) == Filter(s, HasPopularity(p))
  {
    if s != [] {
      var u, last := s[..|s| - 1], s[|s| - 1];
      assert s == u + [last];
      SortStable(u, p);
      InsertStable(SortByPopularity(u), last, p);
      FilterConcat(u, [last], HasPopularity(p));
    }
  }

  lemma {:induction false} SortKeepsSorted(s: seq<Service>)
    requires SortedDesc(s)
    ensures SortByPopularity(s) == s
  {
    if s != [] {
      var u, last := s[..|s| - 1], s[|s| - 1];
      assert s == u + [last];
      SortKeepsSorted(u);
      assert SortByPopularity(u) == u;
    }
  }

  // ---------------------------------------------------------------------
  // The helpers
  // ---------------------------------------------------------------------

  function InCategory(c: Category): Service -> bool {
    (x: Service) => x.category == c
  }

  /** `searchServices`' test on one service; `q` is already lower-cased. */
  predicate MatchesQuery(x: Service, q: string) {
    Contains(MapLower(x.name), q) || Contains(MapLower(x.description), q) ||
    exists i :: 0 <= i < |x.tags| && Contains(MapLower(x.tags[i]), q)
  }

  function Matching(q: string): Service -> bool {
    (x: Service) => MatchesQuery(x, q)
  }

  /** The empty string occurs in every string. */
  lemma ContainsEmpty(s: string)
    ensures Contains(s, "")
  {
    assert MatchAt(s, "", 0);
  }

  /** `find(service => service.id === id)`. */
  function FindById(s: seq<Service>, id: string): (r: Option<Service>)
    ensures r.None? <==> forall i :: 0 <= i < |s| ==> s[i].id != id
    ensures r.Some? ==>
              exists i :: 0 <= i < |s| && s[i] == r.value && r.value.id == id &&
                forall j :: 0 <= j < i ==> s[j].id != id
  {
    if s == [] then None
    else if s[0].id == id then Some(s[0])
    else
      var r := FindById(s[1..], id);
      assert forall j :: 1 <= j < |s| ==> s[j] == s[1..][j - 1];
      r
  }

  /** The shared `AUTOMATION_SERVICES` array. */
  class Catalogue {
    var services: seq<Service>

    constructor(initial: seq<Service>)
      ensures services == initial
    {
      services := initial;
    }

    /** Lines 329-331. */
    function ByCategory(c: Category): (r: seq<Service>)
      reads this
      ensures forall x :: x in r <==> x in services && x.category == c
    {
      Filter(services, InCategory(c))
    }

    /** Lines 334-338: the shared array is sorted in place, then the first
        four are returned. */
    method Popular() returns (r: seq<Service>)
      modifies this
      ensures services == SortByPopularity(old(services))
      ensures r == services[..if |services| < 4 then |services| else 4]
    {
      services := SortByPopularity(services);
      r := services[..if |services| < 4 then |services| else 4];
    }

    /** Lines 341-348; lower-casing covers the ASCII letters. */
    function Search(query: string): (r: seq<Service>)
      reads this
      ensures forall x :: x in r <==> x in services && MatchesQuery(x, MapLower(query))
    {
      Filter(services, Matching(MapLower(query)))
    }

    /** Lines 351-353. */
    function ById(id: string): (r: Option<Service>)
      reads this
      ensures r.Some? ==> r.value in services && r.value.id == id
      ensures r.None? <==> forall x :: x in services ==> x.id != id
    {
      FindById(services, id)
    }
  }

  /** What `Popular` returns: at most four services, highest popularity
      first, none less popular than a service left out, and all taken from
      the catalogue. */
  lemma PopularIsTop(s: seq<Service>)
    ensures var sorted := SortByPopularity(s);
            var r := sorted[..if |sorted| < 4 then |sorted| else 4];
            |r| <= 4 && |r| == (if |s| < 4 then |s| else 4) && SortedDesc(r) &&
            multiset(r) <= multiset(s) &&
            forall i, j :: 0 <= i < |r| <= j < |sorted| ==> r[i].popularity >= sorted[j].popularity
  {
    var sorted := SortByPopularity(s);
    assert |sorted| == |multiset(sorted)| == |multiset(s)| == |s|;
    var k := if |sorted| < 4 then |sorted| else 4;
    assert sorted == sorted[..k] + sorted[k..];
  }

  /** Sorting only reorders the services, so a category listing after
      `Popular` holds the same services, each as often, as the listing
      before it. */
  lemma SortPermutesCategory(s: seq<Service>, c: Category, x: Service)
    ensures multiset(Filter(SortByPopularity(s), InCategory(c)))[x] == multiset(Filter(s, InCategory(c)))[x]
  {
    FilterCount(SortByPopularity(s), InCategory(c), x);
    FilterCount(s, InCategory(c), x);
  }

  /** The empty query matches every service. */
  lemma EmptySearchIsAll(cat: Catalogue)
    ensures cat.Search("") == cat.services
  {
    forall x | x in cat.services ensures MatchesQuery(x, MapLower("")) {
      ContainsEmpty(MapLower(x.name));
    }
    FilterAll(cat.services, Matching(MapLower("")));
  }

  /** `getServiceById` returns the first service carrying the id. */
  lemma ByIdIsFirst(cat: Catalogue, id: string, i: nat)
    requires i < |cat.services| && cat.services[i].id == id
    requires forall j :: 0 <= j < i ==> cat.services[j].id != id
    ensures cat.ById(id) == Some(cat.services[i])
  {
    var r := FindById(cat.services, id);
    var k :| 0 <= k < |cat.services| && cat.services[k] == r.value && r.value.id == id &&
               forall j :: 0 <= j < k ==> cat.services[j].id != id;
    assert k == i;
  }
}
