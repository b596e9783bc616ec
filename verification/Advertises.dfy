/**
  The list of received ADVERTISE messages and its ordering by server preference
  (ClntTransMgr/ClntTransMgr.cpp).
 */
module Advertises {
  import opened Containers
  import opened Leases

  /** What a client keeps of an ADVERTISE: the server's preference (0 when absent) and identity. */
  datatype Advert = Advert(pref: nat, server: Server)

  function MaxPref(ads: seq<Advert>): nat {
    MaxOver(ads, (a: Advert) => a.pref)
  }

  /** Index of the first advertisement with preference `p`, or -1. */
  function FirstWith(ads: seq<Advert>, p: nat): (k: int)
    ensures -1 <= k < |ads|
    ensures k >= 0 ==> ads[k].pref == p && forall j :: 0 <= j < k ==> ads[j].pref != p
    ensures k < 0 ==> forall j :: 0 <= j < |ads| ==> ads[j].pref != p
  {
    if ads == [] then -1
    else
      var k := FirstWith(ads[..|ads| - 1], p);
      if k >= 0 then k else if ads[|ads| - 1].pref == p then |ads| - 1 else -1
  }

  /** The greatest preference is present, which is what makes the sorting loop terminate. */
  lemma MaxPrefPresent(ads: seq<Advert>)
    requires ads != []
    ensures FirstWith(ads, MaxPref(ads)) >= 0
  {
    var m := MaxPref(ads);
    assert ads[0] in ads && ads[0].pref <= m;
    if m != 0 {
      var a :| a in ads && m == a.pref;
      var j :| 0 <= j < |ads| && ads[j] == a;
    }
  }

  /** Repeatedly takes the first advertisement of the greatest preference. */
  function SortByPreference(ads: seq<Advert>): (r: seq<Advert>)
    ensures |r| == |ads| && (r == [] <==> ads == [])
    decreases |ads|
  {
    if ads == [] then []
    else
      MaxPrefPresent(ads);
      var k := FirstWith(ads, MaxPref(ads));
      [ads[k]] + SortByPreference(RemoveAt(ads, k))
  }

  lemma MaxPrefSnoc(ads: seq<Advert>, n: nat)
    requires n < |ads|
    ensures MaxPref(ads[..n + 1]) == Max(MaxPref(ads[..n]), ads[n].pref)
  {
    MaxOverSnoc(ads, n, (a: Advert) => a.pref);
  }

  /** `getMaxPreference`: -1 for an empty list. */
  method GetMaxPreference(lst: Container<Advert>) returns (max: int)
    requires lst.Valid()
    modifies lst
    ensures lst.Valid() && lst.items == old(lst.items)
    ensures max == if lst.items == [] then -1 else MaxPref(lst.items)
  {
    if lst.Count() == 0 {
      return -1;
    }
    ghost var items := lst.items;
    max := 0;
    lst.First();
    while true
      invariant lst.Valid() && lst.items == items && max == MaxPref(items[..lst.cursor])
      decreases |items| - lst.cursor
    {
      var a := lst.Get();
      if a.None? {
        break;
      }
      MaxPrefSnoc(items, lst.cursor - 1);
      if max < a.value.pref {
        max := a.value.pref;
      }
    }
    assert items[..|items|] == items;
  }

  /** The search of the sorting loop: the cursor stops behind the first match. */
  method FindPreference(lst: Container<Advert>, p: int) returns (a: Option<Advert>)
    requires lst.Valid()
    modifies lst
    ensures lst.Valid() && lst.items == old(lst.items)
    ensures a.None? ==> forall j :: 0 <= j < |lst.items| ==> lst.items[j].pref != p
    ensures a.Some? ==> 0 < lst.cursor && a.value == lst.items[lst.cursor - 1] && a.value.pref == p &&
                        forall j :: 0 <= j < lst.cursor - 1 ==> lst.items[j].pref != p
  {
    lst.First();
    while true
      invariant lst.Valid() && lst.items == old(lst.items)
      invariant forall j :: 0 <= j < lst.cursor ==> lst.items[j].pref != p
      decreases |lst.items| - lst.cursor
    {
      a := lst.Get();
      if a.None? || a.value.pref == p {
        return;
      }
    }
  }

  lemma BestExists(ads: seq<Advert>)
    requires ads != []
    ensures exists j :: 0 <= j < |ads| && ads[j].pref == MaxPref(ads)
  {
    MaxPrefPresent(ads);
  }

  /** The sorting loop is on its way to `goal`. */
  ghost predicate Sorting(sorted: seq<Advert>, rest: seq<Advert>, goal: seq<Advert>) {
    sorted + SortByPreference(rest) == goal
  }

  lemma BestMoves(sorted: seq<Advert>, ads: seq<Advert>, k: nat, goal: seq<Advert>)
    requires k < |ads| && ads[k].pref == MaxPref(ads) && forall j :: 0 <= j < k ==> ads[j].pref != MaxPref(ads)
    requires Sorting(sorted, ads, goal)
    ensures Sorting(sorted + [ads[k]], RemoveAt(ads, k), goal)
  {
    MaxPrefPresent(ads);
    assert FirstWith(ads, MaxPref(ads)) == k;
    ConcatAssociative(sorted, [ads[k]], SortByPreference(RemoveAt(ads, k)));
  }

  /** One round of the sorting loop: the first best advertisement moves to the sorted list. */
  method MoveBest(lst: Container<Advert>, sorted: Container<Advert>, ghost goal: seq<Advert>)
    requires lst.Valid() && sorted.Valid() && lst != sorted && lst.items != []
    requires Sorting(sorted.items, lst.items, goal)
    modifies lst, sorted
    ensures lst.Valid() && sorted.Valid() && |lst.items| < |old(lst.items)|
    ensures Sorting(sorted.items, lst.items, goal)
  {
    var max := GetMaxPreference(lst);
    BestExists(lst.items);
    var a := FindPreference(lst, max);
    if a.Some? {
      BestMoves(sorted.items, lst.items, lst.cursor - 1, goal);
      sorted.Append(a.value);
      lst.Del();
    }
  }

  /** `sortAdvertiseLst` */
  method SortAdvertiseLst(lst: Container<Advert>)
    requires lst.Valid()
    modifies lst
    ensures lst.Valid() && lst.items == SortByPreference(old(lst.items))
  {
    ghost var goal := SortByPreference(lst.items);
    var sorted := new Container<Advert>([]);
    while lst.Count() > 0
      invariant lst.Valid() && sorted.Valid() && fresh(sorted)
      invariant Sorting(sorted.items, lst.items, goal)
      decreases |lst.items|
    {
      MoveBest(lst, sorted, goal);
    }
    lst.Assign(sorted.items);
  }

  // ---- what the order is -----------------------------------------------------------------------

  predicate Descending(ads: seq<Advert>) {
    forall i, j :: 0 <= i < j < |ads| ==> ads[i].pref >= ads[j].pref
  }

  function OfPref(ads: seq<Advert>, p: nat): seq<Advert> {
    Filter(ads, (a: Advert) => a.pref == p)
  }

  /** The result holds the same advertisements, in non-increasing preference. */
  lemma {:induction false} SortIsDescending(ads: seq<Advert>)
    ensures multiset(SortByPreference(ads)) == multiset(ads)
    ensures Descending(SortByPreference(ads))
    decreases |ads|
  {
    if ads != [] {
      MaxPrefPresent(ads);
      var k := FirstWith(ads, MaxPref(ads));
      SortIsDescending(RemoveAt(ads, k));
      PrependBest(ads, k, SortByPreference(RemoveAt(ads, k)));
    }
  }

  lemma PrependBest(ads: seq<Advert>, k: nat, rest: seq<Advert>)
    requires k < |ads| && ads[k].pref == MaxPref(ads)
    requires multiset(rest) == multiset(RemoveAt(ads, k)) && Descending(rest)
    ensures multiset([ads[k]] + rest) == multiset(ads) && Descending([ads[k]] + rest)
  {
    RemoveAtCount(ads, k);
    assert ads[k] in multiset(ads);
    assert multiset([ads[k]] + rest) == multiset{ads[k]} + multiset(rest);
    forall i | 0 <= i < |rest|
      ensures rest[i].pref <= ads[k].pref
    {
      assert rest[i] in multiset(rest);
      assert rest[i] in multiset(ads);
      assert rest[i] in ads;
    }
  }

  /** Advertisements of equal preference keep their order. */
  lemma {:induction false} SortIsStable(ads: seq<Advert>, p: nat)
    ensures OfPref(SortByPreference(ads), p) == OfPref(ads, p)
    decreases |ads|
  {
    if ads != [] {
      MaxPrefPresent(ads);
      var k := FirstWith(ads, MaxPref(ads));
      var rest := RemoveAt(ads, k);
      SortIsStable(rest, p);
      FilterConcat([ads[k]], SortByPreference(rest), (a: Advert) => a.pref == p);
      FilterSnoc([], ads[k], (a: Advert) => a.pref == p);
      if ads[k].pref == p {
        FirstMovesToFront(ads, k, p);
      } else {
        FilterRemoveAt(ads, k, (a: Advert) => a.pref == p);
      }
    }
  }

  /** Taking out the first match leaves the other matches in order. */
  lemma FirstMovesToFront(ads: seq<Advert>, k: nat, p: nat)
    requires k < |ads| && ads[k].pref == p && forall j :: 0 <= j < k ==> ads[j].pref != p
    ensures OfPref(ads, p) == [ads[k]] + OfPref(RemoveAt(ads, k), p)
  {
    var keep := (a: Advert) => a.pref == p;
    var before, after := ads[..k], ads[k + 1..];
    FilterNone(before, keep);
    assert ads == before + ([ads[k]] + after);
    FilterConcat(before, [ads[k]] + after, keep);
    FilterConcat([ads[k]], after, keep);
    FilterSnoc([], ads[k], keep);
    FilterConcat(before, after, keep);
    assert Filter(ads, keep) == [ads[k]] + Filter(after, keep);
    assert Filter(RemoveAt(ads, k), keep) == Filter(after, keep);
  }

  lemma LastIsLeast(a: seq<Advert>, x: Advert)
    requires a != [] && Descending(a) && x in a
    ensures a[|a| - 1].pref <= x.pref
  {
  }

  lemma SplitLast(a: seq<Advert>, p: nat)
    requires a != []
    ensures var n := |a| - 1;
            OfPref(a, p) == if a[n].pref == p then OfPref(a[..n], p) + [a[n]] else OfPref(a[..n], p)
  {
  }

  lemma SameLast(a: seq<Advert>, b: seq<Advert>)
    requires |a| == |b| > 0 && Descending(a) && Descending(b)
    requires forall p: nat :: OfPref(a, p) == OfPref(b, p)
    ensures a[|a| - 1] == b[|b| - 1]
  {
    var x, y := a[|a| - 1], b[|b| - 1];
    SplitLast(a, x.pref);
    SplitLast(b, y.pref);
    var s, t := OfPref(a, x.pref), OfPref(b, y.pref);
    assert s[|s| - 1] == x && t[|t| - 1] == y;
    assert x in OfPref(b, x.pref) && y in OfPref(a, y.pref);
    LastIsLeast(b, x);
    LastIsLeast(a, y);
    assert s == t;
  }

  /** Order and stability determine the result. */
  lemma {:induction false} StableOrderUnique(a: seq<Advert>, b: seq<Advert>)
    requires |a| == |b| && Descending(a) && Descending(b)
    requires forall p: nat :: OfPref(a, p) == OfPref(b, p)
    ensures a == b
  {
    if a != [] {
      var n := |a| - 1;
      SameLast(a, b);
      forall p: nat
        ensures OfPref(a[..n], p) == OfPref(b[..n], p)
      {
        SplitLast(a, p);
        SplitLast(b, p);
        assert OfPref(a, p) == OfPref(b, p);
        if a[n].pref == p {
          assert OfPref(a[..n], p) == OfPref(a, p)[..|OfPref(a, p)| - 1];
          assert OfPref(b[..n], p) == OfPref(b, p)[..|OfPref(b, p)| - 1];
        }
      }
      StableOrderUnique(a[..n], b[..n]);
      assert a == a[..n] + [a[n]] && b == b[..n] + [b[n]];
    }
  }
}
