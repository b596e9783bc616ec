/**
  Shutting down: every IA in a normal state that has addresses is released, batch by batch
  (`shutdown` in ClntTransMgr/ClntTransMgr.cpp, ClntMessages/ClntMsgRelease.cpp).
 */
module Shutdown {
  import opened Containers
  import opened Leases

  /** The IAs that are released; the others are only forgotten. */
  predicate Eligible(ia: IA) {
    (ia.state == Configured || ia.state == InProcess) && ia.leases != []
  }

  /** Those of a list that are. */
  function ToRelease(ias: seq<IA>): seq<IA> {
    Filter(ias, x => Eligible(x))
  }

  /** One RELEASE serves one server, told by its DUID, on one interface. */
  predicate SameBatch(a: IA, b: IA) {
    a.server.Some? && b.server.Some? && a.server.value.duid == b.server.value.duid && a.iface == b.iface
  }

  predicate DistinctIaids(ias: seq<IA>) {
    forall i, j :: 0 <= i < j < |ias| ==> ias[i].iaid != ias[j].iaid
  }

  /** Every IA knows its server. */
  predicate Served(ias: seq<IA>) {
    forall x :: x in ias ==> x.server.Some?
  }

  /** The IAs that go with `h`, and those that do not, in the order of the list. */
  function With(ias: seq<IA>, h: IA): seq<IA> {
    Filter(ias, x => SameBatch(h, x))
  }

  function Without(ias: seq<IA>, h: IA): seq<IA> {
    Filter(ias, x => !SameBatch(h, x))
  }

  lemma {:induction false} WithoutShorter(ias: seq<IA>, h: IA)
    ensures |Without(ias, h)| + |With(ias, h)| == |ias|
  {
    if ias != [] {
      WithoutShorter(ias[..|ias| - 1], h);
    }
  }

  lemma HeadIsIn(ias: seq<IA>)
    requires ias != [] && ias[0].server.Some?
    ensures ias[0] in With(ias, ias[0]) && |Without(ias, ias[0])| < |ias|
  {
    WithoutShorter(ias, ias[0]);
  }

  /** The batches in the order of their RELEASE messages. */
  function Batches(ias: seq<IA>): (r: seq<seq<IA>>)
    requires Served(ias)
    decreases |ias|
  {
    if ias == [] then []
    else
      HeadIsIn(ias);
      [With(ias, ias[0])] + Batches(Without(ias, ias[0]))
  }

  // ---- the batches are the equivalence classes ----------------------------------------------------------

  /** How often an IA occurs in the batches. */
  function InBatches(batches: seq<seq<IA>>, x: IA): nat {
    if batches == [] then 0 else multiset(batches[0])[x] + InBatches(batches[1..], x)
  }

  /** Every IA is in exactly as many batches as it is on the list: one. */
  lemma {:induction false} BatchesPartition(ias: seq<IA>, x: IA)
    requires Served(ias)
    ensures InBatches(Batches(ias), x) == multiset(ias)[x]
    decreases |ias|
  {
    if ias != [] {
      var h := ias[0];
      HeadIsIn(ias);
      BatchesPartition(Without(ias, h), x);
      FilterCount(ias, x => SameBatch(h, x), x);
      FilterCount(ias, x => !SameBatch(h, x), x);
    }
  }

  lemma {:induction false} HeadStays(ias: seq<IA>)
    requires ias != [] && ias[0].server.Some?
    ensures var b := With(ias, ias[0]);
            b != [] && b[0] == ias[0]
  {
    if |ias| > 1 {
      HeadStays(ias[..|ias| - 1]);
    } else {
      assert ias == [] + [ias[0]];
      FilterSnoc([], ias[0], x => SameBatch(ias[0], x));
    }
  }

  /** Taking out one class leaves the others as they are. */
  lemma {:induction false} OtherClass(ias: seq<IA>, h: IA, g: IA)
    requires h.server.Some? && g.server.Some? && !SameBatch(h, g)
    ensures With(Without(ias, h), g) == With(ias, g)
  {
    if ias != [] {
      var front, last := ias[..|ias| - 1], ias[|ias| - 1];
      OtherClass(front, h, g);
      FilterSnoc(Without(front, h), last, x => SameBatch(g, x));
    }
  }

  /** A batch is not empty and lists, in the order of the database, all IAs of its server on its
      interface. */
  lemma {:induction false} BatchIsClass(ias: seq<IA>, j: nat)
    requires Served(ias) && j < |Batches(ias)|
    ensures var b := Batches(ias)[j];
            b != [] && b[0] in ias && b == With(ias, b[0])
    decreases |ias|
  {
    var h := ias[0];
    HeadIsIn(ias);
    if j == 0 {
      HeadStays(ias);
    } else {
      var rest := Without(ias, h);
      assert Batches(ias)[j] == Batches(rest)[j - 1];
      BatchIsClass(rest, j - 1);
      OtherClass(ias, h, Batches(rest)[j - 1][0]);
    }
  }

  /** Two IAs are in the same batch exactly when server and interface are the same. */
  lemma BatchesAreClasses(ias: seq<IA>, x: IA, y: IA, j: nat)
    requires Served(ias) && y in ias && j < |Batches(ias)| && x in Batches(ias)[j]
    ensures y in Batches(ias)[j] <==> SameBatch(x, y)
  {
    BatchIsClass(ias, j);
  }

  // ---- the loops ------------------------------------------------------------------------------------------

  /** Index of the first IA of that identifier. */
  lemma RemovedByIaid(ias: seq<IA>, k: nat)
    requires k < |ias| && DistinctIaids(ias)
    ensures DistinctIaids(RemoveAt(ias, k))
  {
  }

  /** `delIA`: erases the IA of that identifier; the cursor restarts. `k` is where it is. */
  method DelIA(lst: Container<IA>, iaid: Iaid, ghost k: nat)
    requires lst.Valid() && DistinctIaids(lst.items) && k < |lst.items| && lst.items[k].iaid == iaid
    modifies lst
    ensures lst.Valid() && lst.cursor == 0 && lst.items == RemoveAt(old(lst.items), k)
  {
    lst.First();
    while true
      invariant lst.Valid() && lst.items == old(lst.items) && lst.cursor <= k
      decreases |lst.items| - lst.cursor
    {
      var ia := lst.Get();
      if ia.Some? && ia.value.iaid == iaid {
        lst.Del();
        return;
      }
    }
  }

  /** The first loop of `shutdown`: every deletion restarts the cursor. */
  method DropIneligible(lst: Container<IA>)
    requires lst.Valid() && DistinctIaids(lst.items)
    modifies lst
    ensures lst.Valid() && lst.items == ToRelease(old(lst.items)) && DistinctIaids(lst.items)
  {
    ghost var goal := ToRelease(lst.items);
    lst.First();
    while true
      invariant lst.Valid() && DistinctIaids(lst.items) && ToRelease(lst.items) == goal
      invariant forall j :: 0 <= j < lst.cursor ==> Eligible(lst.items[j])
      decreases |lst.items|, |lst.items| - lst.cursor
    {
      var ia := lst.Get();
      if ia.None? {
        break;
      }
      if !Eligible(ia.value) {
        ghost var k := lst.cursor - 1;
        FilterRemoveAt(lst.items, k, x => Eligible(x));
        RemovedByIaid(lst.items, k);
        DelIA(lst, ia.value.iaid, k);
      }
    }
    FilterAll(lst.items, x => Eligible(x));
  }

  /** Where the search for IAs like `h` stands: `batch` holds those taken off the list so far, and
      those before the cursor are not like `h`. */
  ghost predicate Collecting(lst: Container<IA>, batch: seq<IA>, h: IA, all: seq<IA>)
    reads lst
  {
    lst.Valid() && DistinctIaids(lst.items) &&
    Without(lst.items, h) == Without(all, h) && batch + With(lst.items, h) == With(all, h) &&
    forall j :: 0 <= j < lst.cursor ==> !SameBatch(h, lst.items[j])
  }

  /** An IA like `h` under the cursor, with none before it, is the next of the batch. */
  lemma TakeNext(items: seq<IA>, k: nat, h: IA)
    requires k < |items| && SameBatch(h, items[k]) && forall j :: 0 <= j < k ==> !SameBatch(h, items[j])
    ensures With(items, h) == [items[k]] + With(RemoveAt(items, k), h)
  {
    FilterFirst(items[..k], items[k], items[k + 1..], y => SameBatch(h, y));
    assert items == items[..k] + [items[k]] + items[k + 1..];
  }

  /** It moves from the list to the end of the batch. */
  lemma TakeStep(items: seq<IA>, k: nat, h: IA, batch: seq<IA>)
    requires k < |items| && SameBatch(h, items[k]) && forall j :: 0 <= j < k ==> !SameBatch(h, items[j])
    ensures (batch + [items[k]]) + With(RemoveAt(items, k), h) == batch + With(items, h)
    ensures Without(RemoveAt(items, k), h) == Without(items, h)
  {
    TakeNext(items, k, h);
    FilterRemoveAt(items, k, x => !SameBatch(h, x));
    ConcatAssociative(batch, [items[k]], With(RemoveAt(items, k), h));
  }

  /** One turn of the inner loop of `shutdown`. */
  method TakeOne(lst: Container<IA>, h: IA, batch: seq<IA>, ghost all: seq<IA>) returns (more: bool, r: seq<IA>)
    requires Collecting(lst, batch, h, all)
    modifies lst
    ensures Collecting(lst, r, h, all) && (!more ==> lst.cursor == |lst.items| == |old(lst.items)|)
    ensures more ==> |lst.items| < |old(lst.items)| ||
                     (|lst.items| == |old(lst.items)| && lst.cursor == old(lst.cursor) + 1)
  {
    r := batch;
    var ia := lst.Get();
    more := ia.Some?;
    if more && SameBatch(h, ia.value) {
      ghost var items, k := lst.items, lst.cursor - 1;
      TakeStep(items, k, h, batch);
      RemovedByIaid(items, k);
      r := batch + [ia.value];
      DelIA(lst, ia.value.iaid, k);
    }
  }

  /** The first IA of the list opens the batch. */
  method OpenBatch(lst: Container<IA>) returns (h: IA)
    requires lst.Valid() && DistinctIaids(lst.items) && Served(lst.items) && lst.items != []
    modifies lst
    ensures h == old(lst.items)[0] && Collecting(lst, [h], h, old(lst.items))
  {
    ghost var all := lst.items;
    lst.First();
    var first := lst.Get();
    h := first.value;
    TakeNext(all, 0, h);
    FilterRemoveAt(all, 0, x => !SameBatch(h, x));
    RemovedByIaid(all, 0);
    DelIA(lst, h.iaid, 0);
  }

  lemma Collected(lst: Container<IA>, batch: seq<IA>, h: IA, all: seq<IA>)
    requires Collecting(lst, batch, h, all) && lst.cursor == |lst.items| && Served(all)
    ensures batch == With(all, h) && lst.items == Without(all, h) && Served(lst.items)
  {
    FilterAll(lst.items, x => !SameBatch(h, x));
    FilterNone(lst.items, x => SameBatch(h, x));
  }

  /** The inner loop of `shutdown`: takes the first IA of the list and all that go with it. */
  method TakeBatch(lst: Container<IA>) returns (batch: seq<IA>)
    requires lst.Valid() && DistinctIaids(lst.items) && Served(lst.items) && lst.items != []
    modifies lst
    ensures lst.Valid() && DistinctIaids(lst.items) && Served(lst.items)
    ensures batch == With(old(lst.items), old(lst.items)[0]) && lst.items == Without(old(lst.items), old(lst.items)[0])
  {
    ghost var all := lst.items;
    var h := OpenBatch(lst);
    batch := [h];
    var more := true;
    while more
      invariant Collecting(lst, batch, h, all) && (!more ==> lst.cursor == |lst.items|)
      decreases |lst.items|, more, |lst.items| - lst.cursor
    {
      more, batch := TakeOne(lst, h, batch, all);
    }
    Collected(lst, batch, h, all);
  }

  // ---- what is left on the interfaces -------------------------------------------------------------------------

  /** How many addresses of the IAs are `x.1` on interface `x.0`. */
  function Held(ias: seq<IA>, x: (IfaceId, Ip)): nat {
    if ias == [] then 0 else Held(ias[..|ias| - 1], x) + IATags(ias[|ias| - 1])[x]
  }

  lemma HeldSnoc(ias: seq<IA>, ia: IA, x: (IfaceId, Ip))
    ensures Held(ias + [ia], x) == Held(ias, x) + IATags(ia)[x]
  {
    assert (ias + [ia])[..|ias|] == ias;
  }

  lemma {:induction false} HeldSplit(ias: seq<IA>, keep: IA -> bool, drop: IA -> bool, x: (IfaceId, Ip))
    requires forall ia :: ia in ias ==> (keep(ia) <==> !drop(ia))
    ensures Held(ias, x) == Held(Filter(ias, keep), x) + Held(Filter(ias, drop), x)
  {
    if ias != [] {
      var front, last := ias[..|ias| - 1], ias[|ias| - 1];
      HeldSplit(front, keep, drop, x);
      HeldSnoc(Filter(front, keep), last, x);
      HeldSnoc(Filter(front, drop), last, x);
    }
  }

  /** The RELEASE constructor takes the addresses of its IAs off the interface. */
  method Release(batch: seq<IA>, installed: Installed) returns (r: Installed)
    ensures forall x :: r[x] == if installed[x] >= Held(batch, x) then installed[x] - Held(batch, x) else 0
  {
    r := installed;
    for n := 0 to |batch|
      invariant forall x :: r[x] == if installed[x] >= Held(batch[..n], x) then installed[x] - Held(batch[..n], x) else 0
    {
      assert batch[..n + 1] == batch[..n] + [batch[n]];
      forall x {
        HeldSnoc(batch[..n], batch[n], x);
      }
      r := r - IATags(batch[n]);
    }
    assert batch[..|batch|] == batch;
  }

  /** One turn of the outer loop of `shutdown`. */
  method ReleaseOne(lst: Container<IA>, installed: Installed) returns (batch: seq<IA>, r: Installed)
    requires lst.Valid() && DistinctIaids(lst.items) && Served(lst.items) && lst.items != []
    modifies lst
    ensures lst.Valid() && DistinctIaids(lst.items) && Served(lst.items) && |lst.items| < |old(lst.items)|
    ensures Batches(old(lst.items)) == [batch] + Batches(lst.items)
    ensures forall x :: Taken(installed[x], r[x], Held(old(lst.items), x), Held(lst.items, x))
  {
    ghost var items := lst.items;
    HeadIsIn(items);
    batch := TakeBatch(lst);
    r := Release(batch, installed);
    forall x {
      HeldSplit(items, y => SameBatch(items[0], y), y => !SameBatch(items[0], y), x);
    }
  }

  /** An interface loses of an address what the list loses of it. */
  predicate Taken(before: nat, after: nat, listed: nat, left: nat) {
    left <= listed && after == if before >= listed - left then before - (listed - left) else 0
  }

  lemma TakenMore(a: nat, b: nat, c: nat, x: nat, y: nat, z: nat)
    requires Taken(a, b, x, y) && Taken(b, c, y, z)
    ensures Taken(a, c, x, z)
  {
  }

  ghost predicate AllTaken(before: Installed, after: Installed, listed: seq<IA>, left: seq<IA>) {
    forall x :: Taken(before[x], after[x], Held(listed, x), Held(left, x))
  }

  lemma AllTakenMore(a: Installed, b: Installed, c: Installed, x: seq<IA>, y: seq<IA>, z: seq<IA>)
    requires AllTaken(a, b, x, y) && AllTaken(b, c, y, z)
    ensures AllTaken(a, c, x, z)
  {
    forall tag
      ensures Taken(a[tag], c[tag], Held(x, tag), Held(z, tag))
    {
      TakenMore(a[tag], b[tag], c[tag], Held(x, tag), Held(y, tag), Held(z, tag));
    }
  }

  /** The loops of `shutdown`: the batches released, in order, and what stays on the interfaces. */
  method ReleaseBatches(lst: Container<IA>, installed: Installed) returns (batches: seq<seq<IA>>, r: Installed)
    requires lst.Valid() && DistinctIaids(lst.items) && Served(lst.items)
    modifies lst
    ensures lst.Valid() && lst.items == [] && batches == Batches(old(lst.items))
    ensures AllTaken(installed, r, old(lst.items), [])
  {
    ghost var all := lst.items;
    batches, r := [], installed;
    while lst.Count() > 0
      invariant lst.Valid() && DistinctIaids(lst.items) && Served(lst.items)
      invariant batches + Batches(lst.items) == Batches(all)
      invariant AllTaken(installed, r, all, lst.items)
      decreases |lst.items|
    {
      ghost var items, was, done := lst.items, r, batches;
      var batch: seq<IA>;
      batch, r := ReleaseOne(lst, r);
      batches := batches + [batch];
      ConcatAssociative(done, [batch], Batches(lst.items));
      AllTakenMore(installed, was, r, all, items, lst.items);
    }
  }

  /** `shutdown` */
  method ReleaseAll(lst: Container<IA>, installed: Installed) returns (batches: seq<seq<IA>>, r: Installed)
    requires lst.Valid() && DistinctIaids(lst.items) && Served(ToRelease(lst.items))
    modifies lst
    ensures lst.Valid() && lst.items == [] && batches == Batches(ToRelease(old(lst.items)))
    ensures forall x :: Taken(installed[x], r[x], Held(ToRelease(old(lst.items)), x), 0)
  {
    DropIneligible(lst);
    ghost var all := lst.items;
    batches, r := ReleaseBatches(lst, installed);
    forall x
      ensures Taken(installed[x], r[x], Held(all, x), 0)
    {
      assert Taken(installed[x], r[x], Held(all, x), Held([], x));
    }
  }

  /** The IAs that are forgotten instead. */
  function PassedOver(ias: seq<IA>): seq<IA> {
    Filter(ias, y => !Eligible(y))
  }

  /** If database and interfaces agreed before, the interfaces keep exactly the addresses of the IAs
      that are passed over. */
  lemma LeftBehind(ias: seq<IA>, before: Installed, after: Installed, x: (IfaceId, Ip))
    requires before[x] == Held(ias, x) && Taken(before[x], after[x], Held(ToRelease(ias), x), 0)
    ensures after[x] == Held(PassedOver(ias), x)
  {
    HeldSplit(ias, x => Eligible(x), y => !Eligible(y), x);
  }

  /** They are clean exactly when none of these had addresses. */
  lemma CleanIff(ias: seq<IA>, after: Installed)
    requires forall x :: after[x] == Held(PassedOver(ias), x)
    ensures after == multiset{} <==> forall ia :: ia in ias && !Eligible(ia) ==> ia.leases == []
  {
    var over := PassedOver(ias);
    if forall ia :: ia in over ==> ia.leases == [] {
      forall x
        ensures after[x] == 0
      {
        NothingHeld(over, x);
      }
    } else {
      var ia :| ia in over && ia.leases != [];
      var x := (ia.iface, ia.leases[0].addr);
      assert Tags(ia.iface, ia.leases)[0] == x;
      SomethingHeld(over, ia, x);
      assert x in after;
    }
  }

  lemma {:induction false} NothingHeld(ias: seq<IA>, x: (IfaceId, Ip))
    requires forall ia :: ia in ias ==> ia.leases == []
    ensures Held(ias, x) == 0
  {
    if ias != [] {
      NothingHeld(ias[..|ias| - 1], x);
      assert Tags(ias[|ias| - 1].iface, []) == [];
    }
  }

  lemma {:induction false} SomethingHeld(ias: seq<IA>, ia: IA, x: (IfaceId, Ip))
    requires ia in ias && x in IATags(ia)
    ensures Held(ias, x) > 0
  {
    if ia != ias[|ias| - 1] {
      SomethingHeld(ias[..|ias| - 1], ia, x);
    }
  }
}
