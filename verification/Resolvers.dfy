/**
  Two loops that restart after every deletion: bringing the list of DNS servers of an interface
  in line with a received list (ClntIfaceMgr/ClntIfaceIface.cpp), and removing the options that an
  INFORMATION-REQUEST must not carry (ClntMessages/ClntMsgInfRequest.cpp).
 */
module Resolvers {
  import opened Containers
  import opened Leases

  /** The calls into the system, in order. */
  datatype Call = DnsDel(del: Ip) | DnsAdd(add: Ip)

  function Deleted(addrs: seq<Ip>): (r: seq<Call>)
    ensures |r| == |addrs| && forall j :: 0 <= j < |r| ==> r[j] == DnsDel(addrs[j])
  {
    seq(|addrs|, j requires 0 <= j < |addrs| => DnsDel(addrs[j]))
  }

  function Added(addrs: seq<Ip>): (r: seq<Call>)
    ensures |r| == |addrs| && forall j :: 0 <= j < |r| ==> r[j] == DnsAdd(addrs[j])
  {
    seq(|addrs|, j requires 0 <= j < |addrs| => DnsAdd(addrs[j]))
  }

  /** The received addresses that are not set yet, each where it occurs first. */
  function Missing(received: seq<Ip>, present: seq<Ip>): (r: seq<Ip>)
    ensures forall x :: x in r <==> x in received && x !in present
    ensures NoDup(r)
  {
    if received == [] then []
    else
      var n := |received| - 1;
      var front := Missing(received[..n], present);
      assert received == received[..n] + [received[n]];
      if received[n] in present || received[n] in front then front else front + [received[n]]
  }

  /** The addresses on the list that stay, and those that go. */
  function Staying(was: seq<Ip>, received: seq<Ip>): seq<Ip> {
    Filter(was, x => x in received)
  }

  function Stale(was: seq<Ip>, received: seq<Ip>): seq<Ip> {
    Filter(was, x => x !in received)
  }

  /** The list afterwards: what stays, in its old order, then what is missing. */
  function Reconciled(was: seq<Ip>, received: seq<Ip>): seq<Ip> {
    Staying(was, received) + Missing(received, was)
  }

  // ---- the loops ----------------------------------------------------------------------------------------

  /** The search loops: is the address on the list? */
  method Contains(lst: Container<Ip>, addr: Ip) returns (found: bool)
    requires lst.Valid()
    modifies lst
    ensures lst.Valid() && lst.items == old(lst.items) && (found <==> addr in lst.items)
  {
    lst.First();
    while true
      invariant lst.Valid() && lst.items == old(lst.items)
      invariant forall j :: 0 <= j < lst.cursor ==> lst.items[j] != addr
      decreases |lst.items| - lst.cursor
    {
      var x := lst.Get();
      if x.None? {
        return false;
      }
      if x.value == addr {
        return true;
      }
    }
  }

  /** A stale address with none before it is the next to go. */
  lemma FirstStale(items: seq<Ip>, k: nat, received: seq<Ip>)
    requires k < |items| && items[k] !in received && forall j :: 0 <= j < k ==> items[j] in received
    ensures Stale(items, received) == [items[k]] + Stale(RemoveAt(items, k), received)
  {
    FilterFirst(items[..k], items[k], items[k + 1..], x => x !in received);
    assert items == items[..k] + [items[k]] + items[k + 1..];
  }

  /** Where the first loop stands: `gone` has been deleted, and nothing before the cursor is stale. */
  ghost predicate Removing(lst: Container<Ip>, gone: seq<Ip>, was: seq<Ip>, rec: seq<Ip>)
    reads lst
  {
    lst.Valid() && Staying(lst.items, rec) == Staying(was, rec) && gone + Stale(lst.items, rec) == Stale(was, rec) &&
    forall j :: 0 <= j < lst.cursor ==> lst.items[j] in rec
  }

  /** Deletes the stale address under the cursor. */
  method DropStale(lst: Container<Ip>, ghost gone: seq<Ip>, ghost was: seq<Ip>, ghost rec: seq<Ip>)
    requires lst.Valid() && 0 < lst.cursor && lst.items[lst.cursor - 1] !in rec
    requires Staying(lst.items, rec) == Staying(was, rec) && gone + Stale(lst.items, rec) == Stale(was, rec)
    requires forall j :: 0 <= j < lst.cursor - 1 ==> lst.items[j] in rec
    modifies lst
    ensures Removing(lst, gone + [old(lst.items)[old(lst.cursor) - 1]], was, rec) && |lst.items| < |old(lst.items)|
  {
    ghost var items, k := lst.items, lst.cursor - 1;
    lst.Del();
    FilterRemoveAt(items, k, x => x in rec);
    FirstStale(items, k, rec);
    ConcatAssociative(gone, [items[k]], Stale(lst.items, rec));
  }

  lemma Removed(lst: Container<Ip>, gone: seq<Ip>, was: seq<Ip>, rec: seq<Ip>)
    requires Removing(lst, gone, was, rec) && lst.cursor == |lst.items|
    ensures lst.items == Staying(was, rec) && gone == Stale(was, rec)
  {
    FilterAll(lst.items, x => x in rec);
    FilterNone(lst.items, x => x !in rec);
  }

  lemma DeletedSnoc(addrs: seq<Ip>, x: Ip)
    ensures Deleted(addrs + [x]) == Deleted(addrs) + [DnsDel(x)]
  {
  }

  /** The first loop: a stale address is deleted and the cursor restarts. */
  method RemoveStale(lst: Container<Ip>, received: Container<Ip>) returns (calls: seq<Call>)
    requires lst.Valid() && received.Valid() && lst != received
    modifies lst, received
    ensures lst.Valid() && received.Valid() && received.items == old(received.items)
    ensures lst.items == Staying(old(lst.items), received.items)
    ensures calls == Deleted(Stale(old(lst.items), received.items))
  {
    ghost var rec, was := received.items, lst.items;
    ghost var gone: seq<Ip> := [];
    calls := [];
    lst.First();
    while true
      invariant received.Valid() && received.items == rec && calls == Deleted(gone) && Removing(lst, gone, was, rec)
      decreases |lst.items|, |lst.items| - lst.cursor
    {
      var x := lst.Get();
      if x.None? {
        break;
      }
      var found := Contains(received, x.value);
      if !found {
        calls := calls + [DnsDel(x.value)];
        DropStale(lst, gone, was, rec);
        DeletedSnoc(gone, x.value);
        gone := gone + [x.value];
      }
    }
    Removed(lst, gone, was, rec);
  }

  /** The second loop: an address that is not on the list is set and appended. */
  method AddMissing(lst: Container<Ip>, received: Container<Ip>) returns (calls: seq<Call>)
    requires lst.Valid() && received.Valid() && lst != received
    modifies lst, received
    ensures lst.Valid() && received.Valid() && received.items == old(received.items)
    ensures lst.items == old(lst.items) + Missing(received.items, old(lst.items))
    ensures calls == Added(Missing(received.items, old(lst.items)))
  {
    ghost var was, rec := lst.items, received.items;
    calls := [];
    received.First();
    while true
      invariant lst.Valid() && received.Valid() && received.items == rec
      invariant lst.items == was + Missing(rec[..received.cursor], was)
      invariant calls == Added(Missing(rec[..received.cursor], was))
      decreases |rec| - received.cursor
    {
      ghost var n := received.cursor;
      var x := received.Get();
      if x.None? {
        break;
      }
      assert rec[..n + 1][..n] == rec[..n];
      var found := Contains(lst, x.value);
      if !found {
        calls := calls + [DnsAdd(x.value)];
        lst.Append(x.value);
      }
    }
    assert rec[..|rec|] == rec;
  }

  /** `setDNSServerLst` */
  method SetDNSServerLst(lst: Container<Ip>, received: Container<Ip>) returns (calls: seq<Call>)
    requires lst.Valid() && received.Valid() && lst != received
    modifies lst, received
    ensures lst.Valid() && lst.items == Reconciled(old(lst.items), old(received.items))
    ensures calls == Deleted(Stale(old(lst.items), old(received.items))) +
                     Added(Missing(old(received.items), old(lst.items)))
  {
    ghost var was, rec := lst.items, received.items;
    var dels := RemoveStale(lst, received);
    MissingIgnoresStale(rec, was);
    var adds := AddMissing(lst, received);
    calls := dels + adds;
  }

  /** Whether an address is missing does not depend on the stale ones. */
  lemma {:induction false} MissingAgree(received: seq<Ip>, a: seq<Ip>, b: seq<Ip>)
    requires forall x :: x in received ==> (x in a <==> x in b)
    ensures Missing(received, a) == Missing(received, b)
  {
    if received != [] {
      MissingAgree(received[..|received| - 1], a, b);
    }
  }

  lemma MissingIgnoresStale(received: seq<Ip>, was: seq<Ip>)
    ensures Missing(received, Staying(was, received)) == Missing(received, was)
  {
    MissingAgree(received, Staying(was, received), was);
  }

  // ---- what the loops achieve -------------------------------------------------------------------------------

  /** The list ends equal, as a set, to the received one; it has duplicates only if it had some of
      an address that stays. */
  lemma ReconciledIsReceived(was: seq<Ip>, received: seq<Ip>)
    ensures forall x :: x in Reconciled(was, received) <==> x in received
    ensures NoDup(Reconciled(was, received)) <==> NoDup(Staying(was, received))
    ensures NoDup(was) ==> NoDup(Reconciled(was, received))
  {
    var stay, new_ := Staying(was, received), Missing(received, was);
    if NoDup(was) {
      FilterNoDup(was, x => x in received);
    }
    if NoDup(stay) {
      NoDupConcat(stay, new_);
    }
    if NoDup(stay + new_) {
      assert forall j :: 0 <= j < |stay| ==> (stay + new_)[j] == stay[j];
    }
  }

  lemma NoDupConcat(a: seq<Ip>, b: seq<Ip>)
    requires NoDup(a) && NoDup(b) && forall x :: x in a ==> x !in b
    ensures NoDup(a + b)
  {
    forall i, j | 0 <= i < j < |a + b|
      ensures (a + b)[i] != (a + b)[j]
    {
      if i < |a| <= j {
        assert a[i] in a && b[j - |a|] in b;
      }
    }
  }

  /** From a list without duplicates, exactly one delete per address that goes and exactly one add
      per address that comes are issued, the deletes first. */
  lemma CallsAreExact(was: seq<Ip>, received: seq<Ip>, x: Ip)
    requires NoDup(was)
    ensures var calls := Deleted(Stale(was, received)) + Added(Missing(received, was));
            multiset(calls)[DnsDel(x)] == (if x in was && x !in received then 1 else 0) &&
            multiset(calls)[DnsAdd(x)] == (if x in received && x !in was then 1 else 0)
  {
    var gone, new_ := Stale(was, received), Missing(received, was);
    FilterNoDup(was, x => x !in received);
    CountDeleted(gone, x);
    CountAdded(new_, x);
    assert multiset(Deleted(gone) + Added(new_)) == multiset(Deleted(gone)) + multiset(Added(new_));
  }

  lemma CountDeleted(addrs: seq<Ip>, x: Ip)
    requires NoDup(addrs)
    ensures multiset(Deleted(addrs))[DnsDel(x)] == (if x in addrs then 1 else 0)
    ensures multiset(Deleted(addrs))[DnsAdd(x)] == 0
  {
    NoDupCount(Deleted(addrs), DnsDel(x));
    if x in addrs {
      var j :| 0 <= j < |addrs| && addrs[j] == x;
      assert Deleted(addrs)[j] == DnsDel(x);
      assert DnsDel(x) in multiset(Deleted(addrs));
    }
  }

  lemma CountAdded(addrs: seq<Ip>, x: Ip)
    requires NoDup(addrs)
    ensures multiset(Added(addrs))[DnsAdd(x)] == (if x in addrs then 1 else 0)
    ensures multiset(Added(addrs))[DnsDel(x)] == 0
  {
    NoDupCount(Added(addrs), DnsAdd(x));
    if x in addrs {
      var j :| 0 <= j < |addrs| && addrs[j] == x;
      assert Added(addrs)[j] == DnsAdd(x);
      assert DnsAdd(x) in multiset(Added(addrs));
    }
  }

  // ---- forbidden options --------------------------------------------------------------------------------------

  /** An option of a message: its type and what it carries. */
  datatype Opt = Opt(code: nat, body: seq<int>)

  /** `delOption`: erases the first option of that type and rewinds the cursor. */
  method DelOption(options: Container<Opt>, code: nat, ghost k: nat)
    requires options.Valid() && k < |options.items| && options.items[k].code == code
    requires forall j :: 0 <= j < k ==> options.items[j].code != code
    modifies options
    ensures options.Valid() && options.cursor == 0 && options.items == RemoveAt(old(options.items), k)
  {
    options.First();
    while true
      invariant options.Valid() && options.items == old(options.items) && options.cursor <= k
      decreases |options.items| - options.cursor
    {
      var opt := options.Get();
      if opt.Some? && opt.value.code == code {
        options.Del();
        return;
      }
    }
  }

  /** The loop of the INFORMATION-REQUEST constructor keeps exactly the options of other types, in
      order: the cursor restarts after each deletion, so the first of a type is the one found. */
  method RemoveForbidden(options: Container<Opt>, forbidden: set<nat>)
    requires options.Valid()
    modifies options
    ensures options.Valid() && options.items == Filter(old(options.items), (o: Opt) => o.code !in forbidden)
  {
    options.First();
    while true
      invariant options.Valid()
      invariant Filter(options.items, (o: Opt) => o.code !in forbidden) == Filter(old(options.items), (o: Opt) => o.code !in forbidden)
      invariant forall j :: 0 <= j < options.cursor ==> options.items[j].code !in forbidden
      decreases |options.items|, |options.items| - options.cursor
    {
      var opt := options.Get();
      if opt.None? {
        break;
      }
      if opt.value.code in forbidden {
        ghost var k := options.cursor - 1;
        FilterRemoveAt(options.items, k, (o: Opt) => o.code !in forbidden);
        DelOption(options, opt.value.code, k);
      }
    }
    FilterAll(options.items, (o: Opt) => o.code !in forbidden);
  }
}
