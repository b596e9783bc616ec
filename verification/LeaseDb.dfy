/**
  The IA object of the lease database (AddrMgr/AddrIA.cpp): a cursor list of addresses and the
  loops over it, each proved against the functions of `Leases`.
 */
module LeaseDb {
  import opened Containers
  import opened Leases

  class AddrIA {
    const iaid: Iaid
    const iface: IfaceId
    const addrLst: Container<Lease>
    var state: EState
    var t1: nat
    var t2: nat
    var timestamp: nat
    var server: Option<Server>

    ghost predicate Valid()
      reads this, addrLst
    {
      addrLst.Valid()
    }

    function View(): IA
      reads this, addrLst
    {
      IA(iaid, iface, state, t1, t2, timestamp, server, addrLst.items)
    }

    constructor (iaid: Iaid, iface: IfaceId, t1: nat, t2: nat, now: nat)
      ensures Valid() && fresh(addrLst)
      ensures View() == IA(iaid, iface, NotConfigured, t1, t2, now, None, [])
    {
      this.iaid, this.iface, this.t1, this.t2 := iaid, iface, t1, t2;
      state, timestamp, server := NotConfigured, now, None;
      addrLst := new Container([]);
    }

    /** The object for an IA of the database. */
    constructor Load(ia: IA)
      ensures Valid() && fresh(addrLst) && View() == ia
    {
      iaid, iface, t1, t2 := ia.iaid, ia.iface, ia.t1, ia.t2;
      state, timestamp, server := ia.state, ia.stamp, ia.server;
      addrLst := new Container(ia.leases);
    }

    /** `getAddr(addr)`: leaves the cursor behind the address it found. */
    method GetAddr(addr: Ip) returns (r: Option<Lease>)
      requires Valid()
      modifies addrLst
      ensures Valid() && View() == old(View())
      ensures var k := IndexOf(addrLst.items, addr);
              if k >= 0 then r == Some(addrLst.items[k]) && addrLst.cursor == k + 1 else r == None
    {
      addrLst.First();
      while true
        invariant Valid() && View() == old(View())
        invariant forall j :: 0 <= j < addrLst.cursor ==> addrLst.items[j].addr != addr
        decreases |addrLst.items| - addrLst.cursor
      {
        r := addrLst.Get();
        if r.None? {
          return;
        }
        if r.value.addr == addr {
          IndexIsFirst(addrLst.items, addr, addrLst.cursor - 1);
          return;
        }
      }
    }

    /** `addAddr` */
    method AddAddr(l: Lease)
      requires Valid()
      modifies addrLst
      ensures Valid() && View() == old(View()).(leases := old(addrLst.items) + [l])
    {
      addrLst.Append(l);
    }

    /** `delAddr`: erases the first entry of the address; the cursor restarts. */
    method DelAddr(addr: Ip) returns (found: bool)
      requires Valid()
      modifies addrLst
      ensures Valid()
      ensures var k := IndexOf(old(addrLst.items), addr);
              (found <==> k >= 0) &&
              View() == old(View()).(leases := if k >= 0 then RemoveAt(old(addrLst.items), k) else old(addrLst.items)) &&
              (found ==> addrLst.cursor == 0)
    {
      var r := GetAddr(addr);
      found := r.Some?;
      if found {
        addrLst.Del();
      }
    }

    method GetValidTimeout(now: nat) returns (ts: nat)
      requires Valid()
      modifies addrLst
      ensures Valid() && View() == old(View()) && ts == IAValidLeft(View(), now)
    {
      ghost var items := addrLst.items;
      ts := ULONG_MAX;
      addrLst.First();
      while true
        invariant Valid() && addrLst.items == items
        invariant ts == LeastValid(items[..addrLst.cursor], now)
        decreases |items| - addrLst.cursor
      {
        var r := addrLst.Get();
        if r.None? {
          assert items[..addrLst.cursor] == items;
          break;
        }
        LeastValidSnoc(items, addrLst.cursor - 1, now);
        if ts > ValidLeft(r.value, now) {
          ts := ValidLeft(r.value, now);
        }
      }
    }

    method GetMaxValidTimeout(now: nat) returns (ts: nat)
      requires Valid()
      modifies addrLst
      ensures Valid() && View() == old(View()) && ts == IAMaxValidLeft(View(), now)
    {
      ghost var items := addrLst.items;
      ts := 0;
      addrLst.First();
      while true
        invariant Valid() && addrLst.items == items
        invariant ts == GreatestValid(items[..addrLst.cursor], now)
        decreases |items| - addrLst.cursor
      {
        var r := addrLst.Get();
        if r.None? {
          break;
        }
        GreatestValidSnoc(items, addrLst.cursor - 1, now);
        if ts < ValidLeft(r.value, now) {
          ts := ValidLeft(r.value, now);
        }
      }
      assert items[..|items|] == items;
    }

    /** `setTimestamp`: on the IA and on every address. */
    method SetTimestamp(now: nat)
      requires Valid()
      modifies this, addrLst
      ensures Valid()
      ensures View() == old(View()).(stamp := now, leases := Stamped(old(addrLst.items), now))
    {
      timestamp := now;
      addrLst.First();
      while true
        invariant Valid() && |addrLst.items| == |old(addrLst.items)|
        invariant View() == old(View()).(stamp := now, leases := addrLst.items)
        invariant forall i :: 0 <= i < addrLst.cursor ==>
                    addrLst.items[i] == old(addrLst.items)[i].(stamp := now)
        invariant forall i :: addrLst.cursor <= i < |addrLst.items| ==> addrLst.items[i] == old(addrLst.items)[i]
        decreases |addrLst.items| - addrLst.cursor
      {
        var r := addrLst.Get();
        if r.None? {
          break;
        }
        addrLst.Put(r.value.(stamp := now));
      }
    }

    /** Part of the dead leases of `before` are gone; the cursor has passed living ones only. */
    ghost predicate Expiring(before: IA, now: nat)
      reads this, addrLst
    {
      Valid() && DistinctAddrs(addrLst.items) &&
      Filter(addrLst.items, l => Alive(l, now)) == Filter(before.leases, l => Alive(l, now)) &&
      |addrLst.items| <= |before.leases| &&
      View() == before.(leases := addrLst.items,
                        state := if |addrLst.items| < |before.leases| then NotConfigured else before.state) &&
      forall i :: 0 <= i < addrLst.cursor ==> Alive(addrLst.items[i], now)
    }

    /** A dead lease just returned by the cursor is deleted by its address. */
    method ExpireOne(l: Lease, now: nat, ghost before: IA)
      requires Valid() && 0 < addrLst.cursor && l == addrLst.items[addrLst.cursor - 1] && !Alive(l, now)
      requires DistinctAddrs(addrLst.items) && |addrLst.items| <= |before.leases|
      requires Filter(addrLst.items, l => Alive(l, now)) == Filter(before.leases, l => Alive(l, now))
      requires View() == before.(leases := addrLst.items, state := state)
      modifies this, addrLst
      ensures Expiring(before, now) && |addrLst.items| == |old(addrLst.items)| - 1
    {
      ghost var items, k := addrLst.items, addrLst.cursor - 1;
      IndexIsFirst(items, l.addr, k);
      var found := DelAddr(l.addr);
      FilterRemoveAt(items, k, l => Alive(l, now));
      RemoveKeepsDistinct(items, k);
      state := NotConfigured;
    }

    /**
      The inner loop of `TClntAddrMgr::doDuties`: every deletion restarts the cursor, and goes by
      address. Because the addresses are distinct, exactly the dead leases are deleted.
     */
    method Expire(now: nat)
      requires Valid() && DistinctAddrs(addrLst.items)
      modifies this, addrLst
      ensures Valid() && View() == Expired(old(View()), now)
    {
      ghost var before := View();
      addrLst.First();
      while true
        invariant Expiring(before, now)
        decreases |addrLst.items|, |addrLst.items| - addrLst.cursor
      {
        var r := addrLst.Get();
        if r.None? {
          break;
        }
        if !Alive(r.value, now) {
          ExpireOne(r.value, now, before);
        }
      }
      AllAlive(before, now);
    }

    /** The cursor has passed every lease. */
    lemma AllAlive(before: IA, now: nat)
      requires Expiring(before, now) && addrLst.cursor == |addrLst.items|
      ensures View() == Expired(before, now)
    {
      FilterAll(addrLst.items, l => Alive(l, now));
    }

    /** One received address; `m` is where the merge stands. */
    method MergeOne(a: RecvAddr, from: Option<Server>, ctxIface: IfaceId, now: nat, installed: Installed, ghost m: Merge)
      returns (after: Installed, last: bool)
      requires Valid() && m.leases == addrLst.items && m.installed == installed && (m.added ==> server == from)
      modifies this, addrLst
      ensures Valid()
      ensures var step := MergeAddr(m, a, ctxIface, now);
              View() == old(View()).(leases := step.after.leases, server := if step.after.added then from else old(server)) &&
              after == step.after.installed && last == step.last
    {
      after, last := installed, false;
      var found := GetAddr(a.addr);
      if found.None? {
        if a.valid != 0 {
          AddAddr(Lease(a.addr, a.pref, a.valid, now));
          server := from;
          after := after + multiset{(ctxIface, a.addr)};
        }
      } else if a.valid == 0 {
        var _ := DelAddr(a.addr);
        after, last := after - multiset{(ctxIface, a.addr)}, true;
      } else {
        addrLst.Put(Lease(a.addr, a.pref, a.valid, now));
      }
    }

    /**
      `TClntOptIA_NA::doDuties` on the IA it found: merges the received addresses into the list
      and the interface, then takes over the timers. `installed` is what the interfaces hold.
     */
    method Merge(r: RecvIA, from: Option<Server>, ctxIface: IfaceId, now: nat, installed: Installed)
      returns (after: Installed)
      requires Valid()
      modifies this, addrLst
      ensures Valid()
      ensures var m := MergeAddrs(Leases.Merge(old(addrLst.items), installed, false), r.addrs, ctxIface, now);
              View() == Merged(old(View()), r, m, from, now) && after == m.installed
    {
      ghost var start := Leases.Merge(addrLst.items, installed, false);
      ghost var m := start;
      after := installed;
      var i, last := 0, false;
      while i < |r.addrs| && !last
        invariant Valid() && 0 <= i <= |r.addrs| && m.leases == addrLst.items && m.installed == after
        invariant View() == old(View()).(leases := m.leases, server := if m.added then from else old(server))
        invariant MergeAddrs(start, r.addrs, ctxIface, now) ==
                    if last then m else MergeAddrs(m, r.addrs[i..], ctxIface, now)
      {
        ghost var step := MergeAddr(m, r.addrs[i], ctxIface, now);
        after, last := MergeOne(r.addrs[i], from, ctxIface, now, after, m);
        m := step.after;
        i := i + 1;
      }
      t1, t2 := NewT1(View(), r), NewT2(View(), r);
      SetTimestamp(now);
      state := Configured;
    }
  }

  lemma {:induction false} IndexIsFirst(leases: seq<Lease>, addr: Ip, k: nat)
    requires k < |leases| && leases[k].addr == addr
    requires forall j :: 0 <= j < k ==> leases[j].addr != addr
    ensures IndexOf(leases, addr) == k
  {
    if k < |leases| - 1 {
      IndexIsFirst(leases[..|leases| - 1], addr, k);
    }
  }

  lemma RemoveKeepsDistinct(leases: seq<Lease>, k: nat)
    requires k < |leases| && DistinctAddrs(leases)
    ensures DistinctAddrs(RemoveAt(leases, k))
  {
  }
}
