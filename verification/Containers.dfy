/**
  The cursor list every client component is built on (`TContainer` in Misc/Container.h), and
  the sequence functions its delete-while-iterating loops compute.
 */
module Containers {

  datatype Option<+T> = None | Some(value: T)

  /** `s` without its element at `k`. */
  function RemoveAt<T>(s: seq<T>, k: nat): (r: seq<T>)
    requires k < |s|
    ensures |r| == |s| - 1
  {
    s[..k] + s[k + 1..]
  }

  lemma RemoveAtCount<T>(s: seq<T>, k: nat)
    requires k < |s|
    ensures multiset(RemoveAt(s, k)) == multiset(s) - multiset{s[k]}
  {
    assert s == s[..k] + [s[k]] + s[k + 1..];
  }

  /** The elements of `s` that `keep` accepts, in order. */
  function Filter<T>(s: seq<T>, keep: T -> bool): (r: seq<T>)
    ensures forall x | x in r :: x in s && keep(x)
    ensures forall x | x in s && keep(x) :: x in r
  {
    if s == [] then []
    else
      var rest := Filter(s[..|s| - 1], keep);
      if keep(s[|s| - 1]) then rest + [s[|s| - 1]] else rest
  }

  /** The concatenation of what `f` makes of the elements of `s`. */
  function Flat<T, U>(s: seq<T>, f: T -> seq<U>): seq<U> {
    if s == [] then [] else Flat(s[..|s| - 1], f) + f(s[|s| - 1])
  }

  lemma FlatSnoc<T, U>(s: seq<T>, x: T, f: T -> seq<U>)
    ensures Flat(s + [x], f) == Flat(s, f) + f(x)
  {
    assert (s + [x])[..|s|] == s;
  }

  lemma {:induction false} FlatConcat<T, U>(a: seq<T>, b: seq<T>, f: T -> seq<U>)
    ensures Flat(a + b, f) == Flat(a, f) + Flat(b, f)
  {
    if b == [] {
      assert a + b == a;
    } else {
      var front, last := b[..|b| - 1], b[|b| - 1];
      FlatConcat(a, front, f);
      assert a + b == (a + front) + [last] && b == front + [last];
      FlatSnoc(a + front, last, f);
      FlatSnoc(front, last, f);
      ConcatAssociative(Flat(a, f), Flat(front, f), f(last));
    }
  }

  lemma ConcatAssociative<T>(x: seq<T>, y: seq<T>, z: seq<T>)
    ensures (x + y) + z == x + (y + z)
  {
  }

  predicate NoDup<T(==)>(s: seq<T>) {
    forall i, j :: 0 <= i < j < |s| ==> s[i] != s[j]
  }

  lemma {:induction false} FilterConcat<T>(a: seq<T>, b: seq<T>, keep: T -> bool)
    ensures Filter(a + b, keep) == Filter(a, keep) + Filter(b, keep)
  {
    if b == [] {
      assert a + b == a;
    } else {
      FilterConcat(a, b[..|b| - 1], keep);
      assert (a + b)[..|a + b| - 1] == a + b[..|b| - 1];
    }
  }

  lemma FilterSnoc<T>(s: seq<T>, x: T, keep: T -> bool)
    ensures Filter(s + [x], keep) == if keep(x) then Filter(s, keep) + [x] else Filter(s, keep)
  {
    assert (s + [x])[..|s|] == s;
  }

  lemma RemoveAtSnoc<T>(s: seq<T>, k: nat)
    requires k < |s|
    ensures var n := |s| - 1;
            RemoveAt(s, k) == if k == n then s[..n] else RemoveAt(s[..n], k) + [s[n]]
  {
  }

  /** Deleting a rejected element leaves the filtered list as it was. */
  lemma {:induction false} FilterRemoveAt<T>(s: seq<T>, k: nat, keep: T -> bool)
    requires k < |s| && !keep(s[k])
    ensures Filter(RemoveAt(s, k), keep) == Filter(s, keep)
  {
    var n := |s| - 1;
    RemoveAtSnoc(s, k);
    if k < n {
      FilterRemoveAt(s[..n], k, keep);
      FilterSnoc(RemoveAt(s[..n], k), s[n], keep);
    }
  }

  lemma {:induction false} FilterAll<T>(s: seq<T>, keep: T -> bool)
    requires forall x :: x in s ==> keep(x)
    ensures Filter(s, keep) == s
  {
    if s != [] {
      FilterAll(s[..|s| - 1], keep);
    }
  }

  lemma {:induction false} FilterNone<T>(s: seq<T>, keep: T -> bool)
    requires forall x :: x in s ==> !keep(x)
    ensures Filter(s, keep) == []
  {
    if s != [] {
      FilterNone(s[..|s| - 1], keep);
    }
  }

  lemma FilterSkips<T>(before: seq<T>, after: seq<T>, keep: T -> bool)
    requires forall y :: y in before ==> !keep(y)
    ensures Filter(before + after, keep) == Filter(after, keep)
  {
    FilterConcat(before, after, keep);
    FilterNone(before, keep);
  }

  /** The first accepted element heads the filtered list. */
  lemma FilterFirst<T>(before: seq<T>, x: T, after: seq<T>, keep: T -> bool)
    requires keep(x) && forall y :: y in before ==> !keep(y)
    ensures Filter(before + [x] + after, keep) == [x] + Filter(before + after, keep)
  {
    FilterConcat(before + [x], after, keep);
    FilterSkips(before, [x], keep);
    FilterSkips(before, after, keep);
    FilterOne(x, keep);
  }

  lemma FilterOne<T>(x: T, keep: T -> bool)
    ensures Filter([x], keep) == if keep(x) then [x] else []
  {
    assert [x] == [] + [x];
    FilterSnoc([], x, keep);
  }

  lemma {:induction false} FilterNoDup<T>(s: seq<T>, keep: T -> bool)
    requires NoDup(s)
    ensures NoDup(Filter(s, keep))
  {
    if s != [] {
      FilterNoDup(s[..|s| - 1], keep);
    }
  }

  lemma {:induction false} FilterCount<T>(s: seq<T>, keep: T -> bool, x: T)
    ensures multiset(Filter(s, keep))[x] == if keep(x) then multiset(s)[x] else 0
  {
    if s != [] {
      FilterCount(s[..|s| - 1], keep, x);
      assert s == s[..|s| - 1] + [s[|s| - 1]];
    }
  }

  lemma NoDupCount<T>(s: seq<T>, x: T)
    requires NoDup(s)
    ensures multiset(s)[x] <= 1
  {
    if x in s {
      var k :| 0 <= k < |s| && s[k] == x;
      assert s == s[..k] + [x] + s[k + 1..];
      assert x !in s[..k] && x !in s[k + 1..];
    }
  }

  /**
    A list with one built-in cursor. `Get` returns the element under the cursor and advances;
    `Del` erases the element `Get` returned last and rewinds to the start. A cursor that stands
    at the end keeps standing at the end when an element is appended, as `std::list::end()` does.
   */
  class Container<T> {
    var items: seq<T>
    var cursor: nat

    ghost predicate Valid()
      reads this
    {
      cursor <= |items|
    }

    constructor (initial: seq<T>)
      ensures Valid() && items == initial && cursor == 0
    {
      items, cursor := initial, 0;
    }

    function Count(): (n: nat)
      reads this
    {
      |items|
    }

    method First()
      modifies this
      ensures Valid() && cursor == 0 && items == old(items)
    {
      cursor := 0;
    }

    method Get() returns (r: Option<T>)
      requires Valid()
      modifies this
      ensures Valid() && items == old(items)
      ensures old(cursor) < |items| ==> r == Some(items[old(cursor)]) && cursor == old(cursor) + 1
      ensures old(cursor) == |items| ==> r == None && cursor == old(cursor)
    {
      if cursor < |items| {
        r := Some(items[cursor]);
        cursor := cursor + 1;
      } else {
        r := None;
      }
    }

    method Del()
      requires Valid() && 0 < cursor
      modifies this
      ensures Valid() && cursor == 0
      ensures items == RemoveAt(old(items), old(cursor) - 1)
    {
      items := RemoveAt(items, cursor - 1);
      cursor := 0;
    }

    method DelFirst()
      requires items != []
      modifies this
      ensures Valid() && cursor == 0 && items == old(items)[1..]
    {
      items := items[1..];
      cursor := 0;
    }

    method Append(x: T)
      requires Valid()
      modifies this
      ensures Valid() && items == old(items) + [x]
      ensures cursor == if old(cursor) == |old(items)| then |items| else old(cursor)
    {
      cursor := if cursor == |items| then cursor + 1 else cursor;
      items := items + [x];
    }

    /** The list holds pointers: writing through the pointer `Get` returned last. */
    method Put(x: T)
      requires Valid() && 0 < cursor
      modifies this
      ensures Valid() && cursor == old(cursor) && items == old(items)[old(cursor) - 1 := x]
    {
      items := items[cursor - 1 := x];
    }

    /** Writing through a pointer kept from an earlier `Get`. */
    method Set(k: nat, x: T)
      requires Valid() && k < |items|
      modifies this
      ensures Valid() && cursor == old(cursor) && items == old(items)[k := x]
    {
      items := items[k := x];
    }

    /** List assignment; every reader rewinds before its first `Get`. */
    method Assign(other: seq<T>)
      modifies this
      ensures Valid() && items == other && cursor == 0
    {
      items, cursor := other, 0;
    }
  }
}
