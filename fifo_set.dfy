/** The abstract state of `LimitedCapacitySet<string>` and the laws of its
    operations.  `items` is the array that records insertion order;
    `members` is the JavaScript `Set` that answers membership, kept as a
    sequence because a `Set` iterates in insertion order and `values()`
    hands out exactly that order. */
module FifoSet {

  datatype State = State(items: seq<string>, members: seq<string>, capacity: nat)

  /** JavaScript truthiness of a string: only the empty string is falsy. */
  predicate Truthy(s: string) { s != "" }

  ghost predicate NoDups(s: seq<string>) {
    forall i, j :: 0 <= i < j < |s| ==> s[i] != s[j]
  }

  /** `s` with its first occurrence of `x` removed; this is both `Set.delete`
      and `Array.splice` at the index of `x`. */
  function Without(s: seq<string>, x: string): (r: seq<string>)
    ensures |r| == if x in s then |s| - 1 else |s|
    ensures forall y :: y != x ==> (y in r <==> y in s)
    ensures x !in s ==> r == s
  {
    if s == [] then []
    else if s[0] == x then s[1..]
    else [s[0]] + Without(s[1..], x)
  }

  /** `Array.prototype.indexOf`: the first index holding `x`, or -1. */
  function IndexOf(s: seq<string>, x: string): (i: int)
    ensures -1 <= i < |s|
    ensures i == -1 <==> x !in s
    ensures 0 <= i ==> s[i] == x && x !in s[..i]
  {
    if s == [] then -1
    else if s[0] == x then 0
    else
      var j := IndexOf(s[1..], x);
      if j == -1 then -1
      else
        assert s[..j + 1] == [s[0]] + s[1..][..j];
        j + 1
  }

  /** Removing an element keeps the relative order of the others: it is the
      splice at the element's index. */
  lemma {:induction false} WithoutIsSplice(s: seq<string>, x: string)
    requires x in s
    ensures Without(s, x) == s[..IndexOf(s, x)] + s[IndexOf(s, x) + 1..]
  {
    if s[0] != x {
      WithoutIsSplice(s[1..], x);
      var j := IndexOf(s[1..], x);
      assert s[..j + 1] == [s[0]] + s[1..][..j];
      assert s[j + 2..] == s[1..][j + 1..];
    }
  }

  lemma {:induction false} WithoutNoDups(s: seq<string>, x: string)
    requires NoDups(s)
    ensures NoDups(Without(s, x)) && x !in Without(s, x)
  {
    if s != [] && s[0] != x {
      assert NoDups(s[1..]) by {
        forall i, j | 0 <= i < j < |s[1..]| ensures s[1..][i] != s[1..][j] {
          assert s[1..][i] == s[i + 1] && s[1..][j] == s[j + 1];
        }
      }
      WithoutNoDups(s[1..], x);
      var r := Without(s[1..], x);
      assert s[0] !in s[1..] by {
        forall k | 0 <= k < |s[1..]| ensures s[1..][k] != s[0] { assert s[1..][k] == s[k + 1]; }
      }
      assert s[0] !in r;
      forall i, j | 0 <= i < j < |[s[0]] + r| ensures ([s[0]] + r)[i] != ([s[0]] + r)[j] {
        if i == 0 { assert ([s[0]] + r)[j] == r[j - 1]; assert r[j - 1] in r; }
      }
    } else if s != [] {
      forall i, j | 0 <= i < j < |s[1..]| ensures s[1..][i] != s[1..][j] {
        assert s[1..][i] == s[i + 1] && s[1..][j] == s[j + 1];
      }
      forall k | 0 <= k < |s[1..]| ensures s[1..][k] != x { assert s[1..][k] == s[k + 1]; }
    }
  }

  /** Removing an element from a sequence that ends in another value. */
  lemma {:induction false} WithoutAppend(s: seq<string>, x: string, y: string)
    requires x != y
    ensures Without(s + [y], x) == Without(s, x) + [y]
  {
    if s != [] {
      assert (s + [y])[1..] == s[1..] + [y];
      WithoutAppend(s[1..], x, y);
    } else {
      assert [y][1..] == [];
    }
  }

  /** Two removals commute. */
  lemma {:induction false} WithoutCommutes(s: seq<string>, a: string, b: string)
    ensures Without(Without(s, a), b) == Without(Without(s, b), a)
  {
    if s != [] && s[0] != a && s[0] != b {
      WithoutCommutes(s[1..], a, b);
      assert ([s[0]] + Without(s[1..], a))[1..] == Without(s[1..], a);
      assert ([s[0]] + Without(s[1..], b))[1..] == Without(s[1..], b);
    } else if s != [] && s[0] == a && s[0] != b {
      assert ([s[0]] + Without(s[1..], b))[1..] == Without(s[1..], b);
    } else if s != [] && s[0] == b && s[0] != a {
      assert ([s[0]] + Without(s[1..], a))[1..] == Without(s[1..], a);
    }
  }

  /** The most items the array ever holds: `shift()` on an empty array removes
      nothing, so a set built with capacity 0 still keeps one item. */
  function Bound(capacity: nat): (b: nat)
    ensures 1 <= b && capacity <= b
  {
    if capacity == 0 then 1 else capacity
  }

  /** The invariant of every reachable state: the set has no duplicates, the
      array mirrors the set in the same order except that an evicted falsy
      item ("" only) may linger in the set, and the array respects the
      capacity bound. */
  ghost predicate Valid(st: State) {
    && NoDups(st.members)
    && (st.items == st.members || ("" in st.members && st.items == Without(st.members, "")))
    && |st.items| <= Bound(st.capacity)
  }

  /** The state of a freshly constructed set. */
  function Empty(capacity: nat): (st: State)
    ensures Valid(st) && st.items == [] && st.members == [] && st.capacity == capacity
  {
    State([], [], capacity)
  }

  /** `has(x)`: membership is answered by the set; in a valid state it agrees
      with the array for every truthy item. */
  predicate Has(st: State, x: string): (b: bool)
    ensures Valid(st) && Truthy(x) ==> (b <==> x in st.items)
  {
    x in st.members
  }

  /** The state after `add(x)`. */
  function Added(st: State, x: string): (r: State)
    ensures Has(r, x)
    ensures Has(st, x) ==> r == st
    ensures r.capacity == st.capacity
    ensures forall y :: Has(r, y) ==> Has(st, y) || y == x
  {
    if x in st.members then st
    else
      // `items.length >= capacity` triggers `shift()`, which yields undefined on []
      var shifted := |st.items| >= st.capacity && |st.items| > 0;
      var items := if shifted then st.items[1..] else st.items;
      var members := if shifted && Truthy(st.items[0]) then Without(st.members, st.items[0]) else st.members;
      State(items + [x], members + [x], st.capacity)
  }

  /** The state after `delete(x)`: nothing happens unless the array holds `x`. */
  function Deleted(st: State, x: string): (r: State)
    ensures x !in st.items ==> r == st
    ensures r.capacity == st.capacity
    ensures forall y :: y != x ==> (Has(r, y) <==> Has(st, y))
    ensures |r.items| == if x in st.items then |st.items| - 1 else |st.items|
  {
    if x in st.items then State(Without(st.items, x), Without(st.members, x), st.capacity) else st
  }

  /** `Deleted` written the way the array does it: a splice at `indexOf`. */
  lemma DeletedBySplice(st: State, x: string, i: int)
    requires 0 <= i && i == IndexOf(st.items, x)
    ensures Deleted(st, x) == State(st.items[..i] + st.items[i + 1..], Without(st.members, x), st.capacity)
  {
    WithoutIsSplice(st.items, x);
  }

  lemma NoDupsAppend(s: seq<string>, x: string)
    requires NoDups(s) && x !in s
    ensures NoDups(s + [x])
  {
    forall i, j | 0 <= i < j < |s + [x]| ensures (s + [x])[i] != (s + [x])[j] {
      if j == |s| { assert (s + [x])[i] == s[i]; assert s[i] in s; }
    }
  }

  lemma NoDupsTail(s: seq<string>)
    requires NoDups(s) && s != []
    ensures NoDups(s[1..]) && s[0] !in s[1..]
  {
    forall i, j | 0 <= i < j < |s[1..]| ensures s[1..][i] != s[1..][j] {
      assert s[1..][i] == s[i + 1] && s[1..][j] == s[j + 1];
    }
    forall k | 0 <= k < |s[1..]| ensures s[1..][k] != s[0] { assert s[1..][k] == s[k + 1]; }
  }

  /** `add` preserves the invariant. */
  lemma AddedValid(st: State, x: string)
    requires Valid(st)
    ensures Valid(Added(st, x))
  {
    if x !in st.members {
      var shifted := |st.items| >= st.capacity && |st.items| > 0;
      var items := if shifted then st.items[1..] else st.items;
      var members := if shifted && Truthy(st.items[0]) then Without(st.members, st.items[0]) else st.members;
      WithoutNoDups(st.members, if shifted then st.items[0] else "");
      assert NoDups(members);
      assert x !in members;
      NoDupsAppend(members, x);
      if st.items == st.members {
        if shifted && Truthy(st.items[0]) {
          assert st.members == [st.items[0]] + st.items[1..];
          assert Without(st.members, st.items[0]) == st.items[1..];
        } else if shifted {
          // the falsy oldest item leaves the array but stays in the set
          assert st.items[0] in st.members;
          assert Without(st.members, "") == st.items[1..];
          WithoutAppend(st.members, "", x);
        }
      } else {
        WithoutNoDups(st.members, "");
        WithoutAppend(members, "", x);
        if shifted {
          var o := st.items[0];
          assert o in st.items;
          assert o != "";
          WithoutCommutes(st.members, o, "");
          assert Without(st.items, o) == st.items[1..];
        }
      }
    }
  }

  /** `delete` preserves the invariant and removes the item. */
  lemma DeletedValid(st: State, x: string)
    requires Valid(st)
    ensures Valid(Deleted(st, x))
    ensures x in st.items ==> !Has(Deleted(st, x), x)
  {
    if x in st.items {
      WithoutNoDups(st.members, x);
      if st.items != st.members {
        assert x != "";
        WithoutCommutes(st.members, x, "");
      }
    }
  }

  /** While no falsy item has been added, array and set hold the same items in the
      same order, and that order is preserved by every truthy `add` and every `delete`. */
  lemma MirroredWhileTruthy(st: State, x: string, y: string)
    requires Valid(st) && !Has(st, "") && Truthy(x)
    ensures st.items == st.members
    ensures Added(st, x).items == Added(st, x).members && !Has(Added(st, x), "")
    ensures Deleted(st, y).items == Deleted(st, y).members && !Has(Deleted(st, y), "")
  {
    AddedValid(st, x);
    DeletedValid(st, y);
  }

  /** With capacity at least one, the array never holds more than `capacity` items. */
  lemma AddedWithinCapacity(st: State, x: string)
    requires Valid(st) && st.capacity >= 1
    ensures |Added(st, x).items| <= st.capacity
  {
    AddedValid(st, x);
  }

  /** Re-adding an item that is present changes nothing, so it is not moved
      towards the back of the eviction order. */
  lemma ReAddedNotReordered(st: State, x: string)
    requires Has(st, x)
    ensures Added(st, x).items == st.items && Added(st, x).members == st.members
  {
  }

  /** Adding a new item to a set that has room appends it. */
  lemma AddedWithRoom(st: State, x: string)
    requires Valid(st) && !Has(st, x) && |st.items| < Bound(st.capacity)
    ensures Added(st, x).items == st.items + [x]
    ensures Added(st, x).members == st.members + [x]
  {
  }

  /** Adding a new item to a full set evicts exactly the oldest item, `items[0]`. */
  lemma AddedToFullEvictsOldest(st: State, x: string)
    requires Valid(st) && !Has(st, "") && !Has(st, x) && |st.items| == Bound(st.capacity)
    ensures var r := Added(st, x);
      && r.items == st.items[1..] + [x]
      && !Has(r, st.items[0])
      && forall y :: y != st.items[0] && Has(st, y) ==> Has(r, y)
  {
    var o := st.items[0];
    assert st.members == [o] + st.items[1..];
    NoDupsTail(st.members);
  }

  /** The state after adding each of `xs` in order. */
  function AddedAll(st: State, xs: seq<string>): (r: State)
    ensures r.capacity == st.capacity
  {
    if xs == [] then st else Added(AddedAll(st, xs[..|xs| - 1]), xs[|xs| - 1])
  }

  /** The last `n` elements of `s` (all of them when there are fewer). */
  function Newest(s: seq<string>, n: nat): (r: seq<string>)
    ensures |r| == if |s| <= n then |s| else n
  {
    if |s| <= n then s else s[|s| - n..]
  }

  lemma AddedAllValid(st: State, xs: seq<string>)
    requires Valid(st)
    ensures Valid(AddedAll(st, xs))
    decreases |xs|
  {
    if xs != [] {
      AddedAllValid(st, xs[..|xs| - 1]);
      AddedValid(AddedAll(st, xs[..|xs| - 1]), xs[|xs| - 1]);
    }
  }

  lemma NewestAppend(s: seq<string>, x: string, b: nat)
    requires 1 <= b
    ensures |s| < b ==> Newest(s + [x], b) == s + [x]
    ensures |s| >= b ==> Newest(s + [x], b) == Newest(s, b)[1..] + [x]
    ensures forall y :: y in Newest(s, b) ==> y in s
  {
    if |s| >= b {
      assert (s + [x])[|s| + 1 - b..] == s[|s| - b + 1..] + [x];
    }
    forall y | y in Newest(s, b) ensures y in s {
      var k :| 0 <= k < |Newest(s, b)| && Newest(s, b)[k] == y;
      if |s| > b { assert y == s[|s| - b + k]; }
    }
  }

  /** One step of FIFO eviction: appending to the newest `b` items of `s`. */
  lemma FifoStep(prev: State, s: seq<string>, x: string)
    requires Valid(prev) && !Has(prev, "") && Truthy(x) && x !in s
    requires prev.items == Newest(s, Bound(prev.capacity))
    ensures var r := Added(prev, x);
      r.items == r.members && r.items == Newest(s + [x], Bound(prev.capacity))
  {
    var b := Bound(prev.capacity);
    NewestAppend(s, x, b);
    MirroredWhileTruthy(prev, x, x);
    assert !Has(prev, x);
    if |prev.items| < b {
      AddedWithRoom(prev, x);
    } else {
      AddedToFullEvictsOldest(prev, x);
    }
  }

  lemma NoDupsSplitLast(s: seq<string>, x: string)
    requires NoDups(s + [x])
    ensures NoDups(s) && x !in s
  {
    forall i, j | 0 <= i < j < |s| ensures s[i] != s[j] {
      assert s[i] == (s + [x])[i] && s[j] == (s + [x])[j];
    }
    forall k | 0 <= k < |s| ensures s[k] != x {
      assert s[k] == (s + [x])[k] && x == (s + [x])[|s|];
    }
  }

  /** FIFO eviction: after adding distinct new truthy items, the array holds the
      newest `Bound(capacity)` of all items in insertion order, and the set
      holds exactly those. */
  lemma {:induction false} FifoEviction(st: State, xs: seq<string>)
    requires Valid(st) && !Has(st, "") && "" !in xs
    requires NoDups(st.items + xs)
    ensures var r := AddedAll(st, xs);
      r.items == r.members && r.items == Newest(st.items + xs, Bound(st.capacity))
    decreases |xs|
  {
    if xs == [] {
      assert st.items + xs == st.items;
    } else {
      var init, x := xs[..|xs| - 1], xs[|xs| - 1];
      assert st.items + xs == (st.items + init) + [x];
      NoDupsSplitLast(st.items + init, x);
      assert "" !in init by {
        forall k | 0 <= k < |init| ensures init[k] != "" { assert init[k] == xs[k]; }
      }
      FifoEviction(st, init);
      AddedAllValid(st, init);
      FifoStep(AddedAll(st, init), st.items + init, x);
    }
  }

  ghost predicate Distinct4(a: string, b: string, c: string, d: string) {
    a != b && a != c && a != d && b != c && b != d && c != d
  }

  /** Three distinct truthy items added to an empty set of capacity 3 fill it
      in insertion order. */
  lemma ThreeAdded(a: string, b: string, c: string)
    requires Truthy(a) && Truthy(b) && Truthy(c) && a != b && a != c && b != c
    ensures var st := AddedAll(Empty(3), [a, b, c]);
      && Valid(st) && st.items == [a, b, c] && st.members == [a, b, c]
      && st.capacity == 3 && |st.items| == Bound(3)
  {
    var s0 := Empty(3);
    AddedWithRoom(s0, a);
    AddedValid(s0, a);
    var s1 := Added(s0, a);
    AddedWithRoom(s1, b);
    AddedValid(s1, b);
    var s2 := Added(s1, b);
    assert s2.items == s2.members == [a, b];
    AddedWithRoom(s2, c);
    AddedValid(s2, c);
    var st := Added(s2, c);
    assert st.items == st.members == [a, b, c];
    assert [a][..0] == [];
    assert AddedAll(s0, [a]) == s1;
    assert [a, b][..1] == [a];
    assert AddedAll(s0, [a, b]) == s2;
    assert [a, b, c][..2] == [a, b];
  }

  /** Adding one more item at the end of a sequence of adds is one `add` more. */
  lemma AddedAllSnoc(st: State, xs: seq<string>, x: string)
    ensures AddedAll(st, xs + [x]) == Added(AddedAll(st, xs), x)
  {
    assert (xs + [x])[..|xs|] == xs;
  }

  /** Capacity 3, add A, B, C, D (distinct, truthy): A is evicted; B, C and D stay. */
  lemma EvictionExample(a: string, b: string, c: string, d: string)
    requires Truthy(a) && Truthy(b) && Truthy(c) && Truthy(d) && Distinct4(a, b, c, d)
    ensures var r := AddedAll(Empty(3), [a, b, c, d]);
      !Has(r, a) && Has(r, b) && Has(r, c) && Has(r, d)
  {
    ThreeAdded(a, b, c);
    FullEvicts(AddedAll(Empty(3), [a, b, c]), d);
    AddedAllSnoc(Empty(3), [a, b, c], d);
    assert [a, b, c] + [d] == [a, b, c, d];
  }

  /** One more distinct truthy item on a full mirrored set of three. */
  lemma FullEvicts(st: State, d: string)
    requires Valid(st) && st.capacity == 3 && |st.items| == 3 && st.items == st.members
    requires Truthy(st.items[0]) && Truthy(st.items[1]) && Truthy(st.items[2]) && d !in st.items
    ensures var r := Added(st, d);
      !Has(r, st.items[0]) && Has(r, st.items[1]) && Has(r, st.items[2]) && Has(r, d)
  {
    assert !Has(st, "");
    AddedToFullEvictsOldest(st, d);
    assert st.items[1] != st.items[0] && st.items[2] != st.items[0];
  }

  /** Capacity 3, add A, B, C, add A again, add D: the second A did not move A
      to the back, so A is the one evicted. */
  lemma NoReorderExample(a: string, b: string, c: string, d: string)
    requires Truthy(a) && Truthy(b) && Truthy(c) && Truthy(d) && Distinct4(a, b, c, d)
    ensures var r := Added(Added(AddedAll(Empty(3), [a, b, c]), a), d);
      !Has(r, a) && Has(r, b) && Has(r, c) && Has(r, d)
  {
    ThreeAdded(a, b, c);
    var st := AddedAll(Empty(3), [a, b, c]);
    ReAddedNotReordered(st, a);
    assert Added(st, a) == st;
    assert !Has(st, "") && !Has(st, d);
    AddedToFullEvictsOldest(st, d);
    assert st.items[0] == a;
  }
}
