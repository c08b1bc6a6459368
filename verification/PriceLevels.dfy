// Price levels: what the tree behind one side of the book holds, and how it
// flattens into the reference list.
module PriceLevels {
  import opened Orders
  import opened PriceTime
  import opened Matching

  datatype PriceLevel = PriceLevel(price: nat, totalVolume: nat, orders: seq<Order>)

  function Volume(orders: seq<Order>): nat {
    if orders == [] then 0 else orders[0].size + Volume(orders[1..])
  }

  // The whole side, best level first.
  function Flatten(levels: seq<PriceLevel>): seq<Order> {
    if levels == [] then [] else levels[0].orders + Flatten(levels[1..])
  }

  // The cached volume is the sum of the sizes, in 64 bits.
  ghost predicate TrueLevel(l: PriceLevel) {
    l.totalVolume == Wrap64(Volume(l.orders)) && forall o :: o in l.orders ==> o.price == l.price
  }

  // Keys in tree order, true volumes, every order at its level's price; levels
  // may still be empty while a match is under way.
  ghost predicate Shaped(side: Side, levels: seq<PriceLevel>) {
    && (forall i, j :: 0 <= i < j < |levels| ==> Better(side, levels[i].price, levels[j].price))
    && (forall l :: l in levels ==> TrueLevel(l))
  }

  ghost predicate NoneEmpty(levels: seq<PriceLevel>) {
    forall l :: l in levels ==> l.orders != []
  }

  // Where a tree search for `price` ends: the first level that is not better.
  function Rank(side: Side, levels: seq<PriceLevel>, price: nat): (r: nat)
    ensures r <= |levels|
    ensures forall i :: 0 <= i < r ==> Better(side, levels[i].price, price)
    ensures r < |levels| ==> !Better(side, levels[r].price, price)
  {
    if levels == [] || !Better(side, levels[0].price, price) then 0
    else 1 + Rank(side, levels[1..], price)
  }

  // A tree search ends at the level of its price.
  lemma RankFinds(side: Side, levels: seq<PriceLevel>, price: nat, k: nat)
    requires Shaped(side, levels) && k < |levels| && levels[k].price == price
    ensures Rank(side, levels, price) == k
  {
    assert forall i :: 0 <= i < k ==> Better(side, levels[i].price, price);
    assert !Better(side, price, price);
  }

  predicate HasLevelAt(side: Side, levels: seq<PriceLevel>, price: nat) {
    var r := Rank(side, levels, price);
    r < |levels| && levels[r].price == price
  }

  // --- Flattening -----------------------------------------------------------------

  lemma {:induction false} FlattenAppend(a: seq<PriceLevel>, b: seq<PriceLevel>)
    ensures Flatten(a + b) == Flatten(a) + Flatten(b)
  {
    if a == [] {
      assert a + b == b;
    } else {
      assert (a + b)[1..] == a[1..] + b;
      FlattenAppend(a[1..], b);
    }
  }

  lemma FlattenOne(l: PriceLevel)
    ensures Flatten([l]) == l.orders
  {
    assert [l][1..] == [];
    assert Flatten([l]) == l.orders + Flatten([]);
  }

  lemma FlattenCons(l: PriceLevel, rest: seq<PriceLevel>)
    ensures Flatten([l] + rest) == l.orders + Flatten(rest)
  {
    assert ([l] + rest)[0] == l && ([l] + rest)[1..] == rest;
  }

  lemma SplitAt<T>(s: seq<T>, i: nat)
    requires i < |s|
    ensures s == s[..i] + ([s[i]] + s[i + 1..])
  {
  }

  // The flat list around one level.
  lemma FlattenSplit(levels: seq<PriceLevel>, i: nat)
    requires i < |levels|
    ensures Flatten(levels) == Flatten(levels[..i]) + levels[i].orders + Flatten(levels[i + 1..])
  {
    var a, l, b := levels[..i], levels[i], levels[i + 1..];
    SplitAt(levels, i);
    FlattenAppend(a, [l] + b);
    FlattenCons(l, b);
    Assoc(Flatten(a), l.orders, Flatten(b));
  }

  lemma FlattenSnoc(levels: seq<PriceLevel>, i: nat)
    requires i < |levels|
    ensures Flatten(levels[..i + 1]) == Flatten(levels[..i]) + levels[i].orders
  {
    assert levels[..i + 1] == levels[..i] + [levels[i]];
    FlattenAppend(levels[..i], [levels[i]]);
    FlattenOne(levels[i]);
  }

  lemma {:induction false} FlattenMembers(levels: seq<PriceLevel>, o: Order)
    ensures o in Flatten(levels) <==> exists l :: l in levels && o in l.orders
  {
    if levels != [] {
      FlattenMembers(levels[1..], o);
      if o in levels[0].orders {
        assert levels[0] in levels;
      }
      if l :| l in levels[1..] && o in l.orders {
        assert l in levels;
      }
    }
  }

  // Orders in front of and behind a tree position carry better and worse prices.
  lemma FlattenPrices(side: Side, levels: seq<PriceLevel>, price: nat)
    requires Shaped(side, levels)
    ensures var r := Rank(side, levels, price);
            && (forall o :: o in Flatten(levels[..r]) ==> Better(side, o.price, price))
            && (forall o :: o in Flatten(levels[r..]) ==> !Better(side, o.price, price))
  {
    var r := Rank(side, levels, price);
    forall o | o in Flatten(levels[..r])
      ensures Better(side, o.price, price)
    {
      FlattenMembers(levels[..r], o);
      var l :| l in levels[..r] && o in l.orders;
      assert l in levels;
    }
    forall o | o in Flatten(levels[r..])
      ensures !Better(side, o.price, price)
    {
      FlattenMembers(levels[r..], o);
      var l :| l in levels[r..] && o in l.orders;
      var i :| r <= i < |levels| && levels[i] == l;
      assert l in levels;
      assert i > r ==> Better(side, levels[r].price, levels[i].price);
    }
  }

  // Behind an existing level every price is strictly worse.
  lemma FlattenBehind(side: Side, levels: seq<PriceLevel>, i: nat)
    requires Shaped(side, levels) && i < |levels|
    ensures forall o :: o in Flatten(levels[i + 1..]) ==> Better(side, levels[i].price, o.price)
  {
    forall o | o in Flatten(levels[i + 1..])
      ensures Better(side, levels[i].price, o.price)
    {
      FlattenMembers(levels[i + 1..], o);
      var l :| l in levels[i + 1..] && o in l.orders;
      var j :| i + 1 <= j < |levels| && levels[j] == l;
      assert l in levels;
    }
  }

  lemma HasPriceLevel(side: Side, levels: seq<PriceLevel>, price: nat)
    requires Shaped(side, levels) && NoneEmpty(levels)
    ensures HasPrice(Flatten(levels), price) <==> HasLevelAt(side, levels, price)
  {
    var r := Rank(side, levels, price);
    FlattenPrices(side, levels, price);
    assert levels == levels[..r] + levels[r..];
    FlattenAppend(levels[..r], levels[r..]);
    if r < |levels| {
      FlattenSplit(levels, r);
      assert levels[r] in levels;
      var o := levels[r].orders[0];
      assert o in levels[r].orders && o in Flatten(levels);
      if levels[r].price != price {
        FlattenBehind(side, levels, r);
      }
    }
  }

  // --- Creating and deleting levels ---------------------------------------------------

  lemma CreateLevel(side: Side, levels: seq<PriceLevel>, price: nat)
    requires Shaped(side, levels) && !HasLevelAt(side, levels, price)
    ensures var i := Rank(side, levels, price);
            var r := levels[..i] + [PriceLevel(price, 0, [])] + levels[i..];
            && Shaped(side, r) && r[i].price == price
            && Flatten(r) == Flatten(levels)
  {
    var i, empty := Rank(side, levels, price), PriceLevel(price, 0, []);
    var r := levels[..i] + [empty] + levels[i..];
    CreateShaped(side, levels, price, r);
    FlattenEmpty(levels, i, empty);
  }

  lemma FlattenEmpty(levels: seq<PriceLevel>, i: nat, empty: PriceLevel)
    requires i <= |levels| && empty.orders == []
    ensures Flatten(levels[..i] + [empty] + levels[i..]) == Flatten(levels)
  {
    var a, b := levels[..i], levels[i..];
    FlattenAround(a, b, empty);
    assert a + b == levels && a + [empty] + b == a + ([empty] + b);
  }

  lemma FlattenAround(a: seq<PriceLevel>, b: seq<PriceLevel>, empty: PriceLevel)
    requires empty.orders == []
    ensures Flatten(a + ([empty] + b)) == Flatten(a + b)
  {
    FlattenAppend(a, [empty] + b);
    FlattenCons(empty, b);
    EmptyLeft(Flatten(b));
    FlattenAppend(a, b);
  }

  lemma EmptyLeft(s: seq<Order>)
    ensures [] + s == s
  {
  }

  lemma CreateShaped(side: Side, levels: seq<PriceLevel>, price: nat, r: seq<PriceLevel>)
    requires Shaped(side, levels) && !HasLevelAt(side, levels, price)
    requires var i := Rank(side, levels, price);
             r == levels[..i] + [PriceLevel(price, 0, [])] + levels[i..]
    ensures Shaped(side, r)
  {
    CreateSorted(side, levels, price, r);
    forall l | l in r
      ensures TrueLevel(l)
    {
      assert l == PriceLevel(price, 0, []) || l in levels;
    }
  }

  lemma CreateSorted(side: Side, levels: seq<PriceLevel>, price: nat, r: seq<PriceLevel>)
    requires Shaped(side, levels) && !HasLevelAt(side, levels, price)
    requires var i := Rank(side, levels, price);
             r == levels[..i] + [PriceLevel(price, 0, [])] + levels[i..]
    ensures forall j, k :: 0 <= j < k < |r| ==> Better(side, r[j].price, r[k].price)
  {
    var i := Rank(side, levels, price);
    forall j, k | 0 <= j < k < |r|
      ensures Better(side, r[j].price, r[k].price)
    {
      if k <= i {
        assert r[j] == levels[j];
      } else {
        assert r[k] == levels[k - 1];
        assert i < k - 1 ==> Better(side, levels[i].price, levels[k - 1].price);
        if j != i {
          assert r[j] == levels[if j < i then j else j - 1];
        }
      }
    }
  }

  lemma DeleteLevel(side: Side, levels: seq<PriceLevel>, i: nat)
    requires Shaped(side, levels) && i < |levels| && levels[i].orders == []
    ensures var r := levels[..i] + levels[i + 1..];
            && Shaped(side, r)
            && Flatten(r) == Flatten(levels)
            && forall l :: l in r ==> l in levels && l.price != levels[i].price
  {
    var r := levels[..i] + levels[i + 1..];
    assert forall k :: 0 <= k < |r| ==> r[k] == levels[if k < i then k else k + 1];
    assert forall k :: 0 <= k < |r| ==> r[k] in levels;
    FlattenSplit(levels, i);
    FlattenAppend(levels[..i], levels[i + 1..]);
    assert Flatten(levels[..i]) + [] == Flatten(levels[..i]);
  }

  // --- Insertion ------------------------------------------------------------------

  lemma {:induction false} InsertBehind(a: seq<Order>, b: seq<Order>, o: Order)
    requires forall x :: x in a ==> !Better(o.side, o.price, x.price)
    ensures Insert(a + b, o) == a + Insert(b, o)
  {
    if a == [] {
      assert a + b == b && a + Insert(b, o) == Insert(b, o);
    } else {
      assert (a + b)[1..] == a[1..] + b;
      InsertBehind(a[1..], b, o);
      Assoc([a[0]], a[1..], Insert(b, o));
      assert [a[0]] + a[1..] == a;
    }
  }

  // Up to the end of a level, no order has a worse price than the level.
  lemma NoneWorseInFront(side: Side, levels: seq<PriceLevel>, i: nat)
    requires Shaped(side, levels) && i < |levels|
    ensures forall x :: x in Flatten(levels[..i]) + levels[i].orders ==> !Better(side, levels[i].price, x.price)
  {
    forall x | x in Flatten(levels[..i]) + levels[i].orders
      ensures !Better(side, levels[i].price, x.price)
    {
      if x in Flatten(levels[..i]) {
        FlattenMembers(levels[..i], x);
        var m :| m in levels[..i] && x in m.orders;
        assert m in levels;
      } else {
        assert levels[i] in levels;
      }
    }
  }

  // Pushing an order to the back of its level is inserting it in the flat list.
  lemma PushIsInsert(side: Side, levels: seq<PriceLevel>, i: nat, o: Order)
    requires Shaped(side, levels) && i < |levels| && levels[i].price == o.price && o.side == side
    ensures var pushed := levels[i].(totalVolume := Wrap64(levels[i].totalVolume + o.size),
                                       orders := levels[i].orders + [o]);
            && Flatten(levels[i := pushed]) == Insert(Flatten(levels), o)
            && TrueLevel(pushed)
  {
    var l := levels[i];
    var pushed := l.(totalVolume := Wrap64(l.totalVolume + o.size), orders := l.orders + [o]);
    var front, back := Flatten(levels[..i]), Flatten(levels[i + 1..]);
    assert l in levels;
    PushedTrue(l, o);
    FlattenSplit(levels, i);
    FlattenReplaced(levels, i, pushed);
    NoneWorseInFront(side, levels, i);
    InsertBehind(front + l.orders, back, o);
    FlattenBehind(side, levels, i);
    assert Insert(back, o) == [o] + back;
    assert front + l.orders + ([o] + back) == front + (l.orders + [o]) + back;
  }

  lemma FlattenReplaced(levels: seq<PriceLevel>, i: nat, l: PriceLevel)
    requires i < |levels|
    ensures Flatten(levels[i := l]) == Flatten(levels[..i]) + l.orders + Flatten(levels[i + 1..])
  {
    FlattenSplit(levels[i := l], i);
    assert levels[i := l][..i] == levels[..i] && levels[i := l][i + 1..] == levels[i + 1..];
  }

  lemma PushedTrue(l: PriceLevel, o: Order)
    requires TrueLevel(l)
    ensures Wrap64(l.totalVolume + o.size) == Wrap64(Volume(l.orders + [o]))
  {
    VolumeAppend(l.orders, [o]);
    assert [o][1..] == [];
    assert Volume([o]) == o.size;
    WrapSum(Volume(l.orders), o.size);
  }

  lemma {:induction false} VolumeAppend(a: seq<Order>, b: seq<Order>)
    ensures Volume(a + b) == Volume(a) + Volume(b)
  {
    if a == [] {
      assert a + b == b;
    } else {
      assert (a + b)[1..] == a[1..] + b;
      VolumeAppend(a[1..], b);
    }
  }

  // --- Removal --------------------------------------------------------------------

  lemma {:induction false} LookupSkips(a: seq<Order>, b: seq<Order>, price: nat, id: nat)
    requires forall x :: x in a ==> x.price != price || x.id != id
    ensures Lookup(a + b, price, id) == Lookup(b, price, id)
    ensures Without(a + b, price, id) == a + Without(b, price, id)
  {
    if a == [] {
      assert a + b == b && a + Without(b, price, id) == Without(b, price, id);
    } else {
      assert (a + b)[1..] == a[1..] + b;
      LookupSkips(a[1..], b, price, id);
      Assoc([a[0]], a[1..], Without(b, price, id));
      assert [a[0]] + a[1..] == a;
    }
  }

  // Position `at` of a queue holds the only order with that price and id.
  lemma LookupAt(orders: seq<Order>, at: nat, price: nat, id: nat)
    requires at < |orders| && orders[at].price == price && orders[at].id == id
    requires forall i :: 0 <= i < at ==> orders[i].id != id
    ensures Lookup(orders, price, id) == Some(orders[at])
    ensures Without(orders, price, id) == orders[..at] + orders[at + 1..]
  {
    var a, b := orders[..at], orders[at..];
    assert orders == a + b && b[0] == orders[at] && b[1..] == orders[at + 1..];
    LookupSkips(a, b, price, id);
  }

  lemma {:induction false} LookupNone(orders: seq<Order>, price: nat, id: nat)
    requires forall x :: x in orders ==> x.price != price || x.id != id
    ensures Lookup(orders, price, id) == None
    ensures Without(orders, price, id) == orders
  {
    assert orders + [] == orders;
    LookupSkips(orders, [], price, id);
  }

  // --- Market data ------------------------------------------------------------------

  function DepthOf(levels: seq<PriceLevel>): seq<Depth> {
    if levels == [] then [] else [Depth(levels[0].price, Volume(levels[0].orders))] + DepthOf(levels[1..])
  }

  lemma {:induction false} DepthAt(levels: seq<PriceLevel>, i: nat)
    requires i < |levels|
    ensures |DepthOf(levels)| == |levels|
    ensures DepthOf(levels)[i] == Depth(levels[i].price, Volume(levels[i].orders))
  {
    if |levels| > 1 {
      DepthAt(levels[1..], if i == 0 then 0 else i - 1);
    }
  }

  // An order in front of other prices makes a level of its own.
  lemma NewLevel(o: Order, rest: seq<Order>)
    requires forall x :: x in rest ==> x.price != o.price
    ensures Grouped(o, Levels(rest)) == [Depth(o.price, o.size)] + Levels(rest)
  {
    if rest != [] {
      LevelsHead(rest);
      assert rest[0] in rest;
    }
  }

  lemma {:induction false} GroupQueue(queue: seq<Order>, rest: seq<Order>, price: nat)
    requires queue != [] && forall o :: o in queue ==> o.price == price
    requires forall o :: o in rest ==> o.price != price
    ensures Levels(queue + rest) == [Depth(price, Volume(queue))] + Levels(rest)
  {
    var all := queue + rest;
    if |queue| == 1 {
      assert all[1..] == rest && queue[1..] == [];
      NewLevel(queue[0], rest);
      assert Volume(queue) == queue[0].size;
    } else {
      assert all[1..] == queue[1..] + rest;
      GroupQueue(queue[1..], rest, price);
    }
  }

  lemma {:induction false} FlattenLevels(side: Side, levels: seq<PriceLevel>)
    requires Shaped(side, levels) && NoneEmpty(levels)
    ensures Levels(Flatten(levels)) == DepthOf(levels)
  {
    if levels != [] {
      FlattenLevels(side, levels[1..]);
      FlattenBehind(side, levels, 0);
      assert levels[0] in levels;
      GroupQueue(levels[0].orders, Flatten(levels[1..]), levels[0].price);
    }
  }

  // --- The queue of a level being matched ---------------------------------------------

  // What survives the deferred removal of filled makers.
  function Alive(queue: seq<Order>): seq<Order> {
    if queue == [] then []
    else (if queue[0].size == 0 then [] else [queue[0]]) + Alive(queue[1..])
  }

  // The positions recorded for removal.
  function Zeros(queue: seq<Order>): seq<nat> {
    if queue == [] then []
    else
      var n := |queue| - 1;
      Zeros(queue[..n]) + if queue[n].size == 0 then [n] else []
  }

  lemma {:induction false} AliveAppend(a: seq<Order>, b: seq<Order>)
    ensures Alive(a + b) == Alive(a) + Alive(b)
  {
    if a == [] {
      assert a + b == b;
    } else {
      assert (a + b)[1..] == a[1..] + b;
      AliveAppend(a[1..], b);
    }
  }

  lemma {:induction false} AliveSized(queue: seq<Order>)
    requires forall o :: o in queue ==> o.size > 0
    ensures Alive(queue) == queue
  {
    if queue != [] {
      AliveSized(queue[1..]);
    }
  }

  lemma {:induction false} AliveVolume(queue: seq<Order>)
    ensures Volume(Alive(queue)) == Volume(queue)
  {
    if queue != [] {
      AliveVolume(queue[1..]);
      if queue[0].size != 0 {
        assert Alive(queue)[1..] == Alive(queue[1..]);
      } else {
        assert Alive(queue) == Alive(queue[1..]);
      }
    }
  }

  // The last recorded position: everything behind it in the queue is alive.
  lemma {:induction false} LastZero(queue: seq<Order>)
    requires Zeros(queue) != []
    ensures var z := Zeros(queue)[|Zeros(queue)| - 1];
            && z < |queue| && queue[z].size == 0
            && Zeros(queue)[..|Zeros(queue)| - 1] == Zeros(queue[..z])
            && (forall i :: z < i < |queue| ==> queue[i].size > 0)
  {
    var n := |queue| - 1;
    if queue[n].size != 0 {
      LastZero(queue[..n]);
      var z := Zeros(queue)[|Zeros(queue)| - 1];
      assert queue[..n][..z] == queue[..z];
    }
  }

  lemma {:induction false} NoZeros(queue: seq<Order>)
    requires Zeros(queue) == []
    ensures forall o :: o in queue ==> o.size > 0
  {
    if queue != [] {
      NoZeros(queue[..|queue| - 1]);
    }
  }

  // Replacing one entry changes the volume by the difference.
  lemma VolumeUpdate(queue: seq<Order>, i: nat, o: Order)
    requires i < |queue|
    ensures Volume(queue[i := o]) + queue[i].size == Volume(queue) + o.size
  {
    var a, b := queue[..i], queue[i + 1..];
    SplitAt(queue, i);
    assert queue[i := o] == a + ([o] + b);
    VolumeAppend(a, [queue[i]] + b);
    VolumeAppend(a, [o] + b);
    VolumeCons(queue[i], b);
    VolumeCons(o, b);
  }

  // --- Eligible volume, level by level --------------------------------------------------

  // The volume of a level that does not belong to `user`.
  function OthersVolume(orders: seq<Order>, user: nat): nat {
    if orders == [] then 0
    else (if orders[0].user != user then orders[0].size else 0) + OthersVolume(orders[1..], user)
  }

  lemma {:induction false} EligibleOrdersAppend(t: Taker, a: seq<Order>, b: seq<Order>)
    ensures EligibleOrders(t, a + b) == EligibleOrders(t, a) + EligibleOrders(t, b)
  {
    if a == [] {
      assert a + b == b;
    } else {
      assert (a + b)[1..] == a[1..] + b;
      EligibleOrdersAppend(t, a[1..], b);
    }
  }

  lemma {:induction false} EligibleOrdersMember(t: Taker, orders: seq<Order>, o: Order)
    ensures o in EligibleOrders(t, orders) <==> o in orders && Eligible(t, o)
  {
    if orders != [] {
      EligibleOrdersMember(t, orders[1..], o);
    }
  }

  lemma GroupedAppend(o: Order, a: seq<Depth>, b: seq<Depth>)
    requires a != [] || b == [] || b[0].price != o.price
    ensures Grouped(o, a + b) == Grouped(o, a) + b
  {
    if a != [] {
      assert (a + b)[1..] == a[1..] + b;
    } else {
      assert a + b == b;
    }
  }

  // Lists without a common price group separately.
  lemma {:induction false} LevelsAppend(a: seq<Order>, b: seq<Order>)
    requires forall x, y :: x in a && y in b ==> x.price != y.price
    ensures Levels(a + b) == Levels(a) + Levels(b)
  {
    if a == [] {
      assert a + b == b;
    } else {
      var o, tail := a[0], a[1..];
      assert (a + b)[0] == o && (a + b)[1..] == tail + b && o in a;
      LevelsAppend(tail, b);
      assert Levels(a + b) == Grouped(o, Levels(tail + b)) && Levels(a) == Grouped(o, Levels(tail));
      if tail != [] {
        LevelsHead(tail);
      } else if b != [] {
        LevelsHead(b);
        assert b[0] in b;
      }
      GroupedAppend(o, Levels(tail), Levels(b));
    }
  }

  lemma {:induction false} WrappedTotalAppend(a: seq<Depth>, b: seq<Depth>)
    ensures WrappedTotal(a + b) == WrappedTotal(a) + WrappedTotal(b)
  {
    if a == [] {
      assert a + b == b;
    } else {
      assert (a + b)[1..] == a[1..] + b;
      WrappedTotalAppend(a[1..], b);
    }
  }

  // One level counts for the sum of its eligible sizes, in 64 bits.
  lemma {:induction false} OneLevel(t: Taker, orders: seq<Order>, price: nat)
    requires Crosses(t, price) && forall o :: o in orders ==> o.price == price
    ensures var e := EligibleOrders(t, orders);
            Levels(e) == if e == [] then [] else [Depth(price, OthersVolume(orders, t.user))]
    ensures EligibleOrders(t, orders) == [] ==> OthersVolume(orders, t.user) == 0
  {
    if orders != [] {
      OneLevel(t, orders[1..], price);
      var e, tail := EligibleOrders(t, orders), EligibleOrders(t, orders[1..]);
      if orders[0].user != t.user {
        assert e[0] == orders[0] && e[1..] == tail;
      } else {
        assert e == [] + tail == tail;
      }
    }
  }

  // The count over the levels in front of i + 1 is that in front of i and level i's.
  lemma CountedNext(side: Side, t: Taker, levels: seq<PriceLevel>, i: nat)
    requires Shaped(side, levels) && i < |levels| && Crosses(t, levels[i].price)
    ensures Counted(t, Flatten(levels[..i + 1]))
         == Counted(t, Flatten(levels[..i])) + Wrap64(OthersVolume(levels[i].orders, t.user))
  {
    var front, l := Flatten(levels[..i]), levels[i];
    assert l in levels;
    FlattenSnoc(levels, i);
    EligibleOrdersAppend(t, front, l.orders);
    OneLevel(t, l.orders, l.price);
    var a, b := EligibleOrders(t, front), EligibleOrders(t, l.orders);
    forall x, y | x in a && y in b
      ensures x.price != y.price
    {
      EligibleOrdersMember(t, front, x);
      EligibleOrdersMember(t, l.orders, y);
      FlattenMembers(levels[..i], x);
      var m :| m in levels[..i] && x in m.orders;
      assert m in levels;
    }
    LevelsAppend(a, b);
    WrappedTotalAppend(Levels(a), Levels(b));
    if b != [] {
      assert WrappedTotal([Depth(l.price, OthersVolume(l.orders, t.user))][1..]) == 0;
    }
  }

  // What is in front of i counts for no more than everything.
  lemma CountedPrefix(side: Side, t: Taker, levels: seq<PriceLevel>, i: nat)
    requires Shaped(side, levels) && i <= |levels|
    ensures Counted(t, Flatten(levels)) >= Counted(t, Flatten(levels[..i]))
    ensures (forall o :: o in Flatten(levels[i..]) ==> !Eligible(t, o)) ==>
              Counted(t, Flatten(levels)) == Counted(t, Flatten(levels[..i]))
  {
    var front, back := Flatten(levels[..i]), Flatten(levels[i..]);
    assert levels == levels[..i] + levels[i..];
    FlattenAppend(levels[..i], levels[i..]);
    EligibleOrdersAppend(t, front, back);
    var a, b := EligibleOrders(t, front), EligibleOrders(t, back);
    forall x, y | x in a && y in b
      ensures x.price != y.price
    {
      EligibleOrdersMember(t, front, x);
      EligibleOrdersMember(t, back, y);
      SplitPrices(side, levels, i, x, y);
    }
    LevelsAppend(a, b);
    WrappedTotalAppend(Levels(a), Levels(b));
    if forall o :: o in back ==> !Eligible(t, o) {
      NoneEligible(t, back);
    }
  }

  lemma {:induction false} NoneEligible(t: Taker, orders: seq<Order>)
    requires forall o :: o in orders ==> !Eligible(t, o)
    ensures EligibleOrders(t, orders) == []
  {
    if orders != [] {
      NoneEligible(t, orders[1..]);
    }
  }

  lemma SplitPrices(side: Side, levels: seq<PriceLevel>, i: nat, x: Order, y: Order)
    requires Shaped(side, levels) && i <= |levels| && x in Flatten(levels[..i]) && y in Flatten(levels[i..])
    ensures x.price != y.price
  {
    FlattenMembers(levels[..i], x);
    FlattenMembers(levels[i..], y);
    var m :| m in levels[..i] && x in m.orders;
    var n :| n in levels[i..] && y in n.orders;
    var j :| 0 <= j < i && levels[j] == m;
    var k :| i <= k < |levels| && levels[k] == n;
    assert m in levels && n in levels;
    assert Better(side, levels[j].price, levels[k].price);
  }

  // A cached volume is the true one exactly when that fits a machine word.
  lemma CachedVolumeTrue(l: PriceLevel)
    requires TrueLevel(l)
    ensures l.totalVolume == Volume(l.orders) <==> Volume(l.orders) <= U64_MAX
  {
    WrapShrinks(Volume(l.orders));
  }

  // --- Cancelling inside a level -----------------------------------------------------------

  lemma VolumeWithout(orders: seq<Order>, at: nat)
    requires at < |orders|
    ensures Volume(orders[..at] + orders[at + 1..]) + orders[at].size == Volume(orders)
  {
    var a, o, b := orders[..at], orders[at], orders[at + 1..];
    SplitAt(orders, at);
    VolumeAppend(a, b);
    VolumeAppend(a, [o] + b);
    VolumeCons(o, b);
  }

  lemma VolumeCons(o: Order, rest: seq<Order>)
    ensures Volume([o] + rest) == o.size + Volume(rest)
  {
    assert ([o] + rest)[0] == o && ([o] + rest)[1..] == rest;
  }

  // Dropping one order from between two lists.
  lemma WithoutMiddle(front: seq<Order>, queue: seq<Order>, back: seq<Order>, at: nat, price: nat, id: nat)
    requires DistinctIds(front + queue + back)
    requires at < |queue| && queue[at].price == price && queue[at].id == id
    ensures var all := front + queue + back;
            && Lookup(all, price, id) == Some(queue[at])
            && Without(all, price, id) == front + (queue[..at] + queue[at + 1..]) + back
  {
    var all, k := front + queue + back, |front| + at;
    assert all[k] == queue[at];
    LookupAt(all, k, price, id);
    assert all[..k] == front + queue[..at];
    assert all[k + 1..] == queue[at + 1..] + back;
  }

  // A level whose queue holds the named order at `at`.
  lemma CancelInLevel(side: Side, levels: seq<PriceLevel>, i: nat, at: nat)
    requires Shaped(side, levels) && DistinctIds(Flatten(levels))
    requires i < |levels| && at < |levels[i].orders|
    ensures var l, o := levels[i], levels[i].orders[at];
            var queue := l.orders[..at] + l.orders[at + 1..];
            var left := PriceLevel(l.price, Wrap64(l.totalVolume - o.size), queue);
            && Lookup(Flatten(levels), l.price, o.id) == Some(o)
            && Flatten(levels[i := left]) == Without(Flatten(levels), l.price, o.id)
            && Shaped(side, levels[i := left])
  {
    var l, o := levels[i], levels[i].orders[at];
    var queue := l.orders[..at] + l.orders[at + 1..];
    var left := PriceLevel(l.price, Wrap64(l.totalVolume - o.size), queue);
    assert l in levels && o in l.orders;
    FlattenSplit(levels, i);
    WithoutMiddle(Flatten(levels[..i]), l.orders, Flatten(levels[i + 1..]), at, l.price, o.id);
    FlattenReplaced(levels, i, left);
    TakenTrue(l, at);
    ReplacedShaped(side, levels, i, left);
  }

  lemma TakenTrue(l: PriceLevel, at: nat)
    requires TrueLevel(l) && at < |l.orders|
    ensures var queue := l.orders[..at] + l.orders[at + 1..];
            && Wrap64(l.totalVolume - l.orders[at].size) == Wrap64(Volume(queue))
            && forall o :: o in queue ==> o in l.orders
  {
    VolumeWithout(l.orders, at);
    WrapSum(Volume(l.orders), l.orders[at].size);
  }

  lemma ReplacedShaped(side: Side, levels: seq<PriceLevel>, i: nat, left: PriceLevel)
    requires Shaped(side, levels) && i < |levels| && left.price == levels[i].price
    requires left.totalVolume == Wrap64(Volume(left.orders)) && forall o :: o in left.orders ==> o in levels[i].orders
    ensures Shaped(side, levels[i := left])
  {
    assert levels[i] in levels;
    assert forall m :: m in levels[i := left] ==> m == left || m in levels;
  }

  // The level for the price does not hold the order.
  lemma CancelNotInLevel(side: Side, levels: seq<PriceLevel>, i: nat, id: nat)
    requires Shaped(side, levels) && i < |levels|
    requires forall o :: o in levels[i].orders ==> o.id != id
    ensures Lookup(Flatten(levels), levels[i].price, id) == None
  {
    forall x | x in Flatten(levels)
      ensures x.price != levels[i].price || x.id != id
    {
      FlattenMembers(levels, x);
      var l :| l in levels && x in l.orders;
      var k :| 0 <= k < |levels| && levels[k] == l;
      assert k < i ==> Better(side, levels[k].price, levels[i].price);
      assert i < k ==> Better(side, levels[i].price, levels[k].price);
    }
    LookupNone(Flatten(levels), levels[i].price, id);
  }

  // Queues are in id order, which is what the binary search needs.
  lemma QueueSorted(side: Side, levels: seq<PriceLevel>, i: nat)
    requires Shaped(side, levels) && Sorted(side, Flatten(levels)) && i < |levels|
    ensures forall a, b :: 0 <= a < b < |levels[i].orders| ==> levels[i].orders[a].id < levels[i].orders[b].id
  {
    FlattenSplit(levels, i);
    var q, n := levels[i].orders, |Flatten(levels[..i])|;
    assert levels[i] in levels;
    forall a, b | 0 <= a < b < |q|
      ensures q[a].id < q[b].id
    {
      assert Flatten(levels)[n + a] == q[a] && Flatten(levels)[n + b] == q[b];
      assert q[a] in q && q[b] in q;
      assert Before(side, Flatten(levels)[n + a], Flatten(levels)[n + b]);
    }
  }
}
