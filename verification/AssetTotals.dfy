// The sum of all balances of one asset, and how it moves with the store.
module AssetTotals {
  import opened Ledger

  // Sum of f over a finite set of keys.
  ghost function SetSum(f: Key -> int, keys: set<Key>): int {
    if keys == {} then 0
    else
      var k :| k in keys;
      f(k) + SetSum(f, keys - {k})
  }

  lemma {:induction false} SetSumRemove(f: Key -> int, keys: set<Key>, k: Key)
    requires k in keys
    ensures SetSum(f, keys) == f(k) + SetSum(f, keys - {k})
    decreases |keys|
  {
    var x :| x in keys && SetSum(f, keys) == f(x) + SetSum(f, keys - {x});
    if x != k {
      SetSumRemove(f, keys - {x}, k);
      SetSumRemove(f, keys - {k}, x);
      assert keys - {x} - {k} == keys - {k} - {x};
    }
  }

  lemma {:induction false} SetSumAdd(f: Key -> int, g: Key -> int, h: Key -> int, keys: set<Key>)
    requires forall k :: k in keys ==> h(k) == f(k) + g(k)
    ensures SetSum(h, keys) == SetSum(f, keys) + SetSum(g, keys)
    decreases |keys|
  {
    if keys != {} {
      var k :| k in keys;
      SetSumRemove(f, keys, k);
      SetSumRemove(g, keys, k);
      SetSumRemove(h, keys, k);
      SetSumAdd(f, g, h, keys - {k});
    }
  }

  // Keys where f vanishes do not matter.
  lemma {:induction false} SetSumExtend(f: Key -> int, keys: set<Key>, more: set<Key>)
    requires keys <= more && forall k :: k in more && k !in keys ==> f(k) == 0
    ensures SetSum(f, more) == SetSum(f, keys)
    decreases |more|
  {
    if keys == more {
    } else {
      var k :| k in more && k !in keys;
      SetSumRemove(f, more, k);
      SetSumExtend(f, keys, more - {k});
    }
  }

  function Point(k: Key, v: int): Key -> int {
    (x: Key) => if x == k then v else 0
  }

  lemma SetSumPoint(k: Key, v: int, keys: set<Key>)
    requires k in keys
    ensures SetSum(Point(k, v), keys) == v
  {
    SetSumRemove(Point(k, v), keys, k);
    SetSumExtend(Point(k, v), {}, keys - {k});
  }

  lemma {:induction false} SetSumNonNegative(f: Key -> int, keys: set<Key>)
    requires forall k :: k in keys ==> f(k) >= 0
    ensures SetSum(f, keys) >= 0
    decreases |keys|
  {
    if keys != {} {
      var k :| k in keys;
      SetSumRemove(f, keys, k);
      SetSumNonNegative(f, keys - {k});
    }
  }

  // --- Totals of an asset ---------------------------------------------------------------

  datatype Column = Available | Locked | Both

  function Amount(column: Column, b: Balance): nat {
    match column
    case Available => b.available
    case Locked => b.locked
    case Both => b.available + b.locked
  }

  function OfAsset(column: Column, s: Store, asset: nat): Key -> int {
    (k: Key) => if k.asset == asset then Amount(column, Get(s, k)) else 0
  }

  // One column of all balances of an asset, added up.
  ghost function Total(column: Column, s: Store, asset: nat): int {
    SetSum(OfAsset(column, s, asset), s.Keys)
  }

  ghost function Holdings(s: Store, asset: nat): int { Total(Both, s, asset) }

  // An amount, if it is of the asset in question.
  function Of(k: Key, asset: nat, amount: int): int {
    if k.asset == asset then amount else 0
  }

  ghost predicate Moves(column: Column, before: Store, after: Store, x: Key, dx: int, y: Key, dy: int) {
    forall k :: Amount(column, Get(after, k)) == Amount(column, Get(before, k)) + Point(x, dx)(k) + Point(y, dy)(k)
  }

  // A total moves with the balances of two keys.
  lemma TotalMoves(column: Column, before: Store, after: Store, x: Key, dx: int, y: Key, dy: int, asset: nat)
    requires Moves(column, before, after, x, dx, y, dy)
    ensures Total(column, after, asset) == Total(column, before, asset) + Of(x, asset, dx) + Of(y, asset, dy)
  {
    var all := before.Keys + after.Keys + {x, y};
    var a, b := OfAsset(column, before, asset), OfAsset(column, after, asset);
    SetSumExtend(a, before.Keys, all);
    SetSumExtend(b, after.Keys, all);
    var p, q := Point(x, Of(x, asset, dx)), Point(y, Of(y, asset, dy));
    var pq := (k: Key) => p(k) + q(k);
    forall k | k in all
      ensures b(k) == a(k) + pq(k)
    {
      assert Amount(column, Get(after, k)) == Amount(column, Get(before, k)) + Point(x, dx)(k) + Point(y, dy)(k);
    }
    SetSumAdd(a, pq, b, all);
    SetSumAdd(p, q, pq, all);
    SetSumPoint(x, Of(x, asset, dx), all);
    SetSumPoint(y, Of(y, asset, dy), all);
  }

  // What is held is what is available and what is locked.
  lemma HoldingsSplit(s: Store, asset: nat)
    ensures Holdings(s, asset) == Total(Available, s, asset) + Total(Locked, s, asset)
  {
    SetSumAdd(OfAsset(Available, s, asset), OfAsset(Locked, s, asset), OfAsset(Both, s, asset), s.Keys);
  }

  // No single balance has more available than all of its asset together.
  lemma AvailableWithin(s: Store, k: Key)
    ensures Get(s, k).available <= Total(Available, s, k.asset)
  {
    var f := OfAsset(Available, s, k.asset);
    if k in s {
      SetSumRemove(f, s.Keys, k);
      SetSumNonNegative(f, s.Keys - {k});
    } else {
      SetSumNonNegative(f, s.Keys);
    }
  }

  // --- Scopes ---------------------------------------------------------------------------------

  // What a claim is held against: one balance, or all balances of an asset.
  datatype Scope = One(key: Key) | All(asset: nat)

  predicate In(scope: Scope, k: Key) {
    match scope
    case One(key) => k == key
    case All(asset) => k.asset == asset
  }

  ghost function LockedIn(s: Store, scope: Scope): int {
    match scope
    case One(key) => Get(s, key).locked
    case All(asset) => Total(Locked, s, asset)
  }

  // Locked funds move with one balance.
  lemma LockedMoves(before: Store, after: Store, x: Key, dx: int, scope: Scope)
    requires forall k :: Get(after, k).locked == Get(before, k).locked + Point(x, dx)(k)
    ensures LockedIn(after, scope) == LockedIn(before, scope) + (if In(scope, x) then dx else 0)
  {
    if scope.All? {
      assert Moves(Locked, before, after, x, dx, x, 0);
      TotalMoves(Locked, before, after, x, dx, x, 0, scope.asset);
    }
  }
}
