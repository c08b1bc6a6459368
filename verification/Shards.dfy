// Ownership by bit mask. Users belong to risk shards and markets to matching
// shards by `id & (shards - 1)`.
module Shards {
  import Arithmetic

  function BitAnd(a: nat, b: nat): nat {
    if a == 0 || b == 0 then 0
    else 2 * BitAnd(a / 2, b / 2) + (a % 2) * (b % 2)
  }

  function Pow2(k: nat): (p: nat)
    ensures p > 0
  {
    if k == 0 then 1 else 2 * Pow2(k - 1)
  }

  ghost predicate PowerOfTwo(n: nat) {
    exists k :: n == Pow2(k)
  }

  // The test the handlers make.
  predicate Owns(shards: nat, shard: nat, id: nat)
    requires shards > 0
  {
    BitAnd(id, shards - 1) == shard
  }

  lemma HalfRemainder(x: nat, p: nat)
    requires p > 0
    ensures x % (2 * p) == 2 * ((x / 2) % p) + x % 2
  {
    var q, r := (x / 2) / p, (x / 2) % p;
    assert x / 2 == p * q + r;
    assert x == 2 * p * q + (2 * r + x % 2);
    Arithmetic.Euclid(x, 2 * p, q, 2 * r + x % 2);
  }

  // A mask of low bits is a remainder.
  lemma {:induction false} MaskIsRemainder(x: nat, k: nat)
    ensures BitAnd(x, Pow2(k) - 1) == x % Pow2(k)
  {
    if k > 0 {
      var p := Pow2(k - 1);
      HalfRemainder(x, p);
      MaskIsRemainder(x / 2, k - 1);
      assert (2 * p - 1) / 2 == p - 1 && (2 * p - 1) % 2 == 1;
      if x == 0 {
        assert x % (2 * p) == 0;
      }
    }
  }

  // For every power of two, each id has exactly one owner.
  lemma OneOwner(shards: nat, id: nat)
    requires PowerOfTwo(shards)
    ensures id % shards < shards
    ensures forall shard :: Owns(shards, shard, id) <==> shard == id % shards
  {
    var k :| shards == Pow2(k);
    MaskIsRemainder(id, k);
  }

  // Distributes the configured markets over the matching shards.
  method DistributeMarkets(markets: seq<nat>, shards: nat) returns (owned: seq<set<nat>>)
    requires PowerOfTwo(shards)
    ensures |owned| == shards
    ensures forall j, m :: 0 <= j < shards ==> (m in owned[j] <==> m in markets && Owns(shards, j, m))
  {
    owned := seq(shards, _ => {});
    var i := 0;
    while i < |markets|
      invariant 0 <= i <= |markets| && |owned| == shards
      invariant forall j, m :: 0 <= j < shards ==> (m in owned[j] <==> m in markets[..i] && Owns(shards, j, m))
    {
      var owner := BitAnd(markets[i], shards - 1);
      OneOwner(shards, markets[i]);
      assert Owns(shards, owner, markets[i]);
      assert markets[..i + 1] == markets[..i] + [markets[i]];
      owned := owned[owner := owned[owner] + {markets[i]}];
      i := i + 1;
    }
    assert markets[..i] == markets;
  }
}
