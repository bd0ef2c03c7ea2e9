/** The inventories rows of one player: item -> count (internal/gacha/grant.go, internal/vow/vow.go). */
module Inventory {
  type Inventory = map<string, nat>

  function Count(inv: Inventory, item: string): nat { if item in inv then inv[item] else 0 }

  /** GrantItem's upsert: a new row of one, or one more. */
  function Grant(inv: Inventory, item: string): Inventory { inv[item := Count(inv, item) + 1] }

  /** No row is left empty. */
  predicate Stocked(inv: Inventory) { forall k | k in inv :: inv[k] >= 1 }

  /** How many items a player holds in all. */
  ghost function Total(inv: Inventory): nat
  {
    if inv == map[] then 0
    else
      var k :| k in inv;
      inv[k] + Total(inv - {k})
  }

  /** The total does not depend on which row is taken first. */
  lemma {:induction false} TotalTake(inv: Inventory, k: string)
    requires k in inv
    ensures Total(inv) == inv[k] + Total(inv - {k})
    decreases |inv|
  {
    var j :| j in inv && Total(inv) == inv[j] + Total(inv - {j});
    if j == k {
    } else {
      TotalTake(inv - {j}, k);
      TotalTake(inv - {k}, j);
      assert inv - {j} - {k} == inv - {k} - {j};
    }
  }

  lemma TotalUpdate(inv: Inventory, k: string, v: nat)
    ensures Total(inv[k := v]) == Total(inv) - Count(inv, k) + v
  {
    TotalTake(inv[k := v], k);
    assert inv[k := v] - {k} == inv - {k};
    if k in inv { TotalTake(inv, k); } else { assert inv - {k} == inv; }
  }

  /** The DELETE of rows whose count has reached zero. */
  function Prune(inv: Inventory): Inventory { map k | k in inv && inv[k] > 0 :: inv[k] }

  lemma PruneWithout(inv: Inventory, k: string)
    requires k in inv
    ensures Prune(inv - {k}) == Prune(inv) - {k}
  {}

  /** Deleting empty rows loses nothing. */
  lemma {:induction false} TotalPrune(inv: Inventory)
    ensures Total(inv) == Total(Prune(inv))
    decreases |inv|
  {
    if inv == map[] {
    } else {
      var k :| k in inv;
      TotalTake(inv, k);
      TotalPrune(inv - {k});
      PruneWithout(inv, k);
      if k in Prune(inv) {
        TotalTake(Prune(inv), k);
      } else {
        assert Prune(inv) - {k} == Prune(inv);
      }
    }
  }
}
