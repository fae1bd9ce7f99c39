/**
 * The satoshi side of the genesis pipeline: aggregation of the UTXO stream by address, and the
 * reassignment of the Patoshi balances to one target address. Maps and sets are walked in an
 * arbitrary order, so what is proved holds for every order.
 */
module Supply {
  import opened Options
  import opened Sums
  import opened Decimal

  function Restrict(m: map<string, nat>, keys: set<string>): map<string, nat> {
    map k | k in m && k in keys :: m[k]
  }

  /** What `m` holds for `k`, nothing if it has no entry. */
  function Held(m: map<string, nat>, k: string): nat {
    if k in m then m[k] else 0
  }

  lemma RestrictStep(m: map<string, nat>, seen: set<string>, a: string)
    requires a in m && a !in seen
    ensures Restrict(m, seen + {a}) == Restrict(m, seen)[a := m[a]]
    ensures Sum(Restrict(m, seen + {a})) == Sum(Restrict(m, seen)) + m[a]
  {
    hide Sum;
    assert Restrict(m, seen + {a}) == Restrict(m, seen)[a := m[a]];
    SumUpdate(Restrict(m, seen), a, m[a]);
  }

  /** Any set of keys splits a sum in two. */
  lemma {:induction false} SumSplits(m: map<string, nat>, keys: set<string>)
    ensures Sum(m - keys) + Sum(Restrict(m, keys)) == Sum(m)
    decreases |m|
  {
    if m != map[] {
      var k :| k in m;
      SumSplits(m - {k}, keys);
      SplitStep(m, k, keys);
    } else {
      assert m - keys == m && Restrict(m, keys) == m;
    }
  }

  lemma SplitStep(m: map<string, nat>, k: string, keys: set<string>)
    requires k in m && Sum(m - {k} - keys) + Sum(Restrict(m - {k}, keys)) == Sum(m - {k})
    ensures Sum(m - keys) + Sum(Restrict(m, keys)) == Sum(m)
  {
    hide Sum;
    var rest := m - {k};
    SumRemove(m, k);
    if k in keys {
      SumRemove(Restrict(m, keys), k);
      assert Restrict(m, keys) - {k} == Restrict(rest, keys);
      assert m - keys == rest - keys;
    } else {
      SumRemove(m - keys, k);
      assert m - keys - {k} == rest - keys;
      assert Restrict(m, keys) == Restrict(rest, keys);
    }
  }

  // ---------------------------------------------------------------------------
  // Aggregation of the UTXO stream
  // ---------------------------------------------------------------------------

  datatype Utxo = Utxo(address: Option<string>, sats: nat)

  function TotalSats(items: seq<Utxo>): nat {
    if items == [] then 0 else TotalSats(items[..|items| - 1]) + items[|items| - 1].sats
  }

  /** The part of the stream that pays to some address. */
  function AddressedSats(items: seq<Utxo>): nat {
    if items == [] then 0
    else
      var last := items[|items| - 1];
      AddressedSats(items[..|items| - 1]) + if last.address.Some? then last.sats else 0
  }

  function SatsOf(items: seq<Utxo>, addr: string): nat {
    if items == [] then 0
    else
      var last := items[|items| - 1];
      SatsOf(items[..|items| - 1], addr) + if last.address == Some(addr) then last.sats else 0
  }

  ghost predicate Pays(items: seq<Utxo>, addr: string) {
    exists i :: 0 <= i < |items| && items[i].address == Some(addr)
  }

  /** `m` has exactly the addresses of the stream, each with all its satoshis. */
  ghost predicate Balances(m: map<string, nat>, items: seq<Utxo>) {
    && (forall a :: a in m <==> Pays(items, a))
    && (forall a :: a in m ==> m[a] == SatsOf(items, a))
    && Sum(m) == AddressedSats(items)
  }

  /** Fails exactly on a count that is not the one in the header. The additions are unchecked in u64. */
  method ParseAndAggregate(items: seq<Utxo>, expected: nat) returns (r: Option<map<string, nat>>)
    requires TotalSats(items) < U64
    ensures r.Some? <==> |items| == expected
    ensures r.Some? ==> Balances(r.value, items)
  {
    hide Balances, Held;
    var m: map<string, nat> := map[];
    var total, skipped := 0, 0;
    NoBalances();
    for n := 0 to |items|
      invariant Balances(m, items[..n])
      invariant total == TotalSats(items[..n]) && skipped <= n
    {
      var item := items[n];
      assert items[..n + 1] == items[..n] + [item];
      TotalGrows(items, n + 1);
      AddItem(m, items[..n], item);
      total := total + item.sats;
      assert total < U64;
      match item.address {
        case Some(addr) => m := m[addr := Held(m, addr) + item.sats];
        case None => skipped := skipped + 1;
      }
    }
    assert items[..|items|] == items;
    r := if |items| == expected then Some(m) else None;
  }

  lemma NoBalances()
    ensures Balances(map[], [])
  {
  }

  lemma {:induction false} TotalGrows(items: seq<Utxo>, n: nat)
    requires n <= |items|
    ensures TotalSats(items[..n]) <= TotalSats(items)
  {
    if n < |items| {
      TotalGrows(items[..|items| - 1], n);
      assert items[..|items| - 1][..n] == items[..n];
    } else {
      assert items[..n] == items;
    }
  }

  lemma {:induction false} NotPaid(items: seq<Utxo>, a: string)
    requires !Pays(items, a)
    ensures SatsOf(items, a) == 0
  {
    if items != [] {
      assert !Pays(items[..|items| - 1], a);
      NotPaid(items[..|items| - 1], a);
    }
  }

  lemma AddItem(m: map<string, nat>, before: seq<Utxo>, item: Utxo)
    requires Balances(m, before)
    ensures item.address.None? ==> Balances(m, before + [item])
    ensures item.address.Some? ==>
              Balances(m[item.address.value := Held(m, item.address.value) + item.sats], before + [item])
    ensures TotalSats(before + [item]) == TotalSats(before) + item.sats
  {
    var after := before + [item];
    assert after[..|before|] == before;
    forall a
      ensures Pays(after, a) <==> Pays(before, a) || item.address == Some(a)
    {
      if item.address == Some(a) {
        assert after[|before|].address == Some(a);
      }
      if i :| 0 <= i < |before| && before[i].address == Some(a) {
        assert after[i].address == Some(a);
      }
    }
    if item.address.Some? {
      var a := item.address.value;
      SumUpdate(m, a, Held(m, a) + item.sats);
      if a !in m {
        NotPaid(before, a);
      }
    }
  }

  // ---------------------------------------------------------------------------
  // Patoshi reassignment
  // ---------------------------------------------------------------------------

  ghost function Hits(m: map<string, nat>, keys: set<string>): nat {
    |m.Keys * keys|
  }

  ghost function Removed(m: map<string, nat>, patoshi: set<string>): nat {
    Sum(Restrict(m, patoshi))
  }

  /** The other balances, with what was removed added to the target if it was anything. */
  ghost function Reassigned(m: map<string, nat>, patoshi: set<string>, target: string): map<string, nat> {
    var rest := m - patoshi;
    if Removed(m, patoshi) == 0 then rest else rest[target := Held(rest, target) + Removed(m, patoshi)]
  }

  method ReassignPatoshi(utxos: map<string, nat>, patoshi: set<string>, target: string)
    returns (out: map<string, nat>, total: nat, removed: nat)
    requires Sum(utxos) < U64
    ensures out == Reassigned(utxos, patoshi, target)
    ensures total == Removed(utxos, patoshi) && removed == Hits(utxos, patoshi)
    ensures Sum(out) == Sum(utxos)
  {
    hide Taken, Sum, Reassigned, Removed, Hits, Held;
    out, total, removed := utxos, 0, 0;
    var left := patoshi;
    ghost var seen: set<string> := {};
    TakenNothing(utxos);
    while left != {}
      invariant left !! seen && left + seen == patoshi
      invariant Taken(utxos, seen, out, total, removed)
      decreases |left|
    {
      var addr :| addr in left;
      TakeOut(utxos, seen, out, total, removed, addr);
      if addr in out {
        assert total + out[addr] < U64;
        total, removed := total + out[addr], removed + 1;
        out := out - {addr};
      }
      left, seen := left - {addr}, seen + {addr};
    }
    assert seen == patoshi;
    TakenAll(utxos, patoshi, target, out, total, removed);
    RoomForTotal(utxos, patoshi, target);
    ReassignedSum(utxos, patoshi, target);
    if total > 0 {
      assert Held(out, target) + total < U64;
      out := out[target := Held(out, target) + total];
    }
  }

  /** The state of the removal loop when it has been through `seen`. */
  ghost predicate Taken(utxos: map<string, nat>, seen: set<string>, out: map<string, nat>, total: nat, removed: nat) {
    out == utxos - seen && total == Removed(utxos, seen) && removed == Hits(utxos, seen)
  }

  lemma TakenNothing(m: map<string, nat>)
    ensures Taken(m, {}, m, 0, 0)
  {
    assert m - {} == m && Restrict(m, {}) == map[];
  }

  lemma TakeOut(m: map<string, nat>, seen: set<string>, out: map<string, nat>, total: nat, removed: nat, a: string)
    requires a !in seen && Taken(m, seen, out, total, removed)
    ensures a !in out ==> Taken(m, seen + {a}, out, total, removed)
    ensures a in out ==> Taken(m, seen + {a}, out - {a}, total + out[a], removed + 1) && total + out[a] <= Sum(m)
  {
    hide Sum, Hits;
    HitStep(m, seen, a);
    assert m - (seen + {a}) == out - {a};
    if a in m {
      RestrictStep(m, seen, a);
      SumSplits(m, seen + {a});
    } else {
      assert out - {a} == out && Restrict(m, seen + {a}) == Restrict(m, seen);
    }
  }

  lemma HitStep(m: map<string, nat>, seen: set<string>, a: string)
    requires a !in seen
    ensures Hits(m, seen + {a}) == Hits(m, seen) + if a in m then 1 else 0
  {
    if a in m {
      assert m.Keys * (seen + {a}) == m.Keys * seen + {a};
    } else {
      assert m.Keys * (seen + {a}) == m.Keys * seen;
    }
  }

  lemma TakenAll(m: map<string, nat>, patoshi: set<string>, target: string, out: map<string, nat>, total: nat,
                 removed: nat)
    requires Taken(m, patoshi, out, total, removed)
    ensures out == m - patoshi && total == Removed(m, patoshi) && removed == Hits(m, patoshi)
    ensures Reassigned(m, patoshi, target) == if total == 0 then out else out[target := Held(out, target) + total]
  {
  }

  /** There is room to add what was removed. */
  lemma RoomForTotal(m: map<string, nat>, patoshi: set<string>, target: string)
    ensures Held(m - patoshi, target) + Removed(m, patoshi) <= Sum(m)
  {
    hide Sum;
    SumSplits(m, patoshi);
    if target in m - patoshi {
      SumAtLeast(m - patoshi, target);
    }
  }

  lemma ReassignedSum(m: map<string, nat>, patoshi: set<string>, target: string)
    ensures Sum(Reassigned(m, patoshi, target)) == Sum(m)
  {
    hide Sum;
    SumSplits(m, patoshi);
    SumUpdate(m - patoshi, target, Held(m - patoshi, target) + Removed(m, patoshi));
  }
}
