/** The mainnet genesis command as a whole: UTXO stream to Patoshi reassignment to genesis file. */
module GenesisPipeline {
  import opened Options
  import opened Sums
  import opened Decimal
  import opened Supply
  import opened GenesisFile

  // ---------------------------------------------------------------------------
  // The balances of a stream, as one map
  // ---------------------------------------------------------------------------

  ghost function Addresses(items: seq<Utxo>): set<string> {
    set i | 0 <= i < |items| && items[i].address.Some? :: items[i].address.value
  }

  ghost function BalanceMap(items: seq<Utxo>): map<string, nat> {
    map a | a in Addresses(items) :: SatsOf(items, a)
  }

  lemma BalancesUnique(m: map<string, nat>, items: seq<Utxo>)
    requires Balances(m, items)
    ensures m == BalanceMap(items)
  {
    hide SatsOf;
    forall a
      ensures Pays(items, a) <==> a in Addresses(items)
    {
    }
  }

  // ---------------------------------------------------------------------------
  // The command
  // ---------------------------------------------------------------------------

  /** The balances that go into the genesis. */
  ghost function FinalBalances(items: seq<Utxo>, patoshi: set<string>, target: string): map<string, nat> {
    Reassigned(BalanceMap(items), patoshi, target)
  }

  ghost function Floor(items: seq<Utxo>, patoshi: set<string>): nat {
    Removed(BalanceMap(items), patoshi) * YOCTO
  }

  ghost function Registry(items: seq<Utxo>, patoshi: set<string>, target: string): map<string, nat> {
    if Floor(items, patoshi) > 0 then map[target := Floor(items, patoshi)] else map[]
  }

  /** Satoshis at ids that already have an account, which the builder passes over. */
  ghost function Colliding(items: seq<Utxo>, patoshi: set<string>, target: string, v: Validator): nat {
    Sum(Restrict(FinalBalances(items, patoshi, target), Reserved(v)))
  }

  /** No Patoshi list is the empty list. */
  method GenerateGenesis(items: seq<Utxo>, expected: nat, patoshi: set<string>, target: string, v: Validator)
    returns (r: Option<Genesis>)
    requires TotalSats(items) < U64 && FixedSupply(v) < U128
    ensures r.Some? <==> |items| == expected && Supplied(v, FinalBalances(items, patoshi, target)) < U128
    ensures r.Some? ==>
              && (exists index :: Complete(r.value.records, v, FinalBalances(items, patoshi, target),
                  Registry(items, patoshi, target), index))
              && Reconciled(r.value) && Summable(r.value)
    ensures r.Some? ==>
              && ParseU128(r.value.totalSupply).Some?
              && ParseU128(r.value.totalSupply).value + Colliding(items, patoshi, target, v) * YOCTO
                 == FixedSupply(v) + AddressedSats(items) * YOCTO
  {
    hide Balances, Removed, Reassigned, BalanceMap, Sum, Complete, Supplied, ParseU128, AccountTotal, Summable;
    var parsed := ParseAndAggregate(items, expected);
    if parsed.None? {
      return None;
    }
    BalancesUnique(parsed.value, items);
    BalancesFit(parsed.value, items);
    var utxos, total, _ := ReassignPatoshi(parsed.value, patoshi, target);
    var registry: map<string, nat> := if total > 0 then map[target := total * YOCTO] else map[];
    assert registry == Registry(items, patoshi, target);
    EntriesFit(utxos);
    r := Build(utxos, v, registry);
    SuppliedSplits(items, patoshi, target, v, parsed.value);
  }

  lemma {:induction false} AddressedWithin(items: seq<Utxo>)
    ensures AddressedSats(items) <= TotalSats(items)
  {
    if items != [] {
      AddressedWithin(items[..|items| - 1]);
    }
  }

  lemma BalancesFit(m: map<string, nat>, items: seq<Utxo>)
    requires Balances(m, items)
    ensures Sum(m) <= TotalSats(items)
  {
    AddressedWithin(items);
  }

  lemma EntriesFit(m: map<string, nat>)
    ensures forall a :: a in m ==> m[a] <= Sum(m)
  {
    forall a | a in m
      ensures m[a] <= Sum(m)
    {
      SumAtLeast(m, a);
    }
  }

  /** The declared total misses exactly the satoshis that collide. */
  lemma SuppliedSplits(items: seq<Utxo>, patoshi: set<string>, target: string, v: Validator, m: map<string, nat>)
    requires Balances(m, items)
    ensures Supplied(v, FinalBalances(items, patoshi, target)) + Colliding(items, patoshi, target, v) * YOCTO
            == FixedSupply(v) + AddressedSats(items) * YOCTO
  {
    hide Sum, Reassigned, BalanceMap;
    BalancesUnique(m, items);
    ReassignedSum(m, patoshi, target);
    SumSplits(FinalBalances(items, patoshi, target), Reserved(v));
  }

  // ---------------------------------------------------------------------------
  // The Patoshi floor
  // ---------------------------------------------------------------------------

  /** What a reserved account starts with. */
  function ReservedBalance(v: Validator, id: string): nat {
    if id == v.id then v.balance else TREASURY_BALANCE
  }

  /** Every account record of `id` holds at least `floor`, and there is one. */
  ghost predicate HoldsAtLeast(records: seq<StateRecord>, id: string, floor: nat) {
    && (exists r :: r in records && r.Account? && r.id == id)
    && (forall r :: r in records && r.Account? && r.id == id ==>
        ParseU128(r.amount).Some? && ParseU128(r.amount).value >= floor)
  }

  /** The target starts at or above its floor unless it is a reserved id whose own balance is too small. */
  lemma FloorIff(items: seq<Utxo>, patoshi: set<string>, target: string, v: Validator, records: seq<StateRecord>,
                 index: Option<seq<string>>)
    requires TotalSats(items) < U64 && v.balance < U128 && Floor(items, patoshi) > 0
    requires Complete(records, v, FinalBalances(items, patoshi, target), Registry(items, patoshi, target), index)
    ensures HoldsAtLeast(records, target, Floor(items, patoshi))
            <==> target !in Reserved(v) || ReservedBalance(v, target) >= Floor(items, patoshi)
    ensures exists r ::
              && r in records && r.Data? && r.id == target
              && r.value == PatoshiRecord(Floor(items, patoshi), true, None)
  {
    hide ParseU128, ToString, BalanceMap, Removed;
    var final := FinalBalances(items, patoshi, target);
    var amount := if target in Reserved(v) then ReservedBalance(v, target) else final[target] * YOCTO;
    TargetFits(items, patoshi, target);
    ParsePrinted(amount);
    var account := AccountOf(v, final, target).value;
    assert Expected(account, v, final, Registry(items, patoshi, target), index);
    assert forall r :: r in records && r.Account? && r.id == target ==>
        Expected(r, v, final, Registry(items, patoshi, target), index);
    assert ParseU128(account.amount) == Some(amount);
    var lock := Data(target, PatoshiRecord(Floor(items, patoshi), true, None));
    assert Expected(lock, v, final, Registry(items, patoshi, target), index);
  }

  lemma TargetFits(items: seq<Utxo>, patoshi: set<string>, target: string)
    requires TotalSats(items) < U64 && Floor(items, patoshi) > 0
    ensures target in FinalBalances(items, patoshi, target)
    ensures Removed(BalanceMap(items), patoshi) <= FinalBalances(items, patoshi, target)[target] < U64
  {
    hide Sum, BalanceMap, Removed;
    ReassignedSum(BalanceMap(items), patoshi, target);
    SumAtLeast(FinalBalances(items, patoshi, target), target);
    BalanceMapFits(items);
  }

  lemma {:induction false} BalanceMapFits(items: seq<Utxo>)
    ensures Balances(BalanceMap(items), items) && Sum(BalanceMap(items)) <= TotalSats(items)
  {
    BalanceMapSums(items);
    BalancesFit(BalanceMap(items), items);
  }

  lemma {:induction false} BalanceMapSums(items: seq<Utxo>)
    ensures Balances(BalanceMap(items), items)
  {
    hide SatsOf, Sum, AddressedSats;
    if items == [] {
      NoBalances();
      BalancesUnique(map[], []);
    } else {
      var before, item := items[..|items| - 1], items[|items| - 1];
      BalanceMapSums(before);
      AddItem(BalanceMap(before), before, item);
      assert before + [item] == items;
      if item.address.Some? {
        var a, m := item.address.value, BalanceMap(before);
        BalancesUnique(m[a := Held(m, a) + item.sats], items);
      } else {
        BalancesUnique(BalanceMap(before), items);
      }
    }
  }

  /** No other Patoshi address has an account, short of one named like the validator or the treasury. */
  lemma OtherPatoshiGone(items: seq<Utxo>, patoshi: set<string>, target: string, v: Validator,
                         records: seq<StateRecord>, index: Option<seq<string>>, a: string)
    requires Complete(records, v, FinalBalances(items, patoshi, target), Registry(items, patoshi, target), index)
    requires a in patoshi && a != target
    ensures (exists r :: r in records && r.Account? && r.id == a) <==> a in Reserved(v)
  {
    hide BalanceMap, Removed, ToString;
    var final := FinalBalances(items, patoshi, target);
    assert a !in final;
    assert forall r :: r in records ==> Expected(r, v, final, Registry(items, patoshi, target), index);
    if a in Reserved(v) {
      var account := AccountOf(v, final, a).value;
      assert Expected(account, v, final, Registry(items, patoshi, target), index);
    }
  }

  // ---------------------------------------------------------------------------
  // The command's own validator
  // ---------------------------------------------------------------------------

  /** The command takes the id from its arguments and fixes the amounts. */
  function CommandValidator(id: string): Validator {
    Validator(id, 1_000_000_000_000_000_000_000_000_000_000, 50_000_000_000_000_000_000_000_000_000_000)
  }

  /** The total of the command's file: the validator's 51 million, the treasury's one, and the balances. */
  lemma CommandSupply(id: string, utxos: map<string, nat>)
    requires id != "near"
    ensures Supplied(CommandValidator(id), utxos)
            == 51_000_001_000_000_000_000_000_000_000_000 + Sum(utxos - {id, "near"}) * 10_000_000_000_000_000
  {
    hide Sum;
    assert Reserved(CommandValidator(id)) == {id, "near"};
  }

  /** The command's target is a Bitcoin address, never the treasury; it may be the validator's account. */
  lemma CommandFloor(items: seq<Utxo>, patoshi: set<string>, target: string, id: string,
                     records: seq<StateRecord>, index: Option<seq<string>>)
    requires TotalSats(items) < U64 && target != TREASURY && Floor(items, patoshi) > 0
    requires Complete(records, CommandValidator(id), FinalBalances(items, patoshi, target),
            Registry(items, patoshi, target), index)
    ensures HoldsAtLeast(records, target, Floor(items, patoshi))
            <==> target != id || Removed(BalanceMap(items), patoshi) <= 100_000_000_000_000
  {
    hide HoldsAtLeast, Complete, FinalBalances, Registry, Removed, BalanceMap;
    FloorIff(items, patoshi, target, CommandValidator(id), records, index);
  }

  const PATOSHI_ADDRESS: string := "12c6DSiU4Rq3P4ZxziKxzrL5LmMBrzjrJX"
  const VALIDATOR_ADDRESS: string := "1BoatSLRHtKNngkdXEeobR76b53LETtpyT"

  lemma OneOutput(addr: string, sats: nat)
    ensures BalanceMap([Utxo(Some(addr), sats)]) == map[addr := sats]
    ensures TotalSats([Utxo(Some(addr), sats)]) == sats
    ensures SatsOf([Utxo(Some(addr), sats)], addr) == sats
  {
    var items := [Utxo(Some(addr), sats)];
    assert items[..0] == [];
    assert items[0].address == Some(addr);
    assert SatsOf(items, addr) == sats;
    assert Addresses(items) == {addr};
    assert BalanceMap(items) == map[addr := sats];
  }

  lemma OneRemoved(addr: string, sats: nat)
    ensures Removed(map[addr := sats], {addr}) == sats
  {
    var m := map[addr := sats];
    assert Restrict(m, {addr}) == m && m - {addr} == map[];
    SumRemove(m, addr);
  }

  /** With the validator's account as target, 1,100,000 removed bitcoins: every complete genesis misses the floor. */
  lemma FloorMissed(records: seq<StateRecord>, index: Option<seq<string>>)
    requires var items := [Utxo(Some(PATOSHI_ADDRESS), 110_000_000_000_000)];
             Complete(records, CommandValidator(VALIDATOR_ADDRESS),
                 FinalBalances(items, {PATOSHI_ADDRESS}, VALIDATOR_ADDRESS),
                      Registry(items, {PATOSHI_ADDRESS}, VALIDATOR_ADDRESS), index)
    ensures !HoldsAtLeast(records, VALIDATOR_ADDRESS,
            Floor([Utxo(Some(PATOSHI_ADDRESS), 110_000_000_000_000)], {PATOSHI_ADDRESS}))
  {
    hide HoldsAtLeast, Complete, FinalBalances, Registry, Removed, BalanceMap, TotalSats;
    var items := [Utxo(Some(PATOSHI_ADDRESS), 110_000_000_000_000)];
    OneOutput(PATOSHI_ADDRESS, 110_000_000_000_000);
    OneRemoved(PATOSHI_ADDRESS, 110_000_000_000_000);
    CommandFloor(items, {PATOSHI_ADDRESS}, VALIDATOR_ADDRESS, VALIDATOR_ADDRESS, records, index);
  }

  // ---------------------------------------------------------------------------
  // When nothing is lost
  // ---------------------------------------------------------------------------

  /** The id would receive satoshis: its own, or those of the Patoshi addresses. */
  ghost predicate Receives(items: seq<Utxo>, patoshi: set<string>, target: string, id: string) {
    (id !in patoshi && SatsOf(items, id) > 0) || (id == target && Floor(items, patoshi) > 0)
  }

  lemma HeldIffReceives(items: seq<Utxo>, patoshi: set<string>, target: string, id: string)
    ensures Held(FinalBalances(items, patoshi, target), id) > 0 <==> Receives(items, patoshi, target, id)
  {
    hide SatsOf, Removed;
    if id !in Addresses(items) {
      assert !Pays(items, id);
      NotPaid(items, id);
    }
  }

  lemma {:induction false} ZeroSum(m: map<string, nat>)
    ensures Sum(m) == 0 <==> forall k :: k in m ==> m[k] == 0
    decreases |m|
  {
    hide Sum;
    if m == map[] {
      SumNone(m);
    } else {
      var k :| k in m;
      SumRemove(m, k);
      ZeroSum(m - {k});
      assert forall j :: j in m ==> j == k || (j in m - {k} && (m - {k})[j] == m[j]);
    }
  }

  lemma SumNone(m: map<string, nat>)
    requires m == map[]
    ensures Sum(m) == 0
  {
  }

  /** Every satoshi paid to an address is in the declared total exactly if no reserved id would receive any. */
  lemma ConservedIff(items: seq<Utxo>, patoshi: set<string>, target: string, v: Validator)
    ensures Supplied(v, FinalBalances(items, patoshi, target)) == FixedSupply(v) + AddressedSats(items) * YOCTO
            <==> !Receives(items, patoshi, target, v.id) && !Receives(items, patoshi, target, TREASURY)
  {
    hide Sum, FinalBalances, BalanceMap, Receives, Supplied, AddressedSats, FixedSupply;
    var final := FinalBalances(items, patoshi, target);
    BalanceMapFits(items);
    SuppliedSplits(items, patoshi, target, v, BalanceMap(items));
    ZeroSum(Restrict(final, Reserved(v)));
    HeldIffReceives(items, patoshi, target, v.id);
    HeldIffReceives(items, patoshi, target, TREASURY);
    assert (forall k :: k in Restrict(final, Reserved(v)) ==> Restrict(final, Reserved(v))[k] == 0)
      <==> Held(final, v.id) == 0 && Held(final, TREASURY) == 0 by {
      assert v.id in Reserved(v) && TREASURY in Reserved(v);
      assert v.id in final ==> v.id in Restrict(final, Reserved(v));
      assert TREASURY in final ==> TREASURY in Restrict(final, Reserved(v));
    }
  }

  /** An output paid to the validator's own address is in no total. */
  lemma OutputMissed()
    ensures var items, v := [Utxo(Some(VALIDATOR_ADDRESS), 5)], CommandValidator(VALIDATOR_ADDRESS);
            Supplied(v, FinalBalances(items, {}, VALIDATOR_ADDRESS)) != FixedSupply(v) + AddressedSats(items) * YOCTO
  {
    hide Supplied, FinalBalances, FixedSupply, AddressedSats, SatsOf;
    var items := [Utxo(Some(VALIDATOR_ADDRESS), 5)];
    OneOutput(VALIDATOR_ADDRESS, 5);
    ConservedIff(items, {}, VALIDATOR_ADDRESS, CommandValidator(VALIDATOR_ADDRESS));
  }
}
