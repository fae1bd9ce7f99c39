/**
 * The genesis file: building it from balances, summing it up, and merging further records into it.
 * Amounts are decimal text, as they are in the file.
 */
module GenesisFile {
  import opened Options
  import opened Sums
  import opened Decimal
  import opened Supply

  const YOCTO: nat := 10_000_000_000_000_000
  const TREASURY: string := "near"
  const TREASURY_BALANCE: nat := 1_000_000_000_000_000_000_000_000

  /** What the base64 text of a contract data record stands for. */
  datatype DataValue =
    | PatoshiRecord(genesisBalance: nat, isLocked: bool, unlockEpoch: Option<nat>)
    | PatoshiIndex(accounts: seq<string>)
    | Opaque(bytes: seq<nat>)

  /**
   * `Other` is a record the builder's own types cannot hold. It may have no account id, and it may
   * be an account record with amounts all the same; an amount that is missing is text that is no number.
   */
  datatype StateRecord =
    | Account(id: string, amount: string, locked: string)
    | AccessKey(id: string)
    | Data(id: string, value: DataValue)
    | Other(name: Option<string>, amounts: Option<(string, string)>)

  datatype Genesis = Genesis(totalSupply: string, records: seq<StateRecord>)

  function Amounts(r: StateRecord): Option<(string, string)> {
    match r
    case Account(_, amount, locked) => Some((amount, locked))
    case Other(_, amounts) => amounts
    case _ => None
  }

  /** Amount plus locked of a record that has them, nothing for the others, or a parse failure. */
  function RecordSupply(r: StateRecord): Option<nat> {
    match Amounts(r)
    case None => Some(0)
    case Some((amount, locked)) =>
      var a, l := ParseU128(amount), ParseU128(locked);
      if a.None? || l.None? then None else Some(a.value + l.value)
  }

  function AccountTotal(records: seq<StateRecord>): Option<nat> {
    if records == [] then Some(0)
    else
      var t, x := AccountTotal(records[..|records| - 1]), RecordSupply(records[|records| - 1]);
      if t.None? || x.None? then None else Some(t.value + x.value)
  }

  /** The declared total is the sum over the account records. */
  ghost predicate Reconciled(g: Genesis) {
    ParseU128(g.totalSupply).Some? && AccountTotal(g.records) == ParseU128(g.totalSupply)
  }

  function Plus(a: Option<nat>, b: Option<nat>): Option<nat> {
    if a.None? || b.None? then None else Some(a.value + b.value)
  }

  lemma {:induction false} TotalConcat(a: seq<StateRecord>, b: seq<StateRecord>)
    ensures AccountTotal(a + b) == Plus(AccountTotal(a), AccountTotal(b))
  {
    hide RecordSupply;
    if b == [] {
      assert a + b == a;
    } else {
      TotalConcat(a, b[..|b| - 1]);
      assert (a + b)[..|a + b| - 1] == a + b[..|b| - 1];
    }
  }

  lemma TotalAppend(records: seq<StateRecord>, r: StateRecord)
    ensures AccountTotal(records + [r]) == Plus(AccountTotal(records), RecordSupply(r))
  {
    hide RecordSupply;
    assert (records + [r])[..|records|] == records;
  }

  lemma TotalMonotone(records: seq<StateRecord>, n: nat)
    requires n <= |records|
    ensures AccountTotal(records).Some? ==>
              AccountTotal(records[..n]).Some? && AccountTotal(records[..n]).value <= AccountTotal(records).value
  {
    TotalConcat(records[..n], records[n..]);
    assert records[..n] + records[n..] == records;
  }

  // ---------------------------------------------------------------------------
  // The builder
  // ---------------------------------------------------------------------------

  datatype Validator = Validator(id: string, balance: nat, stake: nat)

  /** Ids that already have an account when the balances are added. */
  function Reserved(v: Validator): set<string> {
    {v.id, TREASURY}
  }

  function FixedRecords(v: Validator): seq<StateRecord> {
    [Account(v.id, ToString(v.balance), ToString(v.stake)), AccessKey(v.id)]
    + (if TREASURY != v.id then [Account(TREASURY, ToString(TREASURY_BALANCE), "0")] else [])
  }

  function FixedSupply(v: Validator): nat {
    v.balance + v.stake + (if TREASURY != v.id then TREASURY_BALANCE else 0)
  }

  /** The total a genesis over these balances declares. */
  ghost function Supplied(v: Validator, utxos: map<string, nat>): nat {
    FixedSupply(v) + Sum(utxos - Reserved(v)) * YOCTO
  }

  /** The account record of `id`, if it has one. */
  function AccountOf(v: Validator, utxos: map<string, nat>, id: string): Option<StateRecord> {
    if id == v.id then Some(Account(id, ToString(v.balance), ToString(v.stake)))
    else if id == TREASURY then Some(Account(id, ToString(TREASURY_BALANCE), "0"))
    else if id in utxos then Some(Account(id, ToString(utxos[id] * YOCTO), "0"))
    else None
  }

  ghost predicate Expected(r: StateRecord, v: Validator, utxos: map<string, nat>, registry: map<string, nat>,
                           index: Option<seq<string>>) {
    match r
    case Account(id, _, _) => AccountOf(v, utxos, id) == Some(r)
    case AccessKey(id) => id == v.id
    case Data(id, PatoshiRecord(floor, isLocked, unlock)) =>
        id in registry && registry[id] == floor && isLocked && unlock == None
    case Data(id, PatoshiIndex(accounts)) => id == TREASURY && index == Some(accounts)
    case _ => false
  }

  /** The records are exactly the expected ones, each once. */
  ghost predicate Listed(records: seq<StateRecord>, v: Validator, utxos: map<string, nat>, registry: map<string, nat>,
                         index: Option<seq<string>>) {
    && (forall i, j :: 0 <= i < j < |records| ==> records[i] != records[j])
    && (forall r :: r in records <==> Expected(r, v, utxos, registry, index))
  }

  /** `order` goes through `all` once. */
  ghost predicate Enumerates(order: seq<string>, all: set<string>) {
    && (forall i, j :: 0 <= i < j < |order| ==> order[i] != order[j])
    && (forall x :: x in order <==> x in all)
  }

  /** The records of a whole genesis: the index is there when the registry is not empty, and lists its keys. */
  ghost predicate Complete(records: seq<StateRecord>, v: Validator, utxos: map<string, nat>,
                           registry: map<string, nat>, index: Option<seq<string>>) {
    && Listed(records, v, utxos, registry, index)
    && (index.Some? <==> registry != map[])
    && (index.Some? ==> Enumerates(index.value, registry.Keys))
  }

  /**
   * Fails exactly on a total that does not fit a u128. The first additions, of the validator's
   * balance and stake and the treasury's balance, are unchecked in the source.
   */
  method Build(utxos: map<string, nat>, v: Validator, registry: map<string, nat>) returns (r: Option<Genesis>)
    requires forall a :: a in utxos ==> utxos[a] < U64
    requires FixedSupply(v) < U128
    ensures r.Some? <==> Supplied(v, utxos) < U128
    ensures r.Some? ==> exists index :: Complete(r.value.records, v, utxos, registry, index)
    ensures r.Some? ==> ParseU128(r.value.totalSupply) == Some(Supplied(v, utxos)) && Reconciled(r.value)
    ensures r.Some? ==> Summable(r.value)
  {
    hide Listed, Enumerates, Supplied, AccountTotal, ParseU128, ToString;
    var balances := AddBalances(utxos, v);
    if balances.None? {
      return None;
    }
    var (records, total) := balances.value;
    ghost var index := None;
    if registry != map[] {
      var accounts: seq<string>;
      records, accounts := AddLocks(records, v, utxos, registry);
      IndexStep(records, v, utxos, registry, accounts);
      records := records + [Data(TREASURY, PatoshiIndex(accounts))];
      index := Some(accounts);
    }
    ParsePrinted(total);
    r := Some(Genesis(ToString(total), records));
    assert Complete(records, v, utxos, registry, index);
    NothingUnknown(records, v, utxos, registry, index);
  }

  lemma NothingUnknown(records: seq<StateRecord>, v: Validator, utxos: map<string, nat>, registry: map<string, nat>,
                       index: Option<seq<string>>)
    requires Listed(records, v, utxos, registry, index)
    ensures forall i :: 0 <= i < |records| ==> !records[i].Other?
  {
    forall i | 0 <= i < |records|
      ensures !records[i].Other?
    {
      assert Expected(records[i], v, utxos, registry, index);
    }
  }

  /** The validator, the treasury, and one account per balance that is not theirs. */
  method AddBalances(utxos: map<string, nat>, v: Validator) returns (r: Option<(seq<StateRecord>, nat)>)
    requires forall a :: a in utxos ==> utxos[a] < U64
    requires FixedSupply(v) < U128
    ensures r.Some? <==> Supplied(v, utxos) < U128
    ensures r.Some? ==> Listed(r.value.0, v, utxos, map[], None)
    ensures r.Some? ==> r.value.1 == Supplied(v, utxos) && AccountTotal(r.value.0) == Some(r.value.1)
  {
    hide Listed, Supplied, AccountTotal, Restrict, FixedRecords, FixedSupply, ToString;
    var records := FixedRecords(v);
    var total := FixedSupply(v);
    FixedListed(v);
    FixedTotal(v);
    var left := utxos.Keys;
    ghost var done: set<string> := {};
    RestrictNone(utxos);
    while left != {}
      invariant left !! done && left + done == utxos.Keys
      invariant Listed(records, v, Restrict(utxos, done), map[], None)
      invariant total == Supplied(v, Restrict(utxos, done)) < U128
      invariant AccountTotal(records) == Some(total)
      decreases |left|
    {
      var addr :| addr in left;
      var yocto := utxos[addr] * YOCTO;
      BalanceStep(v, utxos, done, addr, records);
      left, done := left - {addr}, done + {addr};
      if addr in Reserved(v) {
        continue;
      }
      if total + yocto >= U128 {
        SuppliedGrows(v, utxos, done);
        return None;
      }
      total := total + yocto;
      AccountAppended(records, addr, yocto);
      records := records + [Account(addr, ToString(yocto), "0")];
    }
    assert done == utxos.Keys;
    RestrictAll(utxos);
    r := Some((records, total));
  }

  /** One lock record per registry entry, and the list of the accounts that got one. */
  method AddLocks(before: seq<StateRecord>, v: Validator, utxos: map<string, nat>, registry: map<string, nat>)
    returns (records: seq<StateRecord>, accounts: seq<string>)
    requires Listed(before, v, utxos, map[], None)
    ensures Listed(records, v, utxos, registry, None) && AccountTotal(records) == AccountTotal(before)
    ensures Enumerates(accounts, registry.Keys)
  {
    hide Listed, AccountTotal, Restrict, Enumerates;
    RestrictNone(registry);
    RestrictAll(registry);
    records, accounts := before, [];
    EnumeratesNone();
    var left := registry.Keys;
    ghost var done: set<string> := {};
    while left != {}
      invariant left !! done && left + done == registry.Keys
      invariant Listed(records, v, utxos, Restrict(registry, done), None)
      invariant AccountTotal(records) == AccountTotal(before)
      invariant Enumerates(accounts, done)
      decreases |left|
    {
      var id :| id in left;
      RestrictOne(registry, done, id);
      LockStep(records, v, utxos, Restrict(registry, done), id, registry[id]);
      EnumeratesMore(accounts, done, id);
      accounts := accounts + [id];
      records := records + [Data(id, PatoshiRecord(registry[id], true, None))];
      left, done := left - {id}, done + {id};
    }
    assert done == registry.Keys;
  }

  lemma ListedAppend(records: seq<StateRecord>, r: StateRecord, v: Validator,
                     utxos: map<string, nat>, registry: map<string, nat>, index: Option<seq<string>>,
                     utxos': map<string, nat>, registry': map<string, nat>, index': Option<seq<string>>)
    requires Listed(records, v, utxos, registry, index) && r !in records
    requires forall s :: Expected(s, v, utxos', registry', index') <==> s == r || Expected(s, v, utxos, registry, index)
    ensures Listed(records + [r], v, utxos', registry', index')
  {
    hide Expected;
    var after := records + [r];
    forall s
      ensures s in after <==> Expected(s, v, utxos', registry', index')
    {
      assert s in after <==> s == r || s in records;
    }
  }

  lemma LockStep(records: seq<StateRecord>, v: Validator, utxos: map<string, nat>, registry: map<string, nat>,
                 id: string, floor: nat)
    requires Listed(records, v, utxos, registry, None) && id !in registry
    ensures Listed(records + [Data(id, PatoshiRecord(floor, true, None))], v, utxos, registry[id := floor], None)
    ensures AccountTotal(records + [Data(id, PatoshiRecord(floor, true, None))]) == AccountTotal(records)
  {
    var r := Data(id, PatoshiRecord(floor, true, None));
    assert !Expected(r, v, utxos, registry, None);
    ListedAppend(records, r, v, utxos, registry, None, utxos, registry[id := floor], None);
    TotalAppend(records, r);
  }

  lemma IndexStep(records: seq<StateRecord>, v: Validator, utxos: map<string, nat>, registry: map<string, nat>,
                  accounts: seq<string>)
    requires Listed(records, v, utxos, registry, None)
    ensures Listed(records + [Data(TREASURY, PatoshiIndex(accounts))], v, utxos, registry, Some(accounts))
    ensures AccountTotal(records + [Data(TREASURY, PatoshiIndex(accounts))]) == AccountTotal(records)
  {
    var r := Data(TREASURY, PatoshiIndex(accounts));
    assert !Expected(r, v, utxos, registry, None);
    ListedAppend(records, r, v, utxos, registry, None, utxos, registry, Some(accounts));
    TotalAppend(records, r);
  }

  lemma ZeroParses()
    ensures ParseU128("0") == Some(0)
  {
    assert ToString(0) == "0";
    ParsePrinted(0);
  }

  lemma AccountAppended(records: seq<StateRecord>, id: string, yocto: nat)
    requires AccountTotal(records).Some? && yocto < U128
    ensures AccountTotal(records + [Account(id, ToString(yocto), "0")]) == Some(AccountTotal(records).value + yocto)
  {
    ZeroParses();
    ParsePrinted(yocto);
    TotalAppend(records, Account(id, ToString(yocto), "0"));
  }

  lemma FixedListed(v: Validator)
    ensures Listed(FixedRecords(v), v, map[], map[], None)
    ensures Supplied(v, map[]) == FixedSupply(v)
  {
    hide ToString;
    var none: map<string, nat> := map[];
    assert none - Reserved(v) == none;
    assert forall r :: r in FixedRecords(v) <==> Expected(r, v, map[], map[], None);
  }

  lemma FixedTotal(v: Validator)
    requires FixedSupply(v) < U128
    ensures AccountTotal(FixedRecords(v)) == Some(FixedSupply(v))
  {
    hide ParseU128, ToString, AccountTotal;
    ParsePrinted(v.balance);
    ParsePrinted(v.stake);
    var a, k := Account(v.id, ToString(v.balance), ToString(v.stake)), AccessKey(v.id);
    NoTotal();
    TotalAppend([], a);
    assert [] + [a] == [a];
    TotalAppend([a], k);
    assert [a] + [k] == [a, k];
    if TREASURY != v.id {
      AccountAppended([a, k], TREASURY, TREASURY_BALANCE);
    } else {
      assert [a, k] + [] == [a, k];
    }
  }

  lemma NoTotal()
    ensures AccountTotal([]) == Some(0)
  {
  }

  lemma RestrictNone(m: map<string, nat>)
    ensures Restrict(m, {}) == map[]
  {
  }

  lemma RestrictOne(m: map<string, nat>, done: set<string>, k: string)
    requires k in m && k !in done
    ensures Restrict(m, done + {k}) == Restrict(m, done)[k := m[k]] && k !in Restrict(m, done)
  {
  }

  lemma EnumeratesNone()
    ensures Enumerates([], {})
  {
  }

  lemma EnumeratesMore(order: seq<string>, done: set<string>, k: string)
    requires Enumerates(order, done) && k !in done
    ensures Enumerates(order + [k], done + {k})
  {
    forall x
      ensures x in order + [k] <==> x in done + {k}
    {
      assert x in order + [k] <==> x in order || x == k;
    }
  }

  lemma RestrictAll(m: map<string, nat>)
    ensures Restrict(m, m.Keys) == m
  {
  }

  /** One more address: a reserved one changes nothing, another one adds its account and its balance. */
  lemma BalanceStep(v: Validator, utxos: map<string, nat>, done: set<string>, a: string, records: seq<StateRecord>)
    requires a in utxos && a !in done && Listed(records, v, Restrict(utxos, done), map[], None)
    ensures a in Reserved(v) ==>
              && Listed(records, v, Restrict(utxos, done + {a}), map[], None)
              && Supplied(v, Restrict(utxos, done + {a})) == Supplied(v, Restrict(utxos, done))
    ensures a !in Reserved(v) ==>
              && Listed(records + [Account(a, ToString(utxos[a] * YOCTO), "0")], v, Restrict(utxos, done + {a}),
                  map[], None)
              && Supplied(v, Restrict(utxos, done + {a})) == Supplied(v, Restrict(utxos, done)) + utxos[a] * YOCTO
  {
    hide Sum;
    var m, m' := Restrict(utxos, done), Restrict(utxos, done + {a});
    assert m' == m[a := utxos[a]];
    if a in Reserved(v) {
      assert m' - Reserved(v) == m - Reserved(v);
      assert forall r :: Expected(r, v, m', map[], None) <==> Expected(r, v, m, map[], None);
    } else {
      var r := Account(a, ToString(utxos[a] * YOCTO), "0");
      assert !Expected(r, v, m, map[], None);
      ListedAppend(records, r, v, m, map[], None, m', map[], None);
      assert m' - Reserved(v) == (m - Reserved(v))[a := utxos[a]];
      SumUpdate(m - Reserved(v), a, utxos[a]);
    }
  }

  lemma SuppliedGrows(v: Validator, utxos: map<string, nat>, done: set<string>)
    ensures Supplied(v, Restrict(utxos, done)) <= Supplied(v, utxos)
  {
    hide Sum;
    var m := utxos - Reserved(v);
    SumSplits(m, done);
    assert Restrict(utxos, done) - Reserved(v) == Restrict(m, done);
  }

  // ---------------------------------------------------------------------------
  // The summary
  // ---------------------------------------------------------------------------

  datatype Summary = Summary(declared: nat, computed: nat, reconciled: bool, accounts: nat, accessKeys: nat, data: nat)

  /** The positions of the records of each kind. */
  ghost function AccountsIn(records: seq<StateRecord>): set<nat> {
    set i | 0 <= i < |records| && records[i].Account?
  }

  ghost function AccessKeysIn(records: seq<StateRecord>): set<nat> {
    set i | 0 <= i < |records| && records[i].AccessKey?
  }

  ghost function DataIn(records: seq<StateRecord>): set<nat> {
    set i | 0 <= i < |records| && records[i].Data?
  }

  lemma NothingCounted()
    ensures |AccountsIn([])| == |AccessKeysIn([])| == |DataIn([])| == 0
  {
    assert AccountsIn([]) == {} && AccessKeysIn([]) == {} && DataIn([]) == {};
  }

  lemma CountStep(records: seq<StateRecord>, n: nat)
    requires n < |records|
    ensures |AccountsIn(records[..n + 1])| == |AccountsIn(records[..n])| + if records[n].Account? then 1 else 0
    ensures |AccessKeysIn(records[..n + 1])| == |AccessKeysIn(records[..n])| + if records[n].AccessKey? then 1 else 0
    ensures |DataIn(records[..n + 1])| == |DataIn(records[..n])| + if records[n].Data? then 1 else 0
  {
    hide AccountsIn, AccessKeysIn, DataIn;
    AccountStep(records, n);
    AccessKeyStep(records, n);
    DataStep(records, n);
  }

  lemma AccountStep(records: seq<StateRecord>, n: nat)
    requires n < |records|
    ensures |AccountsIn(records[..n + 1])| == |AccountsIn(records[..n])| + if records[n].Account? then 1 else 0
  {
    var a, b := AccountsIn(records[..n]), AccountsIn(records[..n + 1]);
    assert n !in a;
    if records[n].Account? {
      assert b == a + {n};
    } else {
      assert b == a;
    }
  }

  lemma AccessKeyStep(records: seq<StateRecord>, n: nat)
    requires n < |records|
    ensures |AccessKeysIn(records[..n + 1])| == |AccessKeysIn(records[..n])| + if records[n].AccessKey? then 1 else 0
  {
    var a, b := AccessKeysIn(records[..n]), AccessKeysIn(records[..n + 1]);
    assert n !in a;
    if records[n].AccessKey? {
      assert b == a + {n};
    } else {
      assert b == a;
    }
  }

  lemma DataStep(records: seq<StateRecord>, n: nat)
    requires n < |records|
    ensures |DataIn(records[..n + 1])| == |DataIn(records[..n])| + if records[n].Data? then 1 else 0
  {
    var a, b := DataIn(records[..n]), DataIn(records[..n + 1]);
    assert n !in a;
    if records[n].Data? {
      assert b == a + {n};
    } else {
      assert b == a;
    }
  }

  /** When the file can be summed up at all. */
  ghost predicate Summable(g: Genesis) {
    && ParseU128(g.totalSupply).Some?
    && (forall i :: 0 <= i < |g.records| ==> !g.records[i].Other?)
    && AccountTotal(g.records).Some? && AccountTotal(g.records).value < U128
  }

  method SummarizeGenesis(g: Genesis) returns (r: Option<Summary>)
    ensures r.Some? <==> Summable(g)
    ensures r.Some? ==>
              && Some(r.value.computed) == AccountTotal(g.records)
              && Some(r.value.declared) == ParseU128(g.totalSupply)
    ensures r.Some? ==> (r.value.reconciled <==> Reconciled(g))
    ensures r.Some? ==>
              && r.value.accounts == |AccountsIn(g.records)|
              && r.value.accessKeys == |AccessKeysIn(g.records)|
              && r.value.data == |DataIn(g.records)|
  {
    hide ParseU128, AccountTotal, AccountsIn, AccessKeysIn, DataIn;
    NoTotal();
    NothingCounted();
    var declared := ParseU128(g.totalSupply);
    if declared.None? || exists i :: 0 <= i < |g.records| && g.records[i].Other? {
      return None;
    }
    var computed, accounts, keys, data := 0, 0, 0, 0;
    for i := 0 to |g.records|
      invariant AccountTotal(g.records[..i]) == Some(computed) && computed < U128
      invariant accounts == |AccountsIn(g.records[..i])| && keys == |AccessKeysIn(g.records[..i])|
      invariant data == |DataIn(g.records[..i])|
    {
      assert g.records[..i + 1][..i] == g.records[..i];
      assert g.records[..i + 1] == g.records[..i] + [g.records[i]];
      TotalAppend(g.records[..i], g.records[i]);
      CountStep(g.records, i);
      TotalMonotone(g.records, i + 1);
      match g.records[i] {
        case Account(_, amount, locked) =>
          var a, l := ParseU128(amount), ParseU128(locked);
          if a.None? || l.None? || computed + a.value >= U128 || computed + a.value + l.value >= U128 {
            return None;
          }
          computed := computed + a.value + l.value;
          accounts := accounts + 1;
        case AccessKey(_) => keys := keys + 1;
        case Data(_, _) => data := data + 1;
      }
    }
    assert g.records[..|g.records|] == g.records;
    r := Some(Summary(declared.value, computed, declared.value == computed, accounts, keys, data));
  }

  // ---------------------------------------------------------------------------
  // Merging further records
  // ---------------------------------------------------------------------------

  function NameOf(r: StateRecord): Option<string> {
    if r.Other? then r.name else Some(r.id)
  }

  ghost predicate IdsOk(records: seq<StateRecord>, idOk: string -> bool) {
    forall i :: 0 <= i < |records| && NameOf(records[i]).Some? ==> idOk(NameOf(records[i]).value)
  }

  /** When a merge goes through, and with what. */
  ghost function Merged(g: Genesis, incoming: seq<StateRecord>, idOk: string -> bool): Option<Genesis> {
    var added, current := AccountTotal(incoming), ParseU128(g.totalSupply);
    if !IdsOk(incoming, idOk) || added.None? || added.value >= U128 then None
    else if added.value == 0 then Some(Genesis(g.totalSupply, g.records + incoming))
    else if current.None? || current.value + added.value >= U128 then None
    else Some(Genesis(ToString(current.value + added.value), g.records + incoming))
  }

  /** `idOk` is the account id validator. */
  method MergeGenesisRecords(g: Genesis, incoming: seq<StateRecord>, idOk: string -> bool) returns (r: Option<Genesis>)
    ensures r == Merged(g, incoming, idOk)
  {
    hide ParseU128, ToString, RecordSupply;
    for i := 0 to |incoming|
      invariant IdsOk(incoming[..i], idOk)
    {
      if NameOf(incoming[i]).Some? && !idOk(NameOf(incoming[i]).value) {
        return None;
      }
    }
    assert incoming[..|incoming|] == incoming;
    var added := 0;
    for i := 0 to |incoming|
      invariant AccountTotal(incoming[..i]) == Some(added) && added < U128
    {
      assert incoming[..i + 1][..i] == incoming[..i];
      TotalMonotone(incoming, i + 1);
      var delta := RecordSupply(incoming[i]);
      if delta.None? || delta.value >= U128 || added + delta.value >= U128 {
        return None;
      }
      added := added + delta.value;
    }
    var records := g.records + incoming;
    if added == 0 {
      return Some(Genesis(g.totalSupply, records));
    }
    var current := ParseU128(g.totalSupply);
    if current.None? || current.value + added >= U128 {
      return None;
    }
    r := Some(Genesis(ToString(current.value + added), records));
  }

  /** A merge keeps a reconciled genesis reconciled, and cannot reconcile one that was not. */
  lemma MergeReconciled(g: Genesis, incoming: seq<StateRecord>, idOk: string -> bool)
    requires Merged(g, incoming, idOk).Some?
    ensures Reconciled(Merged(g, incoming, idOk).value) <==> Reconciled(g)
  {
    hide ParseU128, ToString, AccountTotal, IdsOk;
    TotalConcat(g.records, incoming);
    var added := AccountTotal(incoming).value;
    if added > 0 {
      ParsePrinted(ParseU128(g.totalSupply).value + added);
    }
  }

  /** A merge goes through exactly if every id is valid, every amount is a number and no sum leaves u128. */
  lemma MergeIff(g: Genesis, incoming: seq<StateRecord>, idOk: string -> bool)
    ensures Merged(g, incoming, idOk).Some? <==>
              && (forall r :: r in incoming && !r.Other? ==> idOk(r.id))
              && (forall r :: r in incoming && r.Other? && r.name.Some? ==> idOk(r.name.value))
              && AccountTotal(incoming).Some? && AccountTotal(incoming).value < U128
              && (AccountTotal(incoming).value > 0 ==>
                    && ParseU128(g.totalSupply).Some?
                    && ParseU128(g.totalSupply).value + AccountTotal(incoming).value < U128)
  {
    hide ParseU128, ToString, AccountTotal;
    assert IdsOk(incoming, idOk) <==> forall r :: r in incoming && NameOf(r).Some? ==> idOk(NameOf(r).value) by {
      forall i | 0 <= i < |incoming|
        ensures incoming[i] in incoming
      {
      }
    }
    assert forall r: StateRecord :: !r.Other? ==> NameOf(r) == Some(r.id);
    assert forall r: StateRecord :: r.Other? ==> NameOf(r) == r.name;
  }

  /** What went in is what was there, followed by what came, and the total has grown by what came. */
  lemma MergeAdds(g: Genesis, incoming: seq<StateRecord>, idOk: string -> bool)
    requires Merged(g, incoming, idOk).Some?
    ensures var r := Merged(g, incoming, idOk).value;
            && r.records == g.records + incoming
            && AccountTotal(incoming).Some?
            && (ParseU128(g.totalSupply).Some? ==>
                  ParseU128(r.totalSupply) == Some(ParseU128(g.totalSupply).value + AccountTotal(incoming).value))
            && (AccountTotal(incoming).value == 0 ==> r.totalSupply == g.totalSupply)
  {
    hide ParseU128, ToString, AccountTotal, IdsOk;
    var added := AccountTotal(incoming).value;
    if added > 0 {
      ParsePrinted(ParseU128(g.totalSupply).value + added);
    }
  }

  /** Merging one file after another; one that fails leaves the genesis as it was. */
  ghost function MergeAll(g: Genesis, files: seq<seq<StateRecord>>, idOk: string -> bool): Genesis
    decreases |files|
  {
    if files == [] then g
    else
      var r := Merged(g, files[0], idOk);
      MergeAll(if r.Some? then r.value else g, files[1..], idOk)
  }

  lemma {:induction false} MergesReconciled(g: Genesis, files: seq<seq<StateRecord>>, idOk: string -> bool)
    ensures Reconciled(MergeAll(g, files, idOk)) <==> Reconciled(g)
    decreases |files|
  {
    if files != [] {
      var r := Merged(g, files[0], idOk);
      if r.Some? {
        MergeReconciled(g, files[0], idOk);
        MergesReconciled(r.value, files[1..], idOk);
      } else {
        MergesReconciled(g, files[1..], idOk);
      }
    }
  }

  /** The files that go through, one after another. */
  ghost function Accepted(g: Genesis, files: seq<seq<StateRecord>>, idOk: string -> bool): seq<seq<StateRecord>>
    decreases |files|
  {
    if files == [] then []
    else
      var r := Merged(g, files[0], idOk);
      if r.Some? then [files[0]] + Accepted(r.value, files[1..], idOk) else Accepted(g, files[1..], idOk)
  }

  function Flat(files: seq<seq<StateRecord>>): seq<StateRecord> {
    if files == [] then [] else files[0] + Flat(files[1..])
  }

  /** Over any sequence of merges: the records are the start and those of the files that went through, in order. */
  lemma {:induction false} MergesAdd(g: Genesis, files: seq<seq<StateRecord>>, idOk: string -> bool)
    ensures var r, new' := MergeAll(g, files, idOk), Flat(Accepted(g, files, idOk));
            && r.records == g.records + new'
            && AccountTotal(new').Some?
            && (ParseU128(g.totalSupply).Some? ==>
                  ParseU128(r.totalSupply) == Some(ParseU128(g.totalSupply).value + AccountTotal(new').value))
    decreases |files|
  {
    hide ParseU128, AccountTotal, Merged;
    if files == [] {
      NoTotal();
      assert g.records + [] == g.records;
    } else {
      var r := Merged(g, files[0], idOk);
      if r.Some? {
        var rest := Accepted(r.value, files[1..], idOk);
        MergeAdds(g, files[0], idOk);
        MergesAdd(r.value, files[1..], idOk);
        TotalConcat(files[0], Flat(rest));
        assert ([files[0]] + rest)[1..] == rest;
        assert g.records + files[0] + Flat(rest) == g.records + (files[0] + Flat(rest));
      } else {
        MergesAdd(g, files[1..], idOk);
      }
    }
  }

  /** What is there besides the balances: the treasury, if the validator is not its account, and one key. */
  lemma FixedAccounts(records: seq<StateRecord>, v: Validator, utxos: map<string, nat>, registry: map<string, nat>,
                      index: Option<seq<string>>)
    requires Complete(records, v, utxos, registry, index)
    ensures Account(v.id, ToString(v.balance), ToString(v.stake)) in records
    ensures v.id != "near" ==> Account("near", ToString(1_000_000_000_000_000_000_000_000), "0") in records
    ensures forall id :: AccessKey(id) in records <==> id == v.id
    ensures forall a :: a in utxos && a != v.id && a != "near" ==>
                          Account(a, ToString(utxos[a] * 10_000_000_000_000_000), "0") in records
  {
    hide ToString;
    assert Expected(Account(v.id, ToString(v.balance), ToString(v.stake)), v, utxos, registry, index);
    if v.id != "near" {
      assert Expected(Account("near", ToString(1_000_000_000_000_000_000_000_000), "0"), v, utxos, registry, index);
    }
    forall a | a in utxos && a != v.id && a != "near"
      ensures Account(a, ToString(utxos[a] * 10_000_000_000_000_000), "0") in records
    {
      assert Expected(Account(a, ToString(utxos[a] * 10_000_000_000_000_000), "0"), v, utxos, registry, index);
    }
    forall id
      ensures AccessKey(id) in records <==> id == v.id
    {
      assert Expected(AccessKey(id), v, utxos, registry, index) <==> id == v.id;
    }
  }
}
