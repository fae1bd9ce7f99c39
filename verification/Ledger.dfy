/**
 * The account ledger and the transaction processor. The two classes are proved against functions on
 * the account map, and the laws are proved about those. Signature checks are a predicate.
 */
module Ledger {
  import opened Sums
  import opened Decimal
  import Supply
  import GenesisFile

  datatype Account = Account(balance: nat, nonce: nat)

  type Accounts = map<string, Account>

  datatype Transaction = Transaction(from: string, to: string, amount: nat, nonce: nat)

  datatype Status = Success | Failed

  datatype Receipt = Receipt(status: Status, gasUsed: nat)

  /** Satoshi balances as fresh accounts. */
  function Loaded(utxos: map<string, nat>): Accounts {
    map a | a in utxos :: Account(utxos[a] * GenesisFile.YOCTO, 0)
  }

  lemma LoadNone(start: Accounts, utxos: map<string, nat>)
    ensures start + Loaded(Supply.Restrict(utxos, {})) == start
  {
  }

  lemma LoadOne(start: Accounts, utxos: map<string, nat>, done: set<string>, a: string)
    requires a in utxos && a !in done
    ensures a in start + Loaded(Supply.Restrict(utxos, done)) <==> a in start
    ensures start + Loaded(Supply.Restrict(utxos, done + {a}))
            == (start + Loaded(Supply.Restrict(utxos, done)))[a := Account(utxos[a] * GenesisFile.YOCTO, 0)]
  {
  }

  lemma LoadAll(utxos: map<string, nat>)
    ensures Supply.Restrict(utxos, utxos.Keys) == utxos
  {
  }

  // ---------------------------------------------------------------------------
  // One step
  // ---------------------------------------------------------------------------

  /** The account map after `transfer`, and whether it returned Ok. A failing credit keeps the debit. */
  function TransferSpec(m: Accounts, from: string, to: string, amount: nat): (Accounts, bool) {
    if from !in m || to !in m || m[from].balance < amount then (m, false)
    else
      var debited := m[from := m[from].(balance := m[from].balance - amount)];
      if debited[to].balance + amount >= U128 then (debited, false)
      else (debited[to := debited[to].(balance := debited[to].balance + amount)], true)
  }

  function BumpNonce(m: Accounts, id: string): Accounts
    requires id in m
  {
    m[id := m[id].(nonce := (m[id].nonce + 1) % U64)]
  }

  function ExecuteTransferSpec(m: Accounts, from: string, to: string, amount: nat): (Accounts, bool) {
    var (after, ok) := TransferSpec(m, from, to, amount);
    if ok then (BumpNonce(after, from), true) else (after, false)
  }

  function TransactionSpec(m: Accounts, tx: Transaction, signed: Transaction -> bool): (Accounts, Receipt) {
    if !signed(tx) || tx.from !in m then (m, Receipt(Failed, 0))
    else
      var (after, ok) := ExecuteTransferSpec(m, tx.from, tx.to, tx.amount);
      (after, Receipt(if ok then Success else Failed, 21000))
  }

  function BlockSpec(m: Accounts, txs: seq<Transaction>, signed: Transaction -> bool): (r: (Accounts, seq<Receipt>))
    ensures |r.1| == |txs|
  {
    if txs == [] then (m, [])
    else
      var (before, receipts) := BlockSpec(m, txs[..|txs| - 1], signed);
      var (after, receipt) := TransactionSpec(before, txs[|txs| - 1], signed);
      (after, receipts + [receipt])
  }

  // ---------------------------------------------------------------------------
  // The classes
  // ---------------------------------------------------------------------------

  class AccountManager {
    var accounts: Accounts

    constructor ()
      ensures accounts == map[]
    {
      accounts := map[];
    }

    method CreateAccount(address: string, balance: nat) returns (ok: bool)
      modifies this
      ensures ok <==> address !in old(accounts)
      ensures accounts == if ok then old(accounts)[address := Account(balance, 0)] else old(accounts)
    {
      if address in accounts {
        return false;
      }
      accounts := accounts[address := Account(balance, 0)];
      ok := true;
    }

    /** Stops at the first address that already has an account, keeping what it has created. */
    method LoadFromUtxos(utxos: map<string, nat>) returns (ok: bool)
      modifies this
      ensures ok <==> old(accounts).Keys !! utxos.Keys
      ensures ok ==> accounts == old(accounts) + Loaded(utxos)
      ensures !ok ==> exists part ::
                        part < utxos.Keys && accounts == old(accounts) + Loaded(Supply.Restrict(utxos, part))
    {
      hide Loaded, Supply.Restrict;
      var left := utxos.Keys;
      ghost var done: set<string> := {};
      ghost var start := accounts;
      LoadNone(start, utxos);
      while left != {}
        invariant left !! done && left + done == utxos.Keys && done !! start.Keys
        invariant accounts == start + Loaded(Supply.Restrict(utxos, done))
        decreases |left|
      {
        var address :| address in left;
        LoadOne(start, utxos, done, address);
        ok := CreateAccount(address, utxos[address] * GenesisFile.YOCTO);
        if !ok {
          return;
        }
        left, done := left - {address}, done + {address};
      }
      assert done == utxos.Keys;
      LoadAll(utxos);
      ok := true;
    }

    method AddBalance(id: string, amount: nat) returns (ok: bool)
      requires id in accounts
      modifies this
      ensures ok <==> old(accounts)[id].balance + amount < U128
      ensures var a := old(accounts)[id];
              accounts == if ok then old(accounts)[id := a.(balance := a.balance + amount)] else old(accounts)
    {
      if accounts[id].balance + amount >= U128 {
        return false;
      }
      accounts := accounts[id := accounts[id].(balance := accounts[id].balance + amount)];
      ok := true;
    }

    method SubtractBalance(id: string, amount: nat) returns (ok: bool)
      requires id in accounts
      modifies this
      ensures ok <==> amount <= old(accounts)[id].balance
      ensures var a := old(accounts)[id];
              accounts == if ok then old(accounts)[id := a.(balance := a.balance - amount)] else old(accounts)
    {
      if accounts[id].balance < amount {
        return false;
      }
      accounts := accounts[id := accounts[id].(balance := accounts[id].balance - amount)];
      ok := true;
    }

    method Transfer(from: string, to: string, amount: nat) returns (ok: bool)
      modifies this
      ensures (accounts, ok) == TransferSpec(old(accounts), from, to, amount)
    {
      if from !in accounts || to !in accounts {
        return false;
      }
      ok := SubtractBalance(from, amount);
      if ok {
        ok := AddBalance(to, amount);
      }
    }

    method ExecuteTransfer(from: string, to: string, amount: nat) returns (ok: bool)
      modifies this
      ensures (accounts, ok) == ExecuteTransferSpec(old(accounts), from, to, amount)
    {
      ok := Transfer(from, to, amount);
      if ok {
        accounts := BumpNonce(accounts, from);
      }
    }
  }

  class TransactionProcessor {
    const manager: AccountManager
    const signed: Transaction -> bool

    constructor (manager: AccountManager, signed: Transaction -> bool)
      ensures this.manager == manager && this.signed == signed
    {
      this.manager := manager;
      this.signed := signed;
    }

    method ExecuteTransaction(tx: Transaction) returns (receipt: Receipt)
      modifies manager
      ensures (manager.accounts, receipt) == TransactionSpec(old(manager.accounts), tx, signed)
    {
      if !signed(tx) || tx.from !in manager.accounts {
        return Receipt(Failed, 0);
      }
      var ok := manager.ExecuteTransfer(tx.from, tx.to, tx.amount);
      receipt := Receipt(if ok then Success else Failed, 21000);
    }

    method ExecuteBlock(txs: seq<Transaction>) returns (receipts: seq<Receipt>)
      modifies manager
      ensures (manager.accounts, receipts) == BlockSpec(old(manager.accounts), txs, signed)
    {
      receipts := [];
      for i := 0 to |txs|
        invariant (manager.accounts, receipts) == BlockSpec(old(manager.accounts), txs[..i], signed)
      {
        var receipt := ExecuteTransaction(txs[i]);
        receipts := receipts + [receipt];
        assert txs[..i + 1][..i] == txs[..i];
      }
      assert txs[..|txs|] == txs;
    }
  }

  // ---------------------------------------------------------------------------
  // Conservation
  // ---------------------------------------------------------------------------

  ghost function Balances(m: Accounts): map<string, nat> {
    map a | a in m :: m[a].balance
  }

  ghost function Total(m: Accounts): nat {
    Sum(Balances(m))
  }

  /** Balances are u128 and nonces u64, by their types. */
  ghost predicate InRange(m: Accounts) {
    forall a :: a in m ==> m[a].balance < U128 && m[a].nonce < U64
  }

  lemma TotalUpdate(m: Accounts, id: string, account: Account)
    requires id in m
    ensures Total(m[id := account]) == Total(m) - m[id].balance + account.balance
    ensures m[id].balance <= Total(m)
  {
    hide Sum;
    assert Balances(m[id := account]) == Balances(m)[id := account.balance];
    SumUpdate(Balances(m), id, account.balance);
    SumAtLeast(Balances(m), id);
  }

  /** The transfers that the code means to refuse. */
  predicate Refused(m: Accounts, from: string, to: string, amount: nat) {
    from !in m || to !in m || m[from].balance < amount
  }

  /** The credit that does not fit after the debit is done. */
  predicate CreditOverflows(m: Accounts, from: string, to: string, amount: nat) {
    !Refused(m, from, to, amount) && from != to && m[to].balance + amount >= U128
  }

  /** A transfer keeps the accounts and the total, except that an overflowing credit loses the amount. */
  lemma TransferTotal(m: Accounts, from: string, to: string, amount: nat)
    requires InRange(m)
    ensures var (after, ok) := TransferSpec(m, from, to, amount);
            && after.Keys == m.Keys && InRange(after)
            && (ok <==> !Refused(m, from, to, amount) && !CreditOverflows(m, from, to, amount))
            && Total(after) == Total(m) - if CreditOverflows(m, from, to, amount) then amount else 0
  {
    hide Total;
    if !Refused(m, from, to, amount) {
      var debit := m[from].(balance := m[from].balance - amount);
      var debited := m[from := debit];
      TotalUpdate(m, from, debit);
      var credit := debited[to].(balance := debited[to].balance + amount);
      TotalUpdate(debited, to, credit);
    }
  }

  /** A failed transfer leaves a trace exactly when the credit overflowed and there was something to debit. */
  lemma FailureLeavesTrace(m: Accounts, from: string, to: string, amount: nat)
    requires InRange(m)
    ensures var (after, ok) := TransferSpec(m, from, to, amount);
            !ok && after != m <==> CreditOverflows(m, from, to, amount) && amount > 0
  {
    if CreditOverflows(m, from, to, amount) {
      var after := TransferSpec(m, from, to, amount).0;
      assert after[from].balance == m[from].balance - amount;
    }
  }

  lemma FundsLost()
    ensures var m := map["a" := Account(1, 0), "b" := Account(U128 - 1, 0)];
            && InRange(m) && CreditOverflows(m, "a", "b", 1)
            && TransferSpec(m, "a", "b", 1) == (m["a" := Account(0, 0)], false)
  {
  }

  /** With a total that fits a u128 no credit can overflow. */
  lemma CreditFits(m: Accounts, from: string, to: string, amount: nat)
    requires Total(m) < U128
    ensures !CreditOverflows(m, from, to, amount)
  {
    if CreditOverflows(m, from, to, amount) {
      SumAtLeastTwo(Balances(m), from, to);
    }
  }

  // ---------------------------------------------------------------------------
  // Whole runs
  // ---------------------------------------------------------------------------

  function Flatten(blocks: seq<seq<Transaction>>): seq<Transaction> {
    if blocks == [] then [] else Flatten(blocks[..|blocks| - 1]) + blocks[|blocks| - 1]
  }

  /** One block after another. */
  function RunSpec(m: Accounts, blocks: seq<seq<Transaction>>, signed: Transaction -> bool): (Accounts, seq<Receipt>) {
    if blocks == [] then (m, [])
    else
      var (before, receipts) := RunSpec(m, blocks[..|blocks| - 1], signed);
      var (after, more) := BlockSpec(before, blocks[|blocks| - 1], signed);
      (after, receipts + more)
  }

  lemma {:induction false} BlockConcat(m: Accounts, a: seq<Transaction>, b: seq<Transaction>,
                                       signed: Transaction -> bool)
    ensures var (before, receipts) := BlockSpec(m, a, signed);
            var (after, more) := BlockSpec(before, b, signed);
            BlockSpec(m, a + b, signed) == (after, receipts + more)
  {
    hide TransactionSpec;
    if b == [] {
      assert a + b == a;
      assert BlockSpec(m, a, signed).1 + [] == BlockSpec(m, a, signed).1;
    } else {
      var init := b[..|b| - 1];
      BlockConcat(m, a, init, signed);
      var (before, receipts) := BlockSpec(m, a, signed);
      var (middle, more) := BlockSpec(before, init, signed);
      var (_, last) := TransactionSpec(middle, b[|b| - 1], signed);
      assert receipts + (more + [last]) == receipts + more + [last];
      assert (a + b)[..|a + b| - 1] == a + b[..|b| - 1];
    }
  }

  /** Where the block boundaries fall makes no difference. */
  lemma {:induction false} RunIsOneBlock(m: Accounts, blocks: seq<seq<Transaction>>, signed: Transaction -> bool)
    ensures RunSpec(m, blocks, signed) == BlockSpec(m, Flatten(blocks), signed)
  {
    if blocks != [] {
      var before := blocks[..|blocks| - 1];
      RunIsOneBlock(m, before, signed);
      BlockConcat(m, Flatten(before), blocks[|blocks| - 1], signed);
    }
  }

  function SuccessAmount(tx: Transaction, receipt: Receipt): nat {
    if receipt.status.Success? then tx.amount else 0
  }

  /** What `id` paid in successful transactions. */
  function Sent(id: string, txs: seq<Transaction>, receipts: seq<Receipt>): nat
    requires |txs| == |receipts|
  {
    if txs == [] then 0
    else
      var n := |txs| - 1;
      Sent(id, txs[..n], receipts[..n]) + if txs[n].from == id then SuccessAmount(txs[n], receipts[n]) else 0
  }

  function Received(id: string, txs: seq<Transaction>, receipts: seq<Receipt>): nat
    requires |txs| == |receipts|
  {
    if txs == [] then 0
    else
      var n := |txs| - 1;
      Received(id, txs[..n], receipts[..n]) + if txs[n].to == id then SuccessAmount(txs[n], receipts[n]) else 0
  }

  /** How many successful transactions `id` sent. */
  function Successes(id: string, txs: seq<Transaction>, receipts: seq<Receipt>): nat
    requires |txs| == |receipts|
  {
    if txs == [] then 0
    else
      var n := |txs| - 1;
      Successes(id, txs[..n], receipts[..n]) + if txs[n].from == id && receipts[n].status.Success? then 1 else 0
  }

  /** What one transaction does to one account. */
  ghost predicate Moved(before: Account, after: Account, id: string, tx: Transaction, receipt: Receipt) {
    && after.balance + (if tx.from == id then SuccessAmount(tx, receipt) else 0)
       == before.balance + (if tx.to == id then SuccessAmount(tx, receipt) else 0)
    && after.nonce == (before.nonce + if tx.from == id && receipt.status.Success? then 1 else 0) % U64
  }

  /** A transaction against a ledger that fits: a failure changes nothing, a success moves the amount. */
  lemma TransactionLaw(m: Accounts, tx: Transaction, signed: Transaction -> bool)
    requires InRange(m) && Total(m) < U128
    ensures var (after, receipt) := TransactionSpec(m, tx, signed);
            && after.Keys == m.Keys && InRange(after) && Total(after) == Total(m)
            && (receipt.status.Success? <==> signed(tx) && !Refused(m, tx.from, tx.to, tx.amount))
            && (receipt.status.Failed? ==> after == m)
            && forall id :: id in m ==> Moved(m[id], after[id], id, tx, receipt)
  {
    hide Total;
    TransferTotal(m, tx.from, tx.to, tx.amount);
    CreditFits(m, tx.from, tx.to, tx.amount);
    var (after, ok) := TransferSpec(m, tx.from, tx.to, tx.amount);
    if ok {
      TotalUpdate(after, tx.from, BumpNonce(after, tx.from)[tx.from]);
    }
  }

  /** The receipts account for every balance and every nonce. */
  ghost predicate Accounted(m: Accounts, after: Accounts, txs: seq<Transaction>, receipts: seq<Receipt>)
    requires |txs| == |receipts|
  {
    && after.Keys == m.Keys && InRange(after) && Total(after) == Total(m)
    && forall id :: id in m ==>
         && after[id].balance + Sent(id, txs, receipts) == m[id].balance + Received(id, txs, receipts)
         && after[id].nonce == (m[id].nonce + Successes(id, txs, receipts)) % U64
  }

  lemma {:induction false} BlockLaw(m: Accounts, txs: seq<Transaction>, signed: Transaction -> bool)
    requires InRange(m) && Total(m) < U128
    ensures Accounted(m, BlockSpec(m, txs, signed).0, txs, BlockSpec(m, txs, signed).1)
  {
    hide Total, InRange, TransactionSpec, Accounted;
    if txs == [] {
      NothingAccounted(m);
    } else {
      var n := |txs| - 1;
      var (before, receipts) := BlockSpec(m, txs[..n], signed);
      BlockLaw(m, txs[..n], signed);
      BlockStep(m, before, txs[..n], receipts, txs[n], signed);
      assert txs[..n] + [txs[n]] == txs;
    }
  }

  lemma NothingAccounted(m: Accounts)
    requires InRange(m)
    ensures Accounted(m, m, [], [])
  {
    hide Total;
    NoncesFit(m);
  }

  lemma BlockStep(m: Accounts, before: Accounts, txs: seq<Transaction>, receipts: seq<Receipt>, tx: Transaction,
                  signed: Transaction -> bool)
    requires Total(m) < U128 && |txs| == |receipts| && Accounted(m, before, txs, receipts)
    ensures var (after, receipt) := TransactionSpec(before, tx, signed);
            Accounted(m, after, txs + [tx], receipts + [receipt])
  {
    hide Total, InRange, TransactionSpec, Moved;
    TransactionLaw(before, tx, signed);
    var (after, receipt) := TransactionSpec(before, tx, signed);
    forall id | id in m
      ensures after[id].balance + Sent(id, txs + [tx], receipts + [receipt])
              == m[id].balance + Received(id, txs + [tx], receipts + [receipt])
      ensures after[id].nonce == (m[id].nonce + Successes(id, txs + [tx], receipts + [receipt])) % U64
    {
      assert Moved(before[id], after[id], id, tx, receipt);
      AccountStep(id, m[id], before[id], after[id], txs, receipts, tx, receipt);
    }
  }

  lemma {:induction false} AccountStep(id: string, start: Account, before: Account, after: Account,
                    txs: seq<Transaction>, receipts: seq<Receipt>, tx: Transaction, receipt: Receipt)
    requires |txs| == |receipts| && Moved(before, after, id, tx, receipt)
    requires before.balance + Sent(id, txs, receipts) == start.balance + Received(id, txs, receipts)
    requires before.nonce == (start.nonce + Successes(id, txs, receipts)) % U64
    ensures after.balance + Sent(id, txs + [tx], receipts + [receipt])
            == start.balance + Received(id, txs + [tx], receipts + [receipt])
    ensures after.nonce == (start.nonce + Successes(id, txs + [tx], receipts + [receipt])) % U64
  {
    assert (txs + [tx])[..|txs|] == txs && (receipts + [receipt])[..|txs|] == receipts;
  }

  lemma NoncesFit(m: Accounts)
    requires InRange(m)
    ensures forall id :: id in m ==> m[id].nonce % U64 == m[id].nonce
  {
  }

  /** From any ledger whose total fits a u128, over any run of blocks. */
  lemma RunLaw(m: Accounts, blocks: seq<seq<Transaction>>, signed: Transaction -> bool)
    requires InRange(m) && Total(m) < U128
    ensures var (after, receipts) := RunSpec(m, blocks, signed);
            |receipts| == |Flatten(blocks)| && Accounted(m, after, Flatten(blocks), receipts)
  {
    RunIsOneBlock(m, blocks, signed);
    BlockLaw(m, Flatten(blocks), signed);
  }

  /** The transactions with a Success receipt, in order. */
  function Successful(txs: seq<Transaction>, receipts: seq<Receipt>): seq<Transaction>
    requires |txs| == |receipts|
  {
    if txs == [] then []
    else
      var n := |txs| - 1;
      Successful(txs[..n], receipts[..n]) + if receipts[n].status.Success? then [txs[n]] else []
  }

  /** A transaction that fails after a block leaves what the block left. */
  lemma FailedAfterBlock(m: Accounts, txs: seq<Transaction>, tx: Transaction, signed: Transaction -> bool)
    requires InRange(m) && Total(m) < U128
    ensures var before := BlockSpec(m, txs, signed).0;
            TransactionSpec(before, tx, signed).1.status.Failed? ==> TransactionSpec(before, tx, signed).0 == before
  {
    hide Total, InRange, TransactionSpec, BlockSpec, Sent, Received, Successes, Moved;
    BlockLaw(m, txs, signed);
    TransactionLaw(BlockSpec(m, txs, signed).0, tx, signed);
  }

  lemma BlockAppend(m: Accounts, txs: seq<Transaction>, tx: Transaction, signed: Transaction -> bool)
    ensures var (before, receipts) := BlockSpec(m, txs, signed);
            var (after, receipt) := TransactionSpec(before, tx, signed);
            BlockSpec(m, txs + [tx], signed) == (after, receipts + [receipt])
  {
    hide TransactionSpec;
    assert (txs + [tx])[..|txs|] == txs;
  }

  lemma SuccessfulAppend(txs: seq<Transaction>, receipts: seq<Receipt>, tx: Transaction, receipt: Receipt)
    requires |txs| == |receipts|
    ensures Successful(txs + [tx], receipts + [receipt])
            == Successful(txs, receipts) + if receipt.status.Success? then [tx] else []
  {
    assert (txs + [tx])[..|txs|] == txs && (receipts + [receipt])[..|txs|] == receipts;
  }

  ghost predicate AllSucceeded(receipts: seq<Receipt>) {
    forall i :: 0 <= i < |receipts| ==> receipts[i].status.Success?
  }

  lemma NothingToLeaveOut(m: Accounts, signed: Transaction -> bool)
    ensures BlockSpec(m, [], signed) == (m, []) && Successful([], []) == [] && AllSucceeded([])
  {
  }

  lemma OneMoreSucceeded(receipts: seq<Receipt>, receipt: Receipt)
    requires AllSucceeded(receipts) && receipt.status.Success?
    ensures AllSucceeded(receipts + [receipt])
  {
  }

  /** Leaving the failed transactions out gives the same ledger, and none of the others then fails. */
  lemma {:induction false} FailuresAreNoops(m: Accounts, txs: seq<Transaction>, signed: Transaction -> bool)
    requires InRange(m) && Total(m) < U128
    ensures var (after, receipts) := BlockSpec(m, txs, signed);
            var kept := Successful(txs, receipts);
            BlockSpec(m, kept, signed).0 == after && AllSucceeded(BlockSpec(m, kept, signed).1)
  {
    hide Total, InRange, TransactionSpec, BlockSpec, Successful, AllSucceeded;
    if txs == [] {
      NothingToLeaveOut(m, signed);
    } else {
      var init, tx := txs[..|txs| - 1], txs[|txs| - 1];
      assert txs == init + [tx];
      var (before, receipts) := BlockSpec(m, init, signed);
      var receipt := TransactionSpec(before, tx, signed).1;
      var kept := Successful(init, receipts);
      FailuresAreNoops(m, init, signed);
      FailedAfterBlock(m, init, tx, signed);
      BlockAppend(m, init, tx, signed);
      SuccessfulAppend(init, receipts, tx, receipt);
      if receipt.status.Success? {
        BlockAppend(m, kept, tx, signed);
        OneMoreSucceeded(BlockSpec(m, kept, signed).1, receipt);
      } else {
        assert kept + [] == kept;
      }
    }
  }

  // ---------------------------------------------------------------------------
  // Replays
  // ---------------------------------------------------------------------------

  /** The same signed transaction, `k` times. */
  function Repeated(tx: Transaction, k: nat): (r: seq<Transaction>)
    ensures |r| == k
  {
    seq(k, _ => tx)
  }

  /** The sender can pay for `k` copies; paying oneself costs nothing. */
  predicate PaysFor(m: Accounts, tx: Transaction, k: nat, signed: Transaction -> bool) {
    k > 0 ==>
      && signed(tx) && tx.from in m && tx.to in m
      && (if tx.from == tx.to then tx.amount else k * tx.amount) <= m[tx.from].balance
  }

  /** What is left after `k` copies, while they are all paid for. */
  ghost predicate AfterCopies(m: Accounts, after: Accounts, tx: Transaction, k: nat, signed: Transaction -> bool) {
    && after.Keys == m.Keys
    && (PaysFor(m, tx, k, signed) && tx.from in m ==>
          after[tx.from].balance == m[tx.from].balance - if tx.from == tx.to then 0 else k * tx.amount)
    && (!PaysFor(m, tx, k, signed) ==> !signed(tx) || Refused(after, tx.from, tx.to, tx.amount))
  }

  /** One copy more succeeds exactly when it is paid for as well. */
  lemma {:induction false} OneMoreCopy(m: Accounts, before: Accounts, tx: Transaction, k: nat,
      signed: Transaction -> bool)
    requires InRange(before) && Total(before) < U128 && AfterCopies(m, before, tx, k, signed)
    ensures var (after, receipt) := TransactionSpec(before, tx, signed);
            && (receipt.status.Success? <==> PaysFor(m, tx, k + 1, signed))
            && AfterCopies(m, after, tx, k + 1, signed)
  {
    hide Total, InRange, TransactionSpec;
    TransactionLaw(before, tx, signed);
    var (after, receipt) := TransactionSpec(before, tx, signed);
    assert (k + 1) * tx.amount == k * tx.amount + tx.amount;
    if tx.from in m {
      assert Moved(before[tx.from], after[tx.from], tx.from, tx, receipt);
    }
  }

  /**
   * The nonce of a transaction plays no part. The i-th copy of a transaction succeeds exactly when
   * the sender could pay for all copies so far.
   */
  lemma {:induction false} ReplayIff(m: Accounts, tx: Transaction, k: nat, signed: Transaction -> bool)
    requires InRange(m) && Total(m) < U128
    ensures var (after, receipts) := BlockSpec(m, Repeated(tx, k), signed);
            && AfterCopies(m, after, tx, k, signed)
            && forall i :: 0 <= i < k ==> (receipts[i].status.Success? <==> PaysFor(m, tx, i + 1, signed))
    decreases k
  {
    hide Total, InRange, TransactionSpec, AfterCopies, PaysFor;
    if k == 0 {
      NoCopies(m, tx, signed);
    } else {
      var fewer := Repeated(tx, k - 1);
      assert Repeated(tx, k)[..k - 1] == fewer;
      ReplayIff(m, tx, k - 1, signed);
      BlockLaw(m, fewer, signed);
      OneMoreCopy(m, BlockSpec(m, fewer, signed).0, tx, k - 1, signed);
    }
  }

  lemma NoCopies(m: Accounts, tx: Transaction, signed: Transaction -> bool)
    ensures AfterCopies(m, m, tx, 0, signed)
  {
  }

  /** A transaction that succeeded succeeds again exactly if the sender had twice the amount, or pays itself. */
  lemma SecondCopy(m: Accounts, tx: Transaction, signed: Transaction -> bool)
    requires InRange(m) && Total(m) < U128 && TransactionSpec(m, tx, signed).1.status.Success?
    ensures var again := TransactionSpec(TransactionSpec(m, tx, signed).0, tx, signed).1;
            again.status.Success? <==> tx.from == tx.to || 2 * tx.amount <= m[tx.from].balance
  {
    hide Total, InRange, TransactionSpec;
    NoCopies(m, tx, signed);
    OneMoreCopy(m, m, tx, 0, signed);
    TransactionLaw(m, tx, signed);
    OneMoreCopy(m, TransactionSpec(m, tx, signed).0, tx, 1, signed);
  }

  /** A bad signature or an unknown sender costs nothing; everything else costs a transfer, even if it fails. */
  lemma GasLaw(m: Accounts, tx: Transaction, signed: Transaction -> bool)
    ensures TransactionSpec(m, tx, signed).1.gasUsed == if signed(tx) && tx.from in m then 21000 else 0
  {
    hide ExecuteTransferSpec;
  }

  /** The nonce is counted in 64 bits. */
  lemma NonceCounts(m: Accounts, from: string, to: string, amount: nat)
    requires InRange(m) && ExecuteTransferSpec(m, from, to, amount).1
    ensures var after := ExecuteTransferSpec(m, from, to, amount).0;
            && from in m && from in after
            && after[from].nonce == if m[from].nonce == 18446744073709551615 then 0 else m[from].nonce + 1
  {
  }

  /** One signature, two payments: any signed transaction to somebody else, twice in a block, with funds for both. */
  lemma PaidTwice(m: Accounts, tx: Transaction, signed: Transaction -> bool)
    requires InRange(m) && Total(m) < U128 && signed(tx)
    requires tx.from in m && tx.to in m && tx.from != tx.to && 2 * tx.amount <= m[tx.from].balance
    ensures var (after, receipts) := BlockSpec(m, [tx, tx], signed);
            && receipts == [Receipt(Success, 21000), Receipt(Success, 21000)]
            && after.Keys == m.Keys
            && after[tx.from].balance == m[tx.from].balance - 2 * tx.amount
            && after[tx.to].balance == m[tx.to].balance + 2 * tx.amount
  {
    hide Total, InRange, TransactionSpec, BlockSpec, Moved;
    var (m1, r1) := TransactionSpec(m, tx, signed);
    TransactionLaw(m, tx, signed);
    assert Moved(m[tx.from], m1[tx.from], tx.from, tx, r1) && Moved(m[tx.to], m1[tx.to], tx.to, tx, r1);
    PaidOnce(m[tx.from], m1[tx.from], m[tx.to], m1[tx.to], tx, r1);
    var (m2, r2) := TransactionSpec(m1, tx, signed);
    TransactionLaw(m1, tx, signed);
    assert Moved(m1[tx.from], m2[tx.from], tx.from, tx, r2) && Moved(m1[tx.to], m2[tx.to], tx.to, tx, r2);
    PaidOnce(m1[tx.from], m2[tx.from], m1[tx.to], m2[tx.to], tx, r2);
    GasLaw(m, tx, signed);
    GasLaw(m1, tx, signed);
    TwoInABlock(m, tx, signed);
  }

  lemma PaidOnce(a: Account, a': Account, b: Account, b': Account, tx: Transaction, receipt: Receipt)
    requires receipt.status.Success? && tx.from != tx.to
    requires Moved(a, a', tx.from, tx, receipt) && Moved(b, b', tx.to, tx, receipt)
    ensures a'.balance == a.balance - tx.amount && b'.balance == b.balance + tx.amount
  {
  }

  lemma TwoInABlock(m: Accounts, tx: Transaction, signed: Transaction -> bool)
    ensures var (m1, r1) := TransactionSpec(m, tx, signed);
            var (m2, r2) := TransactionSpec(m1, tx, signed);
            BlockSpec(m, [tx, tx], signed) == (m2, [r1, r2])
  {
    hide TransactionSpec;
    var (m1, r1) := TransactionSpec(m, tx, signed);
    var (_, r2) := TransactionSpec(m1, tx, signed);
    assert BlockSpec(m, [], signed) == (m, []);
    BlockAppend(m, [], tx, signed);
    assert [] + [tx] == [tx] && [] + [r1] == [r1];
    BlockAppend(m, [tx], tx, signed);
    assert [tx] + [tx] == [tx, tx] && [r1] + [r2] == [r1, r2];
  }

  // ---------------------------------------------------------------------------
  // Loading
  // ---------------------------------------------------------------------------

  /** A ledger loaded from balances that fit a u64 in all satisfies the laws' condition. */
  lemma {:induction false} LoadedFits(utxos: map<string, nat>)
    requires Sum(utxos) < U64
    ensures InRange(Loaded(utxos)) && Total(Loaded(utxos)) == Sum(utxos) * GenesisFile.YOCTO < U128
    ensures Loaded(utxos).Keys == utxos.Keys
    ensures forall a :: a in utxos ==> Loaded(utxos)[a].nonce == 0
                                       && Loaded(utxos)[a].balance == utxos[a] * 10_000_000_000_000_000
  {
    LoadedTotal(utxos);
    forall a | a in utxos
      ensures utxos[a] < U64
    {
      SumAtLeast(utxos, a);
    }
  }

  lemma {:induction false} LoadedTotal(utxos: map<string, nat>)
    ensures Total(Loaded(utxos)) == Sum(utxos) * GenesisFile.YOCTO
    decreases |utxos|
  {
    if utxos == map[] {
      assert Balances(Loaded(utxos)) == map[];
    } else {
      var a :| a in utxos;
      var rest := utxos - {a};
      LoadedTotal(rest);
      LoadedStep(utxos, a);
    }
  }

  lemma LoadedStep(utxos: map<string, nat>, a: string)
    requires a in utxos
    ensures Sum(utxos) == utxos[a] + Sum(utxos - {a})
    ensures Total(Loaded(utxos)) == utxos[a] * GenesisFile.YOCTO + Total(Loaded(utxos - {a}))
  {
    hide Sum;
    SumRemove(utxos, a);
    SumRemove(Balances(Loaded(utxos)), a);
    assert Balances(Loaded(utxos)) - {a} == Balances(Loaded(utxos - {a}));
  }
}
