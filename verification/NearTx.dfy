/**
 * The hand-written Borsh encoding of NEAR transactions. Text is its UTF-8 bytes. A length cast to
 * u32 keeps its four low bytes, which is what `LeBytes(_, 4)` does.
 */
module NearTx {
  import opened Options
  import opened Bytes

  datatype PublicKey = Ed25519(key: seq<Byte>) | Secp256k1(key: seq<Byte>)

  /** One constructor per kind of action; the two key flavours of an action share theirs. */
  datatype Action =
    | CreateAccount
    | DeployContract(code: seq<Byte>)
    | FunctionCall(methodName: seq<Byte>, args: seq<Byte>, gas: nat, deposit: nat)
    | Transfer(deposit: nat)
    | Stake(amount: nat, publicKey: PublicKey)
    | AddFullAccessKey(publicKey: PublicKey)
    | AddFunctionCallKey(publicKey: PublicKey, allowance: Option<nat>, receiver: seq<Byte>, methodNames: seq<seq<Byte>>)
    | DeleteKey(publicKey: PublicKey)
    | DeleteAccount(beneficiary: seq<Byte>)
    | Delegate(delegateAction: seq<Byte>, signature: seq<Byte>)
    | DeployGlobalContract(code: seq<Byte>)
    | DeployGlobalContractByHash(hash: seq<Byte>)
    | UseGlobalContractByHash(hash: seq<Byte>)
    | UseGlobalContractByAccount(account: seq<Byte>)
    | DeterministicStateInit
    | TransferToGasKey(publicKey: PublicKey, deposit: nat)
    | WithdrawFromGasKey(publicKey: PublicKey, amount: nat)

  datatype Tx = Tx(
    signer: seq<Byte>,
    publicKey: seq<Byte>,
    nonce: nat,
    receiver: seq<Byte>,
    blockHash: seq<Byte>,
    actions: seq<Action>
  )

  // ---------------------------------------------------------------------------
  // Writing
  // ---------------------------------------------------------------------------

  /** Length and contents, for strings and byte vectors alike. */
  function WriteBytes(s: seq<Byte>): seq<Byte> {
    LeBytes(|s|, 4) + s
  }

  function WriteKey(k: PublicKey): seq<Byte> {
    [if k.Ed25519? then 0 else 1] + k.key
  }

  function WriteAllowance(a: Option<nat>): seq<Byte> {
    if a.Some? then [1] + LeBytes(a.value, 16) else [0]
  }

  function WriteNames(names: seq<seq<Byte>>): seq<Byte> {
    if names == [] then [] else WriteBytes(names[0]) + WriteNames(names[1..])
  }

  function Discriminant(a: Action): Byte {
    match a
    case CreateAccount => 0x00
    case DeployContract(_) => 0x01
    case FunctionCall(_, _, _, _) => 0x02
    case Transfer(_) => 0x03
    case Stake(_, _) => 0x04
    case AddFullAccessKey(_) => 0x05
    case AddFunctionCallKey(_, _, _, _) => 0x05
    case DeleteKey(_) => 0x06
    case DeleteAccount(_) => 0x07
    case Delegate(_, _) => 0x08
    case DeployGlobalContract(_) => 0x09
    case DeployGlobalContractByHash(_) => 0x09
    case UseGlobalContractByHash(_) => 0x0A
    case UseGlobalContractByAccount(_) => 0x0A
    case DeterministicStateInit => 0x0B
    case TransferToGasKey(_, _) => 0x0C
    case WithdrawFromGasKey(_, _) => 0x0D
  }

  function WriteBody(a: Action): seq<Byte> {
    match a
    case CreateAccount => []
    case DeployContract(code) => WriteBytes(code)
    case FunctionCall(name, args, gas, deposit) =>
      WriteBytes(name) + (WriteBytes(args) + (LeBytes(gas, 8) + LeBytes(deposit, 16)))
    case Transfer(deposit) => LeBytes(deposit, 16)
    case Stake(amount, k) => LeBytes(amount, 16) + WriteKey(k)
    case AddFullAccessKey(k) => WriteKey(k) + (LeBytes(0, 8) + [1])
    case AddFunctionCallKey(k, allowance, receiver, names) =>
      WriteKey(k) + (LeBytes(0, 8) + ([0] + (WriteAllowance(allowance) + (WriteBytes(receiver)
      + (LeBytes(|names|, 4) + WriteNames(names))))))
    case DeleteKey(k) => WriteKey(k)
    case DeleteAccount(beneficiary) => WriteBytes(beneficiary)
    case Delegate(action, signature) => WriteBytes(action) + WriteBytes(signature)
    case DeployGlobalContract(code) => [0] + WriteBytes(code)
    case DeployGlobalContractByHash(hash) => [1] + hash
    case UseGlobalContractByHash(hash) => [0] + hash
    case UseGlobalContractByAccount(account) => [1] + WriteBytes(account)
    case DeterministicStateInit => []
    case TransferToGasKey(k, deposit) => WriteKey(k) + LeBytes(deposit, 16)
    case WithdrawFromGasKey(k, amount) => WriteKey(k) + LeBytes(amount, 16)
  }

  function WriteAction(a: Action): seq<Byte> {
    [Discriminant(a)] + WriteBody(a)
  }

  function WriteActions(actions: seq<Action>): seq<Byte> {
    if actions == [] then [] else WriteAction(actions[0]) + WriteActions(actions[1..])
  }

  function WriteTx(tx: Tx): seq<Byte> {
    WriteBytes(tx.signer) + (WriteKey(Secp256k1(tx.publicKey)) + (LeBytes(tx.nonce, 8) + (WriteBytes(tx.receiver)
    + (tx.blockHash + (LeBytes(|tx.actions|, 4) + WriteActions(tx.actions))))))
  }

  // ---------------------------------------------------------------------------
  // The source's routines
  // ---------------------------------------------------------------------------

  /** The only action constructor with a loop; the others append their parts in the order of `WriteBody`. */
  method AddFunctionCallKeyBytes(key: seq<Byte>, allowance: Option<nat>, receiver: seq<Byte>,
                                 names: seq<seq<Byte>>) returns (buf: seq<Byte>)
    ensures buf == WriteAction(AddFunctionCallKey(Secp256k1(key), allowance, receiver, names))
  {
    hide WriteBytes, LeBytes, WriteNames;
    ghost var r5 := LeBytes(|names|, 4) + WriteNames(names);
    ghost var r4 := WriteBytes(receiver) + r5;
    ghost var r3 := WriteAllowance(allowance) + r4;
    ghost var r2 := [0] + r3;
    ghost var r1 := LeBytes(0, 8) + r2;
    buf := [0x05];
    Assoc(buf, [0x01] + key, r1);
    Assoc(buf, [0x01], key);
    buf := buf + [0x01];
    buf := buf + key;
    Assoc(buf, LeBytes(0, 8), r2);
    buf := buf + LeBytes(0, 8);
    Assoc(buf, [0x00], r3);
    buf := buf + [0x00];
    Assoc(buf, WriteAllowance(allowance), r4);
    match allowance {
      case Some(a) =>
        Assoc(buf, [0x01], LeBytes(a, 16));
        buf := buf + [0x01];
        buf := buf + LeBytes(a, 16);
      case None =>
        buf := buf + [0x00];
    }
    Assoc(buf, WriteBytes(receiver), r5);
    buf := buf + WriteBytes(receiver);
    Assoc(buf, LeBytes(|names|, 4), WriteNames(names));
    buf := buf + LeBytes(|names|, 4);
    buf := AppendNames(buf, names);
  }

  method AppendNames(start: seq<Byte>, names: seq<seq<Byte>>) returns (buf: seq<Byte>)
    ensures buf == start + WriteNames(names)
  {
    hide WriteBytes;
    buf := start;
    assert names[0..] == names;
    for i := 0 to |names|
      invariant buf + WriteNames(names[i..]) == start + WriteNames(names)
    {
      assert names[i..][1..] == names[i + 1..];
      Assoc(buf, WriteBytes(names[i]), WriteNames(names[i + 1..]));
      buf := buf + WriteBytes(names[i]);
    }
    assert buf + [] == buf;
  }

  /** The builder: the actions are already bytes when they arrive. */
  class NearTxBuilder {
    const signer: seq<Byte>
    const publicKey: seq<Byte>
    const nonce: nat
    const receiver: seq<Byte>
    const blockHash: seq<Byte>
    var actions: seq<seq<Byte>>

    constructor (signer: seq<Byte>, publicKey: seq<Byte>, nonce: nat, receiver: seq<Byte>, blockHash: seq<Byte>)
      ensures actions == []
      ensures this.signer == signer && this.publicKey == publicKey && this.nonce == nonce
      ensures this.receiver == receiver && this.blockHash == blockHash
    {
      this.signer, this.publicKey, this.nonce := signer, publicKey, nonce;
      this.receiver, this.blockHash := receiver, blockHash;
      actions := [];
    }

    ghost predicate Holds(as': seq<Action>)
      reads this
    {
      |actions| == |as'| && forall i :: 0 <= i < |as'| ==> actions[i] == WriteAction(as'[i])
    }

    method AddAction(a: seq<Byte>)
      modifies this
      ensures actions == old(actions) + [a]
      ensures forall held, added :: old(Holds(held)) && a == WriteAction(added) ==> Holds(held + [added])
    {
      actions := actions + [a];
    }

    /** The bytes are those of the transaction with the actions added so far. */
    method BorshSerializeTx(ghost as': seq<Action>) returns (buf: seq<Byte>)
      requires Holds(as')
      ensures buf == WriteTx(Tx(signer, publicKey, nonce, receiver, blockHash, as'))
    {
      hide WriteActions, Holds;
      HoldsLength(as');
      buf := WriteHeader(signer, publicKey, nonce, receiver, blockHash, |actions|, WriteActions(as'));
      buf := AppendActions(buf, as');
    }

    lemma HoldsLength(as': seq<Action>)
      requires Holds(as')
      ensures |actions| == |as'|
    {
    }

    method AppendActions(start: seq<Byte>, ghost as': seq<Action>) returns (buf: seq<Byte>)
      requires Holds(as')
      ensures buf == start + WriteActions(as')
    {
      hide WriteAction;
      buf := start;
      assert as'[0..] == as';
      for i := 0 to |actions|
        invariant buf + WriteActions(as'[i..]) == start + WriteActions(as')
      {
        assert as'[i..][1..] == as'[i + 1..];
        Assoc(buf, actions[i], WriteActions(as'[i + 1..]));
        buf := buf + actions[i];
      }
      assert buf + [] == buf;
    }
  }

  /** Everything in front of the actions; `rest` stands for their bytes. */
  method WriteHeader(signer: seq<Byte>, publicKey: seq<Byte>, nonce: nat, receiver: seq<Byte>, blockHash: seq<Byte>,
                     count: nat, ghost rest: seq<Byte>)
    returns (buf: seq<Byte>)
    ensures buf + rest
            == WriteBytes(signer) + (WriteKey(Secp256k1(publicKey)) + (LeBytes(nonce, 8) + (WriteBytes(receiver)
               + (blockHash + (LeBytes(count, 4) + rest)))))
  {
    hide WriteBytes, LeBytes;
    ghost var r5 := LeBytes(count, 4) + rest;
    ghost var r4 := blockHash + r5;
    ghost var r3 := WriteBytes(receiver) + r4;
    ghost var r2 := LeBytes(nonce, 8) + r3;
    buf := WriteBytes(signer);
    Assoc(buf, [0x01] + publicKey, r2);
    Assoc(buf, [0x01], publicKey);
    buf := buf + [0x01];
    buf := buf + publicKey;
    Assoc(buf, LeBytes(nonce, 8), r3);
    buf := buf + LeBytes(nonce, 8);
    Assoc(buf, WriteBytes(receiver), r4);
    buf := buf + WriteBytes(receiver);
    Assoc(buf, blockHash, r5);
    buf := buf + blockHash;
    Assoc(buf, LeBytes(count, 4), rest);
    buf := buf + LeBytes(count, 4);
  }

  /** The legacy transfer encoder writes the same bytes as the builder with one transfer. */
  method LegacyTransferBytes(signer: seq<Byte>, publicKey: seq<Byte>, nonce: nat, receiver: seq<Byte>,
                             blockHash: seq<Byte>, deposit: nat)
    returns (buf: seq<Byte>)
    ensures buf == WriteTx(Tx(signer, publicKey, nonce, receiver, blockHash, [Transfer(deposit)]))
  {
    hide WriteBytes, LeBytes, WriteActions, WriteKey;
    OneTransfer(deposit);
    ghost var tail := [0x03] + LeBytes(deposit, 16);
    buf := WriteHeader(signer, publicKey, nonce, receiver, blockHash, 1, tail);
    Assoc(buf, [0x03], LeBytes(deposit, 16));
    buf := buf + [0x03];
    buf := buf + LeBytes(deposit, 16);
  }

  lemma OneTransfer(deposit: nat)
    ensures WriteActions([Transfer(deposit)]) == [0x03] + LeBytes(deposit, 16)
  {
    var one := [Transfer(deposit)];
    assert one[1..] == [];
    assert WriteActions(one) == WriteAction(Transfer(deposit)) + [];
  }
}
