/**
 * The transaction schema of the Python library, and what its serializer has to do with the
 * hand-written encoder: two encoders of one format, written in two languages, each against the other.
 */
module TxSchema {
  import opened Options
  import opened Bytes
  import opened Radix
  import opened BorshSchema
  import opened BorshLayout
  import opened NearTx
  import opened NearTxDecode

  // ---------------------------------------------------------------------------
  // The schema
  // ---------------------------------------------------------------------------

  const ACTIONS: seq<(string, FieldType)> := [
    ("createAccount", TClass("CreateAccount")),
    ("deployContract", TClass("DeployContract")),
    ("functionCall", TClass("FunctionCall")),
    ("transfer", TClass("Transfer")),
    ("stake", TClass("Stake")),
    ("addKey", TClass("AddKey")),
    ("deleteKey", TClass("DeleteKey")),
    ("deleteAccount", TClass("DeleteAccount")),
    ("delegate", TClass("SignedDelegate")),
    ("deployGlobalContract", TClass("DeployGlobalContract")),
    ("useGlobalContract", TClass("UseGlobalContract"))
  ]

  const PERMISSIONS: seq<(string, FieldType)> :=
    [("functionCall", TClass("FunctionCallPermission")), ("fullAccess", TClass("FullAccessPermission"))]

  const IDENTIFIERS: seq<(string, FieldType)> := [("codeHash", TFixed(32)), ("accountId", TString)]

  const DEPLOY_MODES: seq<(string, FieldType)> := [("codeHash", TTuple([])), ("accountId", TTuple([]))]

  ghost predicate Struct(c: Codec, name: string, fields: seq<FieldType>) {
    name in c.schema && c.schema[name] == StructOf(fields)
  }

  ghost predicate Enum(c: Codec, name: string, variants: seq<(string, FieldType)>) {
    name in c.schema && c.schema[name] == EnumOf(variants)
  }

  /** The entries of the schema that matter here; the library's keys have 32 bytes. */
  ghost predicate Schema(c: Codec, keyLen: nat) {
    && Struct(c, "Transaction", [TString, TClass("PublicKey"), TUint(8), TString, TFixed(32), TArray(TClass("Action"))])
    && Enum(c, "Action", ACTIONS)
    && Struct(c, "CreateAccount", [])
    && Struct(c, "DeployContract", [TArray(TUint(1))])
    && Struct(c, "DeployGlobalContract", [TArray(TUint(1)), TClass("GlobalContractDeployMode")])
    && Enum(c, "GlobalContractDeployMode", DEPLOY_MODES)
    && Struct(c, "UseGlobalContract", [TClass("GlobalContractIdentifier")])
    && Enum(c, "GlobalContractIdentifier", IDENTIFIERS)
    && Struct(c, "FunctionCall", [TString, TArray(TUint(1)), TUint(8), TUint(16)])
    && Struct(c, "Transfer", [TUint(16)])
    && Struct(c, "Stake", [TUint(16), TClass("PublicKey")])
    && Struct(c, "AddKey", [TClass("PublicKey"), TClass("AccessKey")])
    && Struct(c, "DeleteKey", [TClass("PublicKey")])
    && Struct(c, "DeleteAccount", [TString])
    && Struct(c, "PublicKey", [TUint(1), TFixed(keyLen)])
    && Struct(c, "AccessKey", [TUint(8), TClass("AccessKeyPermission")])
    && Enum(c, "AccessKeyPermission", PERMISSIONS)
    && Struct(c, "FunctionCallPermission", [TOption(TUint(16)), TString, TArray(TString)])
    && Struct(c, "FullAccessPermission", [])
  }

  // ---------------------------------------------------------------------------
  // Transactions as Python objects
  // ---------------------------------------------------------------------------

  function KeyValue(k: PublicKey): Value {
    VStruct("PublicKey", [VInt(if k.Ed25519? then 0 else 1), VBytes(k.key)])
  }

  function Names(names: seq<seq<Byte>>): (r: seq<Value>)
    ensures |r| == |names|
  {
    seq(|names|, i requires 0 <= i < |names| => VStr(names[i]))
  }

  function AddKeyValue(k: PublicKey, permission: string, payload: Value): Value {
    VStruct("AddKey", [KeyValue(k), VStruct("AccessKey", [VInt(0), VEnum("AccessKeyPermission", permission, payload)])])
  }

  /** The kinds of action that both encoders write alike. */
  predicate Common(a: Action) {
    !a.Delegate? && !a.DeployGlobalContract? && !a.DeployGlobalContractByHash?
    && !a.DeterministicStateInit? && !a.TransferToGasKey? && !a.WithdrawFromGasKey?
  }

  /** The position of the kind in the schema. */
  function Position(a: Action): nat
    requires Common(a)
  {
    match a
    case CreateAccount => 0
    case DeployContract(_) => 1
    case FunctionCall(_, _, _, _) => 2
    case Transfer(_) => 3
    case Stake(_, _) => 4
    case AddFullAccessKey(_) => 5
    case AddFunctionCallKey(_, _, _, _) => 5
    case DeleteKey(_) => 6
    case DeleteAccount(_) => 7
    case UseGlobalContractByHash(_) => 10
    case UseGlobalContractByAccount(_) => 10
  }

  function Payload(a: Action): Value
    requires Common(a)
  {
    match a
    case CreateAccount => VStruct("CreateAccount", [])
    case DeployContract(code) => VStruct("DeployContract", [VBytes(code)])
    case FunctionCall(name, args, gas, deposit) =>
      VStruct("FunctionCall", [VStr(name), VBytes(args), VInt(gas), VInt(deposit)])
    case Transfer(deposit) => VStruct("Transfer", [VInt(deposit)])
    case Stake(amount, k) => VStruct("Stake", [VInt(amount), KeyValue(k)])
    case AddFullAccessKey(k) => AddKeyValue(k, "fullAccess", VStruct("FullAccessPermission", []))
    case AddFunctionCallKey(k, allowance, receiver, names) =>
      var limit := if allowance.Some? then VInt(allowance.value) else VNone;
      AddKeyValue(k, "functionCall", VStruct("FunctionCallPermission", [limit, VStr(receiver), VList(Names(names))]))
    case DeleteKey(k) => VStruct("DeleteKey", [KeyValue(k)])
    case DeleteAccount(beneficiary) => VStruct("DeleteAccount", [VStr(beneficiary)])
    case UseGlobalContractByHash(hash) =>
      VStruct("UseGlobalContract", [VEnum("GlobalContractIdentifier", "codeHash", VBytes(hash))])
    case UseGlobalContractByAccount(account) =>
      VStruct("UseGlobalContract", [VEnum("GlobalContractIdentifier", "accountId", VStr(account))])
  }

  function ActionValue(a: Action): Value
    requires Common(a)
  {
    VEnum("Action", ACTIONS[Position(a)].0, Payload(a))
  }

  function KeysOf(a: Action): seq<PublicKey> {
    match a
    case Stake(_, k) => [k]
    case AddFullAccessKey(k) => [k]
    case AddFunctionCallKey(k, _, _, _) => [k]
    case DeleteKey(k) => [k]
    case _ => []
  }

  function TextsOf(a: Action): seq<seq<Byte>> {
    match a
    case FunctionCall(name, _, _, _) => [name]
    case AddFunctionCallKey(_, _, receiver, names) => [receiver] + names
    case DeleteAccount(beneficiary) => [beneficiary]
    case UseGlobalContractByAccount(account) => [account]
    case _ => []
  }

  /** Integers and lengths within bounds, text that is text, and keys of the schema's length. */
  ghost predicate Writable(c: Codec, a: Action, keyLen: nat) {
    && Common(a)
    && (forall i :: 0 <= i < |KeysOf(a)| ==> |KeysOf(a)[i].key| == keyLen)
    && (forall i :: 0 <= i < |TextsOf(a)| ==> c.utf8(TextsOf(a)[i]) && |TextsOf(a)[i]| < 0x1_0000_0000)
    && match a
       case DeployContract(code) => |code| < 0x1_0000_0000
       case FunctionCall(_, args, gas, deposit) => |args| < 0x1_0000_0000 && Fits(gas, 8) && Fits(deposit, 16)
       case Transfer(deposit) => Fits(deposit, 16)
       case Stake(amount, _) => Fits(amount, 16)
       case AddFunctionCallKey(_, allowance, _, names) =>
         (allowance.Some? ==> Fits(allowance.value, 16)) && |names| < 0x1_0000_0000
       case UseGlobalContractByHash(hash) => |hash| == 32
       case _ => true
  }

  // ---------------------------------------------------------------------------
  // Parts
  // ---------------------------------------------------------------------------

  lemma Concats(a: seq<Byte>, b: seq<Byte>, d: seq<Byte>, e: seq<Byte>)
    ensures Concat([a]) == a && Concat([a, b]) == a + b && Concat([a, b, d]) == a + (b + d)
    ensures Concat([a, b, d, e]) == a + (b + (d + e))
  {
    Cons(a, []);
    Cons(b, []);
    Cons(d, []);
    Cons(e, []);
    Cons(a, [b]);
    Cons(b, [d]);
    Cons(d, [e]);
    Cons(a, [b, d]);
    Cons(b, [d, e]);
    Cons(a, [b, d, e]);
    assert a + [] == a && b + [] == b && d + [] == d && e + [] == e;
  }

  lemma Cons(x: seq<Byte>, rest: seq<seq<Byte>>)
    ensures Concat([x] + rest) == x + Concat(rest)
  {
    assert ([x] + rest)[1..] == rest;
  }

  lemma Empty(c: Codec, name: string)
    requires Struct(c, name, [])
    ensures Ser(c, VStruct(name, []), TClass(name)) == Some([])
  {
    StructLayout(c, name, [], []);
  }

  lemma One(c: Codec, name: string, t: FieldType, v: Value, p: seq<Byte>)
    requires Struct(c, name, [t]) && Ser(c, v, t) == Some(p)
    ensures Ser(c, VStruct(name, [v]), TClass(name)) == Some(p)
  {
    hide Ser, Concat;
    StructLayout(c, name, [v], [p]);
    Concats(p, p, p, p);
  }

  lemma Two(c: Codec, name: string, t: FieldType, u: FieldType, v: Value, w: Value, p: seq<Byte>, q: seq<Byte>)
    requires Struct(c, name, [t, u]) && Ser(c, v, t) == Some(p) && Ser(c, w, u) == Some(q)
    ensures Ser(c, VStruct(name, [v, w]), TClass(name)) == Some(p + q)
  {
    hide Ser, Concat;
    StructLayout(c, name, [v, w], [p, q]);
    Concats(p, q, p, q);
  }

  lemma NumIs(c: Codec, v: nat, width: nat)
    requires Fits(v, width)
    ensures Ser(c, VInt(v), TUint(width)) == Some(LeBytes(v, width))
  {
  }

  lemma TextIs(c: Codec, s: seq<Byte>)
    requires c.utf8(s) && |s| < 0x1_0000_0000
    ensures Ser(c, VStr(s), TString) == Some(WriteBytes(s))
  {
    hide Ser, LeBytes;
    StringLayout(c, s);
  }

  lemma KeyIs(c: Codec, k: PublicKey, keyLen: nat)
    requires Struct(c, "PublicKey", [TUint(1), TFixed(keyLen)]) && |k.key| == keyLen
    ensures Ser(c, KeyValue(k), TClass("PublicKey")) == Some(WriteKey(k))
  {
    var tag: nat := if k.Ed25519? then 0 else 1;
    OneByte(tag);
    assert Ser(c, VInt(tag), TUint(1)) == Some([tag]);
    assert Ser(c, VBytes(k.key), TFixed(keyLen)) == Some(k.key);
    Two(c, "PublicKey", TUint(1), TFixed(keyLen), VInt(tag), VBytes(k.key), [tag], k.key);
  }

  lemma {:induction false} NamesConcat(names: seq<seq<Byte>>, parts: seq<seq<Byte>>)
    requires |parts| == |names| && forall i :: 0 <= i < |names| ==> parts[i] == WriteBytes(names[i])
    ensures Concat(parts) == WriteNames(names)
  {
    hide WriteBytes;
    if names != [] {
      NamesConcat(names[1..], parts[1..]);
    }
  }

  lemma NamesIs(c: Codec, names: seq<seq<Byte>>)
    requires |names| < 0x1_0000_0000 && forall i :: 0 <= i < |names| ==> c.utf8(names[i]) && |names[i]| < 0x1_0000_0000
    ensures Ser(c, VList(Names(names)), TArray(TString)) == Some(LeBytes(|names|, 4) + WriteNames(names))
  {
    hide Ser, LeBytes, WriteNames, WriteBytes, Concat;
    var vs, ts := Names(names), seq(|names|, _ => TString);
    var parts := seq(|names|, i requires 0 <= i < |names| => WriteBytes(names[i]));
    forall i | 0 <= i < |names|
      ensures Ser(c, vs[i], ts[i]) == Some(parts[i])
    {
      TextIs(c, names[i]);
    }
    assert Parts(c, vs, ts, parts);
    ListLayout(c, vs, TString);
    NamesConcat(names, parts);
  }

  lemma VariantNames()
    ensures forall i, j :: 0 <= i < j < 11 ==> ACTIONS[i].0 != ACTIONS[j].0
    ensures PERMISSIONS[0].0 != PERMISSIONS[1].0 && IDENTIFIERS[0].0 != IDENTIFIERS[1].0
    ensures DEPLOY_MODES[0].0 != DEPLOY_MODES[1].0
  {
  }

  // ---------------------------------------------------------------------------
  // Actions
  // ---------------------------------------------------------------------------

  lemma AccessKeyIs(c: Codec, k: PublicKey, keyLen: nat, i: nat, payload: Value, body: seq<Byte>)
    requires Schema(c, keyLen) && |k.key| == keyLen && i < 2 && Ser(c, payload, PERMISSIONS[i].1) == Some(body)
    ensures Ser(c, AddKeyValue(k, PERMISSIONS[i].0, payload), TClass("AddKey"))
            == Some(WriteKey(k) + (LeBytes(0, 8) + ([i] + body)))
  {
    hide Ser, LeBytes, WriteKey;
    VariantNames();
    EnumLayout(c, "AccessKeyPermission", i, payload);
    var permission := VEnum("AccessKeyPermission", PERMISSIONS[i].0, payload);
    ZeroFits();
    NumIs(c, 0, 8);
    Two(c, "AccessKey", TUint(8), TClass("AccessKeyPermission"), VInt(0), permission, LeBytes(0, 8), [i] + body);
    KeyIs(c, k, keyLen);
    var access := VStruct("AccessKey", [VInt(0), permission]);
    Two(c, "AddKey", TClass("PublicKey"), TClass("AccessKey"), KeyValue(k), access,
        WriteKey(k), LeBytes(0, 8) + ([i] + body));
  }

  lemma FunctionCallKeyIs(c: Codec, keyLen: nat, k: PublicKey, allowance: Option<nat>, receiver: seq<Byte>,
                          names: seq<seq<Byte>>)
    requires Schema(c, keyLen) && Writable(c, AddFunctionCallKey(k, allowance, receiver, names), keyLen)
    ensures var a := AddFunctionCallKey(k, allowance, receiver, names);
            Ser(c, Payload(a), TClass("AddKey")) == Some(WriteBody(a))
  {
    hide Ser, LeBytes, WriteKey, WriteBytes, WriteNames, Concat, Fits;
    var a := AddFunctionCallKey(k, allowance, receiver, names);
    assert KeysOf(a)[0] == k && TextsOf(a)[0] == receiver;
    forall i | 0 <= i < |names|
      ensures c.utf8(names[i]) && |names[i]| < 0x1_0000_0000
    {
      assert TextsOf(a)[i + 1] == names[i];
    }
    var limit := if allowance.Some? then VInt(allowance.value) else VNone;
    AllowanceIs(c, allowance);
    TextIs(c, receiver);
    NamesIs(c, names);
    var x, y, z := WriteAllowance(allowance), WriteBytes(receiver), LeBytes(|names|, 4) + WriteNames(names);
    var fields := [limit, VStr(receiver), VList(Names(names))];
    StructLayout(c, "FunctionCallPermission", fields, [x, y, z]);
    Concats(x, y, z, z);
    AccessKeyIs(c, k, keyLen, 0, VStruct("FunctionCallPermission", fields), x + (y + z));
  }

  lemma AllowanceIs(c: Codec, allowance: Option<nat>)
    requires allowance.Some? ==> Fits(allowance.value, 16)
    ensures Ser(c, if allowance.Some? then VInt(allowance.value) else VNone, TOption(TUint(16)))
            == Some(WriteAllowance(allowance))
  {
    hide Ser, LeBytes;
    OptionLayout(c, if allowance.Some? then VInt(allowance.value) else VNone, TUint(16));
    if allowance.Some? {
      NumIs(c, allowance.value, 16);
    }
  }

  lemma FullAccessIs(c: Codec, keyLen: nat, k: PublicKey)
    requires Schema(c, keyLen) && |k.key| == keyLen
    ensures Ser(c, Payload(AddFullAccessKey(k)), TClass("AddKey")) == Some(WriteBody(AddFullAccessKey(k)))
  {
    hide Ser, LeBytes, WriteKey;
    Empty(c, "FullAccessPermission");
    AccessKeyIs(c, k, keyLen, 1, VStruct("FullAccessPermission", []), []);
    assert [1] + [] == [1];
  }

  lemma FunctionCallIs(c: Codec, keyLen: nat, name: seq<Byte>, args: seq<Byte>, gas: nat, deposit: nat)
    requires Schema(c, keyLen) && Writable(c, FunctionCall(name, args, gas, deposit), keyLen)
    ensures var a := FunctionCall(name, args, gas, deposit);
            Ser(c, Payload(a), TClass("FunctionCall")) == Some(WriteBody(a))
  {
    hide Ser, LeBytes, Concat, Fits;
    assert TextsOf(FunctionCall(name, args, gas, deposit))[0] == name;
    TextIs(c, name);
    BytesLayout(c, args);
    NumIs(c, gas, 8);
    NumIs(c, deposit, 16);
    var w, x, y, z := WriteBytes(name), WriteBytes(args), LeBytes(gas, 8), LeBytes(deposit, 16);
    StructLayout(c, "FunctionCall", [VStr(name), VBytes(args), VInt(gas), VInt(deposit)], [w, x, y, z]);
    Concats(w, x, y, z);
  }

  lemma UseGlobalIs(c: Codec, keyLen: nat, i: nat, v: Value, body: seq<Byte>)
    requires Schema(c, keyLen) && i < 2 && Ser(c, v, IDENTIFIERS[i].1) == Some(body)
    ensures Ser(c, VStruct("UseGlobalContract", [VEnum("GlobalContractIdentifier", IDENTIFIERS[i].0, v)]),
                TClass("UseGlobalContract"))
            == Some([i] + body)
  {
    hide Ser;
    VariantNames();
    EnumLayout(c, "GlobalContractIdentifier", i, v);
    One(c, "UseGlobalContract", TClass("GlobalContractIdentifier"),
        VEnum("GlobalContractIdentifier", IDENTIFIERS[i].0, v), [i] + body);
  }

  /** What follows the tag of an action. */
  lemma BodyAgrees(c: Codec, a: Action, keyLen: nat)
    requires Schema(c, keyLen) && Writable(c, a, keyLen)
    ensures Ser(c, Payload(a), ACTIONS[Position(a)].1) == Some(WriteBody(a))
  {
    hide Ser, LeBytes, WriteKey, Fits;
    match a
    case CreateAccount => Empty(c, "CreateAccount");
    case DeployContract(code) =>
      BytesLayout(c, code);
      One(c, "DeployContract", TArray(TUint(1)), VBytes(code), WriteBytes(code));
    case FunctionCall(name, args, gas, deposit) => FunctionCallIs(c, keyLen, name, args, gas, deposit);
    case Transfer(deposit) =>
      NumIs(c, deposit, 16);
      One(c, "Transfer", TUint(16), VInt(deposit), LeBytes(deposit, 16));
    case Stake(amount, k) =>
      assert KeysOf(a)[0] == k;
      NumIs(c, amount, 16);
      KeyIs(c, k, keyLen);
      Two(c, "Stake", TUint(16), TClass("PublicKey"), VInt(amount), KeyValue(k), LeBytes(amount, 16), WriteKey(k));
    case AddFullAccessKey(k) =>
      assert KeysOf(a)[0] == k;
      FullAccessIs(c, keyLen, k);
    case AddFunctionCallKey(k, allowance, receiver, names) =>
      FunctionCallKeyIs(c, keyLen, k, allowance, receiver, names);
    case DeleteKey(k) =>
      assert KeysOf(a)[0] == k;
      KeyIs(c, k, keyLen);
      One(c, "DeleteKey", TClass("PublicKey"), KeyValue(k), WriteKey(k));
    case DeleteAccount(beneficiary) =>
      assert TextsOf(a)[0] == beneficiary;
      TextIs(c, beneficiary);
      One(c, "DeleteAccount", TString, VStr(beneficiary), WriteBytes(beneficiary));
    case UseGlobalContractByHash(hash) =>
      HashIs(c, hash);
      UseGlobalIs(c, keyLen, 0, VBytes(hash), hash);
    case UseGlobalContractByAccount(account) =>
      assert TextsOf(a)[0] == account;
      TextIs(c, account);
      UseGlobalIs(c, keyLen, 1, VStr(account), WriteBytes(account));
  }

  lemma HashIs(c: Codec, hash: seq<Byte>)
    requires |hash| == 32
    ensures Ser(c, VBytes(hash), TFixed(32)) == Some(hash)
  {
  }

  /** On the common kinds of action the Rust encoder writes what the Python schema says, tag and all. */
  lemma ActionAgrees(c: Codec, a: Action, keyLen: nat)
    requires Schema(c, keyLen) && Writable(c, a, keyLen)
    ensures Ser(c, ActionValue(a), TClass("Action")) == Some(WriteAction(a))
  {
    hide Ser, WriteBody, Payload;
    VariantNames();
    BodyAgrees(c, a, keyLen);
    EnumLayout(c, "Action", Position(a), Payload(a));
  }

  // ---------------------------------------------------------------------------
  // Transactions
  // ---------------------------------------------------------------------------

  ghost predicate TxWritable(c: Codec, tx: Tx) {
    && c.utf8(tx.signer) && |tx.signer| < 0x1_0000_0000 && c.utf8(tx.receiver) && |tx.receiver| < 0x1_0000_0000
    && |tx.publicKey| == 64 && Fits(tx.nonce, 8) && |tx.blockHash| == 32 && |tx.actions| < 0x1_0000_0000
    && forall i :: 0 <= i < |tx.actions| ==> Common(tx.actions[i]) && Writable(c, tx.actions[i], 64)
  }

  function ActionValues(actions: seq<Action>): (r: seq<Value>)
    requires forall i :: 0 <= i < |actions| ==> Common(actions[i])
    ensures |r| == |actions|
  {
    seq(|actions|, i requires 0 <= i < |actions| => ActionValue(actions[i]))
  }

  lemma {:induction false} ActionsConcat(actions: seq<Action>, parts: seq<seq<Byte>>)
    requires |parts| == |actions| && forall i :: 0 <= i < |actions| ==> parts[i] == WriteAction(actions[i])
    ensures Concat(parts) == WriteActions(actions)
  {
    hide WriteAction;
    if actions != [] {
      ActionsConcat(actions[1..], parts[1..]);
    }
  }

  lemma ActionsAgree(c: Codec, actions: seq<Action>)
    requires Schema(c, 64) && |actions| < 0x1_0000_0000
    requires forall i :: 0 <= i < |actions| ==> Common(actions[i]) && Writable(c, actions[i], 64)
    ensures Ser(c, VList(ActionValues(actions)), TArray(TClass("Action")))
            == Some(LeBytes(|actions|, 4) + WriteActions(actions))
  {
    hide Ser, LeBytes, WriteActions, WriteAction, ActionValue, Concat, Schema;
    var vs, ts := ActionValues(actions), seq(|actions|, _ => TClass("Action"));
    var parts := seq(|actions|, i requires 0 <= i < |actions| => WriteAction(actions[i]));
    forall i | 0 <= i < |actions|
      ensures Ser(c, vs[i], ts[i]) == Some(parts[i])
    {
      ActionAgrees(c, actions[i], 64);
    }
    assert Parts(c, vs, ts, parts);
    ListLayout(c, vs, TClass("Action"));
    ActionsConcat(actions, parts);
  }

  function TxValue(tx: Tx): Value
    requires forall i :: 0 <= i < |tx.actions| ==> Common(tx.actions[i])
  {
    VStruct("Transaction", [VStr(tx.signer), KeyValue(Secp256k1(tx.publicKey)), VInt(tx.nonce), VStr(tx.receiver),
                            VBytes(tx.blockHash), VList(ActionValues(tx.actions))])
  }

  /** Whole transactions, with the builder's 64-byte keys in the schema: the same bytes from both encoders. */
  lemma TxAgrees(c: Codec, tx: Tx)
    requires Schema(c, 64) && TxWritable(c, tx)
    ensures Ser(c, TxValue(tx), TClass("Transaction")) == Some(WriteTx(tx))
  {
    hide Ser, LeBytes, WriteActions, WriteKey, WriteBytes, Concat, KeyValue, ActionValues;
    TextIs(c, tx.signer);
    KeyIs(c, Secp256k1(tx.publicKey), 64);
    NumIs(c, tx.nonce, 8);
    TextIs(c, tx.receiver);
    HashIs(c, tx.blockHash);
    ActionsAgree(c, tx.actions);
    var s, k := WriteBytes(tx.signer), WriteKey(Secp256k1(tx.publicKey));
    var n, r := LeBytes(tx.nonce, 8), WriteBytes(tx.receiver);
    var h, a := tx.blockHash, LeBytes(|tx.actions|, 4) + WriteActions(tx.actions);
    var vs := TxValue(tx).fields;
    StructLayout(c, "Transaction", vs, [s, k, n, r, h, a]);
    Cons(s, [k, n, r, h, a]);
    assert [s] + [k, n, r, h, a] == [s, k, n, r, h, a];
    Cons(k, [n, r, h, a]);
    assert [k] + [n, r, h, a] == [k, n, r, h, a];
    Concats(n, r, h, a);
  }

  lemma KeyRefused(c: Codec, k: PublicKey, keyLen: nat)
    requires Struct(c, "PublicKey", [TUint(1), TFixed(keyLen)]) && |k.key| != keyLen
    ensures Ser(c, KeyValue(k), TClass("PublicKey")) == None
  {
    assert Ser(c, VBytes(k.key), TFixed(keyLen)) == None;
    StructFails(c, "PublicKey", KeyValue(k).fields, 1);
  }

  /** With the library's own 32-byte keys the schema has no bytes for any transaction of the builder. */
  lemma TxRefused(c: Codec, tx: Tx)
    requires Schema(c, 32) && |tx.publicKey| == 64 && forall i :: 0 <= i < |tx.actions| ==> Common(tx.actions[i])
    ensures Ser(c, TxValue(tx), TClass("Transaction")) == None
  {
    hide Ser, KeyValue, ActionValues;
    KeyRefused(c, Secp256k1(tx.publicKey), 32);
    StructFails(c, "Transaction", TxValue(tx).fields, 1);
  }

  // ---------------------------------------------------------------------------
  // Where they differ
  // ---------------------------------------------------------------------------

  /** The library's action for deploying a global contract; the mode says what it is known by. */
  function DeployGlobalValue(code: seq<Byte>, mode: nat): Value
    requires mode < 2
  {
    VEnum("Action", ACTIONS[9].0,
          VStruct("DeployGlobalContract",
                  [VBytes(code), VEnum("GlobalContractDeployMode", DEPLOY_MODES[mode].0, VNone)]))
  }

  lemma DeployGlobalBytes(c: Codec, code: seq<Byte>, mode: nat, keyLen: nat)
    requires Schema(c, keyLen) && mode < 2 && |code| < 0x1_0000_0000
    ensures Ser(c, DeployGlobalValue(code, mode), TClass("Action")) == Some([9] + (WriteBytes(code) + [mode]))
  {
    hide Ser, LeBytes;
    VariantNames();
    BytesLayout(c, code);
    UnitIs(c);
    EnumLayout(c, "GlobalContractDeployMode", mode, VNone);
    assert [mode] + [] == [mode];
    var m := VEnum("GlobalContractDeployMode", DEPLOY_MODES[mode].0, VNone);
    Two(c, "DeployGlobalContract", TArray(TUint(1)), TClass("GlobalContractDeployMode"), VBytes(code), m,
        WriteBytes(code), [mode]);
    EnumLayout(c, "Action", 9, VStruct("DeployGlobalContract", [VBytes(code), m]));
  }

  lemma UnitIs(c: Codec)
    ensures Ser(c, VNone, TTuple([])) == Some([])
  {
  }

  lemma {:induction false} ShiftedZeros(s: seq<Byte>, x: Byte, k: nat)
    requires s + [x] == [0] + s && k <= |s|
    ensures (s + [x])[k] == 0
  {
    if k > 0 {
      ShiftedZeros(s, x, k - 1);
      assert ([0] + s)[k] == s[k - 1] == (s + [x])[k - 1];
    }
  }

  /** Zero bytes of length are the length zero. */
  lemma ZeroLength(s: seq<Byte>)
    requires |s| < 0x1_0000_0000 && forall i :: 0 <= i < 4 ==> LeBytes(|s|, 4)[i] == 0
    ensures s == []
  {
    hide LeBytes, LeValue, Pow;
    FourBytes();
    LeRoundTrip(|s|, 4);
    var zeros: seq<Byte> := [0, 0, 0, 0];
    assert LeBytes(|s|, 4) == zeros;
    ZeroValue();
    assert |s| % 0x1_0000_0000 == |s|;
  }

  lemma ZeroValue()
    ensures LeValue([0, 0, 0, 0]) == 0
  {
    var z: seq<Byte> := [0, 0, 0, 0];
    assert z[1..] == [0, 0, 0] && z[1..][1..] == [0, 0] && z[1..][1..][1..] == [0];
  }

  /**
   * The Rust encoder puts the mode before the code of a global contract and the Python schema puts
   * it behind: the two agree on no deployment but that of no code at all by its hash.
   */
  lemma DeployGlobalAgreesIff(c: Codec, code: seq<Byte>, mode: nat, keyLen: nat)
    requires Schema(c, keyLen) && mode < 2 && |code| < 0x1_0000_0000
    ensures Ser(c, DeployGlobalValue(code, mode), TClass("Action")) == Some(WriteAction(DeployGlobalContract(code)))
            <==> code == [] && mode == 0
  {
    hide Ser, LeBytes, Schema;
    DeployGlobalBytes(c, code, mode, keyLen);
    var s := WriteBytes(code);
    var python: seq<Byte>, rust: seq<Byte> := [9] + (s + [mode]), [9] + ([0] + s);
    assert WriteAction(DeployGlobalContract(code)) == rust;
    if python == rust {
      assert python[1..] == s + [mode] && rust[1..] == [0] + s;
      forall i | 0 <= i <= |s|
        ensures (s + [mode])[i] == 0
      {
        ShiftedZeros(s, mode, i);
      }
      assert (s + [mode])[|s|] == mode;
      forall i | 0 <= i < 4
        ensures LeBytes(|code|, 4)[i] == 0
      {
        assert (s + [mode])[i] == LeBytes(|code|, 4)[i];
      }
      ZeroLength(code);
    }
    if code == [] && mode == 0 {
      NoLength();
      assert s == [0, 0, 0, 0];
    }
  }

  lemma NoLength()
    ensures LeBytes(0, 4) == [0, 0, 0, 0]
  {
    assert LeBytes(0, 4) == [0] + LeBytes(0, 3) && LeBytes(0, 3) == [0] + LeBytes(0, 2);
    assert LeBytes(0, 2) == [0] + LeBytes(0, 1) && LeBytes(0, 1) == [0] + LeBytes(0, 0);
  }

  // ---------------------------------------------------------------------------
  // The other kinds, and one action to the letter
  // ---------------------------------------------------------------------------

  /** The kinds the schema does not have, by their tags and parts. */
  lemma OtherKinds(k: seq<Byte>, n: nat, x: seq<Byte>, y: seq<Byte>)
    ensures Discriminant(Delegate(x, y)) == 0x08 && WriteBody(Delegate(x, y)) == WriteBytes(x) + WriteBytes(y)
    ensures var a := DeployGlobalContract(x); Discriminant(a) == 0x09 && WriteBody(a) == [0] + WriteBytes(x)
    ensures var a := DeployGlobalContractByHash(x); Discriminant(a) == 0x09 && WriteBody(a) == [1] + x
    ensures Discriminant(DeterministicStateInit) == 0x0B && WriteBody(DeterministicStateInit) == []
    ensures var a := TransferToGasKey(Secp256k1(k), n);
            Discriminant(a) == 0x0C && WriteBody(a) == [1] + k + LeBytes(n, 16)
    ensures var a := WithdrawFromGasKey(Secp256k1(k), n);
            Discriminant(a) == 0x0D && WriteBody(a) == [1] + k + LeBytes(n, 16)
  {
    hide LeBytes, WriteBytes;
  }

  lemma ZeroBytes(n: nat)
    ensures LeBytes(0, n) == seq(n, _ => 0)
  {
    if n > 0 {
      ZeroBytes(n - 1);
      assert LeBytes(0, n) == [0] + LeBytes(0, n - 1);
    }
  }

  lemma SmallNumber(v: Byte, n: nat)
    requires n > 0
    ensures LeBytes(v, n) == [v] + seq(n - 1, _ => 0)
  {
    ZeroBytes(n - 1);
    assert v % 256 == v && v / 256 == 0;
  }

  /** A call of the method "a" with the argument byte 7, gas 300 and deposit 1. */
  lemma OneCall()
    ensures WriteAction(FunctionCall([97], [7], 300, 1))
            == [2] + [1, 0, 0, 0, 97] + [1, 0, 0, 0, 7] + [44, 1, 0, 0, 0, 0, 0, 0]
               + [1, 0, 0, 0, 0, 0, 0, 0, 0, 0, 0, 0, 0, 0, 0, 0]
  {
    SmallNumber(1, 4);
    SmallNumber(1, 16);
    ZeroBytes(6);
    hide LeBytes;
    GasBytes();
    assert LeBytes(1, 4) == [1, 0, 0, 0];
    assert LeBytes(1, 16) == [1, 0, 0, 0, 0, 0, 0, 0, 0, 0, 0, 0, 0, 0, 0, 0];
  }

  lemma GasBytes()
    ensures LeBytes(300, 8) == [44, 1, 0, 0, 0, 0, 0, 0]
  {
    ZeroBytes(6);
    assert LeBytes(300, 8) == [44] + LeBytes(1, 7);
    assert LeBytes(1, 7) == [1] + LeBytes(0, 6);
    assert LeBytes(0, 6) == [0, 0, 0, 0, 0, 0];
  }
}
