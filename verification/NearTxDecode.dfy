/** A reader for the builder's bytes, and the proof that every transaction can be told from its bytes. */
module NearTxDecode {
  import opened Options
  import opened Bytes
  import opened Radix
  import opened BorshSchema
  import opened BorshRoundTrip
  import opened NearTx

  // ---------------------------------------------------------------------------
  // What the source's types and casts admit
  // ---------------------------------------------------------------------------

  ghost predicate Fits(v: nat, width: nat) {
    v < Pow(256, width)
  }

  ghost predicate ShortEnough(s: seq<Byte>) {
    Fits(|s|, 4)
  }

  ghost predicate KeyOk(k: PublicKey) {
    |k.key| == if k.Ed25519? then 32 else 64
  }

  /** Integers within their type, arrays of their size, lengths below 2^32, and key flavours the constructors offer. */
  ghost predicate ActionOk(a: Action) {
    match a
    case CreateAccount => true
    case DeployContract(code) => ShortEnough(code)
    case FunctionCall(name, args, gas, deposit) =>
        ShortEnough(name) && ShortEnough(args) && Fits(gas, 8) && Fits(deposit, 16)
    case Transfer(deposit) => Fits(deposit, 16)
    case Stake(amount, k) => Fits(amount, 16) && KeyOk(k)
    case AddFullAccessKey(k) => KeyOk(k)
    case AddFunctionCallKey(k, allowance, receiver, names) =>
      && k.Secp256k1? && KeyOk(k) && (allowance.Some? ==> Fits(allowance.value, 16)) && ShortEnough(receiver)
      && Fits(|names|, 4) && forall i :: 0 <= i < |names| ==> ShortEnough(names[i])
    case DeleteKey(k) => KeyOk(k)
    case DeleteAccount(beneficiary) => ShortEnough(beneficiary)
    case Delegate(action, signature) => ShortEnough(action) && ShortEnough(signature)
    case DeployGlobalContract(code) => ShortEnough(code)
    case DeployGlobalContractByHash(hash) => |hash| == 32
    case UseGlobalContractByHash(hash) => |hash| == 32
    case UseGlobalContractByAccount(account) => ShortEnough(account)
    case DeterministicStateInit => true
    case TransferToGasKey(k, deposit) => k.Secp256k1? && KeyOk(k) && Fits(deposit, 16)
    case WithdrawFromGasKey(k, amount) => k.Secp256k1? && KeyOk(k) && Fits(amount, 16)
  }

  ghost predicate TxOk(tx: Tx) {
    && ShortEnough(tx.signer) && |tx.publicKey| == 64 && Fits(tx.nonce, 8) && ShortEnough(tx.receiver)
        && |tx.blockHash| == 32
    && Fits(|tx.actions|, 4) && forall i :: 0 <= i < |tx.actions| ==> ActionOk(tx.actions[i])
  }

  // ---------------------------------------------------------------------------
  // Reading
  // ---------------------------------------------------------------------------

  function ReadByte(b: seq<Byte>): Option<Parsed<Byte>> {
    if b == [] then None else Some(Parsed(b[0], b[1..]))
  }

  function ReadBytes(b: seq<Byte>): Option<Parsed<seq<Byte>>> {
    var n := ParseNum(4, b);
    if n.None? then None else Take(n.value.value, n.value.rest)
  }

  function ReadKey(b: seq<Byte>): Option<Parsed<PublicKey>> {
    var tag := ReadByte(b);
    if tag.None? || tag.value.value > 1 then None
    else
      var k := Take(if tag.value.value == 0 then 32 else 64, tag.value.rest);
      if k.None? then None
      else Some(Parsed(if tag.value.value == 0 then Ed25519(k.value.value) else Secp256k1(k.value.value), k.value.rest))
  }

  function ReadAllowance(b: seq<Byte>): Option<Parsed<Option<nat>>> {
    var tag := ReadByte(b);
    if tag.None? then None
    else if tag.value.value == 0 then Some(Parsed(None, tag.value.rest))
    else
      var n := ParseNum(16, tag.value.rest);
      if n.None? then None else Some(Parsed(Some(n.value.value), n.value.rest))
  }

  function ReadNames(n: nat, b: seq<Byte>): Option<Parsed<seq<seq<Byte>>>> {
    if n == 0 then Some(Parsed([], b))
    else
      var x := ReadBytes(b);
      if x.None? then None
      else
        var xs := ReadNames(n - 1, x.value.rest);
        if xs.None? then None else Some(Parsed([x.value.value] + xs.value.value, xs.value.rest))
  }

  function ReadFunctionCall(b: seq<Byte>): Option<Parsed<Action>> {
    var name := ReadBytes(b);
    if name.None? then None else
    var args := ReadBytes(name.value.rest);
    if args.None? then None else
    var gas := ParseNum(8, args.value.rest);
    if gas.None? then None else
    var deposit := ParseNum(16, gas.value.rest);
    if deposit.None? then None
    else Some(Parsed(FunctionCall(name.value.value, args.value.value, gas.value.value, deposit.value.value),
        deposit.value.rest))
  }

  function ReadPermission(k: PublicKey, b: seq<Byte>): Option<Parsed<Action>> {
    var tag := ReadByte(b);
    if tag.None? then None
    else if tag.value.value == 1 then Some(Parsed(AddFullAccessKey(k), tag.value.rest))
    else
      var allowance := ReadAllowance(tag.value.rest);
      if allowance.None? then None else
      var receiver := ReadBytes(allowance.value.rest);
      if receiver.None? then None else
      var n := ParseNum(4, receiver.value.rest);
      if n.None? then None else
      var names := ReadNames(n.value.value, n.value.rest);
      if names.None? then None
      else Some(Parsed(AddFunctionCallKey(k, allowance.value.value, receiver.value.value, names.value.value),
          names.value.rest))
  }

  function ReadAddKey(b: seq<Byte>): Option<Parsed<Action>> {
    var k := ReadKey(b);
    if k.None? then None else
    var nonce := ParseNum(8, k.value.rest);
    if nonce.None? then None else ReadPermission(k.value.value, nonce.value.rest)
  }

  /** A key followed by a u128. */
  function ReadKeyAmount(b: seq<Byte>): Option<Parsed<(PublicKey, nat)>> {
    var k := ReadKey(b);
    if k.None? then None else
    var n := ParseNum(16, k.value.rest);
    if n.None? then None else Some(Parsed((k.value.value, n.value.value), n.value.rest))
  }

  function ReadStake(b: seq<Byte>): Option<Parsed<Action>> {
    var n := ParseNum(16, b);
    if n.None? then None else
    var k := ReadKey(n.value.rest);
    if k.None? then None else Some(Parsed(Stake(n.value.value, k.value.value), k.value.rest))
  }

  function ReadDelegate(b: seq<Byte>): Option<Parsed<Action>> {
    var x := ReadBytes(b);
    if x.None? then None else
    var y := ReadBytes(x.value.rest);
    if y.None? then None else Some(Parsed(Delegate(x.value.value, y.value.value), y.value.rest))
  }

  function ReadDeployGlobal(b: seq<Byte>): Option<Parsed<Action>> {
    var tag := ReadByte(b);
    if tag.None? then None
    else if tag.value.value == 0 then
      var x := ReadBytes(tag.value.rest);
      if x.None? then None else Some(Parsed(DeployGlobalContract(x.value.value), x.value.rest))
    else
      var x := Take(32, tag.value.rest);
      if x.None? then None else Some(Parsed(DeployGlobalContractByHash(x.value.value), x.value.rest))
  }

  function ReadUseGlobal(b: seq<Byte>): Option<Parsed<Action>> {
    var tag := ReadByte(b);
    if tag.None? then None
    else if tag.value.value == 0 then
      var x := Take(32, tag.value.rest);
      if x.None? then None else Some(Parsed(UseGlobalContractByHash(x.value.value), x.value.rest))
    else
      var x := ReadBytes(tag.value.rest);
      if x.None? then None else Some(Parsed(UseGlobalContractByAccount(x.value.value), x.value.rest))
  }

  function ReadBody(d: Byte, b: seq<Byte>): Option<Parsed<Action>> {
    if d == 0x00 then Some(Parsed(CreateAccount, b))
    else if d == 0x01 then
      var x := ReadBytes(b);
      if x.None? then None else Some(Parsed(DeployContract(x.value.value), x.value.rest))
    else if d == 0x02 then ReadFunctionCall(b)
    else if d == 0x03 then
      var n := ParseNum(16, b);
      if n.None? then None else Some(Parsed(Transfer(n.value.value), n.value.rest))
    else if d == 0x04 then ReadStake(b)
    else if d == 0x05 then ReadAddKey(b)
    else if d == 0x06 then
      var k := ReadKey(b);
      if k.None? then None else Some(Parsed(DeleteKey(k.value.value), k.value.rest))
    else if d == 0x07 then
      var x := ReadBytes(b);
      if x.None? then None else Some(Parsed(DeleteAccount(x.value.value), x.value.rest))
    else if d == 0x08 then ReadDelegate(b)
    else if d == 0x09 then ReadDeployGlobal(b)
    else if d == 0x0A then ReadUseGlobal(b)
    else if d == 0x0B then Some(Parsed(DeterministicStateInit, b))
    else
      var x := ReadKeyAmount(b);
      if x.None? then None
      else
        var (k, n) := x.value.value;
        Some(Parsed(if d == 0x0C then TransferToGasKey(k, n) else WithdrawFromGasKey(k, n), x.value.rest))
  }

  function ReadAction(b: seq<Byte>): Option<Parsed<Action>> {
    var d := ReadByte(b);
    if d.None? then None else ReadBody(d.value.value, d.value.rest)
  }

  function ReadActions(n: nat, b: seq<Byte>): Option<Parsed<seq<Action>>> {
    if n == 0 then Some(Parsed([], b))
    else
      var x := ReadAction(b);
      if x.None? then None
      else
        var xs := ReadActions(n - 1, x.value.rest);
        if xs.None? then None else Some(Parsed([x.value.value] + xs.value.value, xs.value.rest))
  }

  function ReadTx(b: seq<Byte>): Option<Parsed<Tx>> {
    var signer := ReadBytes(b);
    if signer.None? then None else
    var key := ReadKey(signer.value.rest);
    if key.None? then None else
    var nonce := ParseNum(8, key.value.rest);
    if nonce.None? then None else
    var receiver := ReadBytes(nonce.value.rest);
    if receiver.None? then None else
    var hash := Take(32, receiver.value.rest);
    if hash.None? then None else
    var n := ParseNum(4, hash.value.rest);
    if n.None? then None else
    var actions := ReadActions(n.value.value, n.value.rest);
    if actions.None? then None
    else
      var tx := Tx(signer.value.value, key.value.value.key, nonce.value.value, receiver.value.value,
                   hash.value.value, actions.value.value);
      Some(Parsed(tx, actions.value.rest))
  }

  // ---------------------------------------------------------------------------
  // Parts
  // ---------------------------------------------------------------------------

  lemma ByteBack(x: Byte, rest: seq<Byte>)
    ensures ReadByte([x] + rest) == Some(Parsed(x, rest))
  {
    assert ([x] + rest)[1..] == rest;
  }

  lemma NumBack(v: nat, width: nat, rest: seq<Byte>)
    requires Fits(v, width)
    ensures ParseNum(width, LeBytes(v, width) + rest) == Some(Parsed(v, rest))
  {
    hide LeBytes, Pow, ParseNum;
    NumRoundTrip(v, width, rest);
  }

  lemma BytesBack(s: seq<Byte>, rest: seq<Byte>)
    requires ShortEnough(s)
    ensures ReadBytes(WriteBytes(s) + rest) == Some(Parsed(s, rest))
  {
    hide LeBytes, ParseNum, Take, Fits;
    Assoc(LeBytes(|s|, 4), s, rest);
    NumBack(|s|, 4, s + rest);
    TakeFront(s, rest);
  }

  /** A string is read back exactly when its length survives the cast to u32. */
  lemma StringReadable(s: seq<Byte>, rest: seq<Byte>)
    ensures ReadBytes(WriteBytes(s) + rest) == Some(Parsed(s, rest)) <==> |s| < 0x1_0000_0000
  {
    FourBytes();
    if |s| < 0x1_0000_0000 {
      BytesBack(s, rest);
    } else {
      LeRoundTrip(|s|, 4);
      Assoc(LeBytes(|s|, 4), s, rest);
      TakeFront(LeBytes(|s|, 4), s + rest);
      assert |s| % Pow(256, 4) < |s|;
    }
  }

  lemma KeyBack(k: PublicKey, rest: seq<Byte>)
    requires KeyOk(k)
    ensures ReadKey(WriteKey(k) + rest) == Some(Parsed(k, rest))
  {
    hide ReadByte, Take;
    var tag: Byte := if k.Ed25519? then 0 else 1;
    Assoc([tag], k.key, rest);
    ByteBack(tag, k.key + rest);
    TakeFront(k.key, rest);
  }

  lemma AllowanceBack(a: Option<nat>, rest: seq<Byte>)
    requires a.Some? ==> Fits(a.value, 16)
    ensures ReadAllowance(WriteAllowance(a) + rest) == Some(Parsed(a, rest))
  {
    hide ReadByte, ParseNum, LeBytes, Fits;
    if a.None? {
      ByteBack(0, rest);
    } else {
      Assoc([1], LeBytes(a.value, 16), rest);
      ByteBack(1, LeBytes(a.value, 16) + rest);
      NumBack(a.value, 16, rest);
    }
  }

  lemma {:induction false} NamesBack(names: seq<seq<Byte>>, rest: seq<Byte>)
    requires forall i :: 0 <= i < |names| ==> ShortEnough(names[i])
    ensures ReadNames(|names|, WriteNames(names) + rest) == Some(Parsed(names, rest))
  {
    hide ReadBytes, WriteBytes, ShortEnough;
    if names == [] {
      assert [] + rest == rest;
    } else {
      Assoc(WriteBytes(names[0]), WriteNames(names[1..]), rest);
      BytesBack(names[0], WriteNames(names[1..]) + rest);
      NamesBack(names[1..], rest);
      assert names == [names[0]] + names[1..];
    }
  }

  lemma FunctionCallBack(name: seq<Byte>, args: seq<Byte>, gas: nat, deposit: nat, rest: seq<Byte>)
    requires ShortEnough(name) && ShortEnough(args) && Fits(gas, 8) && Fits(deposit, 16)
    ensures ReadFunctionCall(WriteBytes(name) + (WriteBytes(args) + (LeBytes(gas, 8) + LeBytes(deposit, 16))) + rest)
            == Some(Parsed(FunctionCall(name, args, gas, deposit), rest))
  {
    hide ReadBytes, WriteBytes, ShortEnough, LeBytes, ParseNum, Fits;
    var g, d := LeBytes(gas, 8), LeBytes(deposit, 16);
    Assoc(WriteBytes(name), WriteBytes(args) + (g + d), rest);
    Assoc(WriteBytes(args), g + d, rest);
    Assoc(g, d, rest);
    BytesBack(name, WriteBytes(args) + (g + (d + rest)));
    BytesBack(args, g + (d + rest));
    NumBack(gas, 8, d + rest);
    NumBack(deposit, 16, rest);
  }

  lemma ZeroFits()
    ensures Fits(0, 8)
  {
  }

  lemma FullAccessBack(k: PublicKey, rest: seq<Byte>)
    requires KeyOk(k)
    ensures ReadAddKey(WriteKey(k) + (LeBytes(0, 8) + [1]) + rest) == Some(Parsed(AddFullAccessKey(k), rest))
  {
    hide ReadKey, WriteKey, ReadByte, LeBytes, ParseNum, Fits;
    var z := LeBytes(0, 8);
    Assoc(WriteKey(k), z + [1], rest);
    Assoc(z, [1], rest);
    KeyBack(k, z + ([1] + rest));
    ZeroFits();
    NumBack(0, 8, [1] + rest);
    ByteBack(1, rest);
  }

  lemma PermissionBack(k: PublicKey, allowance: Option<nat>, receiver: seq<Byte>, names: seq<seq<Byte>>,
                       rest: seq<Byte>)
    requires ActionOk(AddFunctionCallKey(k, allowance, receiver, names))
    ensures ReadPermission(k, [0] + (WriteAllowance(allowance)
            + (WriteBytes(receiver) + (LeBytes(|names|, 4) + (WriteNames(names) + rest)))))
            == Some(Parsed(AddFunctionCallKey(k, allowance, receiver, names), rest))
  {
    hide ReadByte, ReadAllowance, WriteAllowance, ReadBytes, WriteBytes, ShortEnough, LeBytes, ParseNum, Fits,
        ReadNames, WriteNames, KeyOk;
    var r1 := WriteNames(names) + rest;
    var r2 := LeBytes(|names|, 4) + r1;
    var r3 := WriteBytes(receiver) + r2;
    ByteBack(0, WriteAllowance(allowance) + r3);
    AllowanceBack(allowance, r3);
    BytesBack(receiver, r2);
    NumBack(|names|, 4, r1);
    NamesBack(names, rest);
  }

  lemma FunctionCallKeyBack(k: PublicKey, allowance: Option<nat>, receiver: seq<Byte>, names: seq<seq<Byte>>,
                            rest: seq<Byte>)
    requires ActionOk(AddFunctionCallKey(k, allowance, receiver, names))
    ensures ReadAddKey(WriteBody(AddFunctionCallKey(k, allowance, receiver, names)) + rest)
            == Some(Parsed(AddFunctionCallKey(k, allowance, receiver, names), rest))
  {
    hide ReadKey, WriteKey, ReadPermission, WriteAllowance, WriteBytes, WriteNames, ShortEnough, LeBytes, ParseNum,
        Fits;
    var z, w, v, n, m := LeBytes(0, 8), WriteAllowance(allowance), WriteBytes(receiver), LeBytes(|names|, 4),
        WriteNames(names);
    Assoc(WriteKey(k), z + ([0] + (w + (v + (n + m)))), rest);
    Assoc(z, [0] + (w + (v + (n + m))), rest);
    Assoc([0], w + (v + (n + m)), rest);
    Assoc(w, v + (n + m), rest);
    Assoc(v, n + m, rest);
    Assoc(n, m, rest);
    KeyBack(k, z + ([0] + (w + (v + (n + (m + rest))))));
    ZeroFits();
    NumBack(0, 8, [0] + (w + (v + (n + (m + rest)))));
    PermissionBack(k, allowance, receiver, names, rest);
  }

  // ---------------------------------------------------------------------------
  // Actions and transactions
  // ---------------------------------------------------------------------------

  lemma KeyAmountBack(k: PublicKey, n: nat, rest: seq<Byte>)
    requires KeyOk(k) && Fits(n, 16)
    ensures ReadKeyAmount(WriteKey(k) + LeBytes(n, 16) + rest) == Some(Parsed((k, n), rest))
  {
    hide ReadKey, WriteKey, LeBytes, ParseNum, Fits, KeyOk;
    Assoc(WriteKey(k), LeBytes(n, 16), rest);
    KeyBack(k, LeBytes(n, 16) + rest);
    NumBack(n, 16, rest);
  }

  lemma StakeBack(n: nat, k: PublicKey, rest: seq<Byte>)
    requires KeyOk(k) && Fits(n, 16)
    ensures ReadStake(LeBytes(n, 16) + WriteKey(k) + rest) == Some(Parsed(Stake(n, k), rest))
  {
    hide ReadKey, WriteKey, LeBytes, ParseNum, Fits, KeyOk;
    Assoc(LeBytes(n, 16), WriteKey(k), rest);
    NumBack(n, 16, WriteKey(k) + rest);
    KeyBack(k, rest);
  }

  lemma DelegateBack(x: seq<Byte>, y: seq<Byte>, rest: seq<Byte>)
    requires ShortEnough(x) && ShortEnough(y)
    ensures ReadDelegate(WriteBytes(x) + WriteBytes(y) + rest) == Some(Parsed(Delegate(x, y), rest))
  {
    hide ReadBytes, WriteBytes, ShortEnough;
    Assoc(WriteBytes(x), WriteBytes(y), rest);
    BytesBack(x, WriteBytes(y) + rest);
    BytesBack(y, rest);
  }

  lemma GlobalBack(tag: Byte, x: seq<Byte>, rest: seq<Byte>)
    requires tag <= 1
    ensures ShortEnough(x) && tag == 0 ==>
              ReadDeployGlobal([tag] + WriteBytes(x) + rest) == Some(Parsed(DeployGlobalContract(x), rest))
    ensures |x| == 32 && tag == 1 ==>
              ReadDeployGlobal([tag] + x + rest) == Some(Parsed(DeployGlobalContractByHash(x), rest))
    ensures |x| == 32 && tag == 0 ==> ReadUseGlobal([tag] + x + rest) == Some(Parsed(UseGlobalContractByHash(x), rest))
    ensures ShortEnough(x) && tag == 1 ==>
              ReadUseGlobal([tag] + WriteBytes(x) + rest) == Some(Parsed(UseGlobalContractByAccount(x), rest))
  {
    hide ReadBytes, WriteBytes, ShortEnough, ReadByte, Take;
    Assoc([tag], WriteBytes(x), rest);
    Assoc([tag], x, rest);
    ByteBack(tag, WriteBytes(x) + rest);
    ByteBack(tag, x + rest);
    TakeFront(x, rest);
    if ShortEnough(x) {
      BytesBack(x, rest);
    }
  }

  lemma BodyBack(a: Action, rest: seq<Byte>)
    requires ActionOk(a)
    ensures ReadBody(Discriminant(a), WriteBody(a) + rest) == Some(Parsed(a, rest))
  {
    hide ReadBytes, WriteBytes, ShortEnough, ReadByte, ReadKey, WriteKey, KeyOk, ParseNum, LeBytes, Fits, Take,
        ReadFunctionCall, ReadStake, ReadAddKey,
         ReadDelegate, ReadDeployGlobal, ReadUseGlobal, ReadKeyAmount, WriteNames, WriteAllowance;
    match a
    case CreateAccount => assert [] + rest == rest;
    case DeployContract(code) => BytesBack(code, rest);
    case FunctionCall(name, args, gas, deposit) => FunctionCallBack(name, args, gas, deposit, rest);
    case Transfer(deposit) => NumBack(deposit, 16, rest);
    case Stake(amount, k) => StakeBack(amount, k, rest);
    case AddFullAccessKey(k) => FullAccessBack(k, rest);
    case AddFunctionCallKey(k, allowance, receiver, names) => FunctionCallKeyBack(k, allowance, receiver, names, rest);
    case DeleteKey(k) => KeyBack(k, rest);
    case DeleteAccount(beneficiary) => BytesBack(beneficiary, rest);
    case Delegate(x, y) => DelegateBack(x, y, rest);
    case DeployGlobalContract(code) => GlobalBack(0, code, rest);
    case DeployGlobalContractByHash(hash) => GlobalBack(1, hash, rest);
    case UseGlobalContractByHash(hash) => GlobalBack(0, hash, rest);
    case UseGlobalContractByAccount(account) => GlobalBack(1, account, rest);
    case DeterministicStateInit => assert [] + rest == rest;
    case TransferToGasKey(k, n) => KeyAmountBack(k, n, rest);
    case WithdrawFromGasKey(k, n) => KeyAmountBack(k, n, rest);
  }

  lemma ActionBack(a: Action, rest: seq<Byte>)
    requires ActionOk(a)
    ensures ReadAction(WriteAction(a) + rest) == Some(Parsed(a, rest))
  {
    hide ReadByte, ReadBody, WriteBody, Discriminant, ActionOk;
    Assoc([Discriminant(a)], WriteBody(a), rest);
    ByteBack(Discriminant(a), WriteBody(a) + rest);
    BodyBack(a, rest);
  }

  lemma {:induction false} ActionsBack(actions: seq<Action>, rest: seq<Byte>)
    requires forall i :: 0 <= i < |actions| ==> ActionOk(actions[i])
    ensures ReadActions(|actions|, WriteActions(actions) + rest) == Some(Parsed(actions, rest))
  {
    hide ReadAction, WriteAction, ActionOk;
    if actions == [] {
      assert [] + rest == rest;
    } else {
      Assoc(WriteAction(actions[0]), WriteActions(actions[1..]), rest);
      ActionBack(actions[0], WriteActions(actions[1..]) + rest);
      ActionsBack(actions[1..], rest);
      assert actions == [actions[0]] + actions[1..];
    }
  }

  /** Signer, key, nonce, receiver, block hash and every action are recovered, and nothing that follows is touched. */
  lemma TxBack(tx: Tx, rest: seq<Byte>)
    requires TxOk(tx)
    ensures ReadTx(WriteTx(tx) + rest) == Some(Parsed(tx, rest))
  {
    hide ReadBytes, WriteBytes, ShortEnough, ReadKey, WriteKey, ParseNum, LeBytes, Fits, Take, ReadActions,
        WriteActions, ActionOk;
    var s, k, n, r, h := WriteBytes(tx.signer), WriteKey(Secp256k1(tx.publicKey)), LeBytes(tx.nonce, 8),
        WriteBytes(tx.receiver), tx.blockHash;
    var m, a := LeBytes(|tx.actions|, 4), WriteActions(tx.actions);
    Assoc(s, k + (n + (r + (h + (m + a)))), rest);
    Assoc(k, n + (r + (h + (m + a))), rest);
    Assoc(n, r + (h + (m + a)), rest);
    Assoc(r, h + (m + a), rest);
    Assoc(h, m + a, rest);
    Assoc(m, a, rest);
    BytesBack(tx.signer, k + (n + (r + (h + (m + (a + rest))))));
    KeyBack(Secp256k1(tx.publicKey), n + (r + (h + (m + (a + rest)))));
    NumBack(tx.nonce, 8, r + (h + (m + (a + rest))));
    BytesBack(tx.receiver, h + (m + (a + rest)));
    TakeFront(tx.blockHash, m + (a + rest));
    NumBack(|tx.actions|, 4, a + rest);
    ActionsBack(tx.actions, rest);
  }

  /** No two transactions share their bytes, and none is a proper beginning of another. */
  lemma UniquelyDecodable(t: Tx, u: Tx, more: seq<Byte>)
    requires TxOk(t) && TxOk(u) && WriteTx(t) + more == WriteTx(u)
    ensures t == u && more == []
  {
    hide WriteTx, TxOk, ReadTx;
    TxBack(t, more);
    TxBack(u, []);
    assert WriteTx(u) + [] == WriteTx(u);
  }

  lemma LengthWraps()
    ensures LeBytes(0x1_0000_0000, 4) == LeBytes(0, 4)
  {
    hide LeBytes, LeValue, Pow;
    FourBytes();
    var b := LeBytes(0x1_0000_0000, 4);
    LeRoundTrip(0x1_0000_0000, 4);
    assert 0x1_0000_0000 % 0x1_0000_0000 == 0;
    assert LeValue(b) == 0;
    LeBytesOfValue(b);
  }

  lemma TwoActions(a: Action, b: Action)
    ensures WriteActions([a, b]) == WriteAction(a) + WriteAction(b)
  {
    hide WriteAction;
    assert [b][1..] == [];
    assert WriteActions([b]) == WriteAction(b) + [];
    assert WriteAction(b) + [] == WriteAction(b);
    assert [a, b][1..] == [b];
  }

  lemma CollidingActions(c: seq<Byte>, d: seq<Byte>)
    requires |c| == 0x1_0000_0000 && WriteAction(DeployContract(d)) == c + [0]
    ensures WriteActions([DeployContract(c), CreateAccount]) == WriteActions([DeployContract([]), DeployContract(d)])
  {
    hide LeBytes, WriteActions;
    LengthWraps();
    TwoActions(DeployContract(c), CreateAccount);
    TwoActions(DeployContract([]), DeployContract(d));
    var n := LeBytes(0, 4);
    assert WriteAction(DeployContract(c)) == ([1] + n) + c;
    assert WriteAction(DeployContract([])) == [1] + n;
    assert WriteAction(CreateAccount) == [0];
    Assoc([1] + n, c, [0]);
  }

  /** Code of exactly 2^32 bytes: two different transactions with the same bytes, whatever reads them. */
  lemma LengthCollision(tx: Tx, d: seq<Byte>)
    requires |d| == 0xFFFF_FFFC && d[|d| - 1] == 0
    ensures var w := WriteAction(DeployContract(d));
            var c := w[..|w| - 1];
            && |c| == 0x1_0000_0000
            && WriteTx(tx.(actions := [DeployContract(c), CreateAccount]))
               == WriteTx(tx.(actions := [DeployContract([]), DeployContract(d)]))
  {
    hide LeBytes, WriteActions, WriteTx;
    var w := WriteAction(DeployContract(d));
    var c := w[..|w| - 1];
    assert |w| == 0x1_0000_0001 && w[|w| - 1] == 0;
    assert w == c + [0];
    CollidingActions(c, d);
    SameActionBytes(tx, [DeployContract(c), CreateAccount], [DeployContract([]), DeployContract(d)]);
  }

  lemma SameActionBytes(tx: Tx, a: seq<Action>, b: seq<Action>)
    requires |a| == |b| && WriteActions(a) == WriteActions(b)
    ensures WriteTx(tx.(actions := a)) == WriteTx(tx.(actions := b))
  {
  }
}
