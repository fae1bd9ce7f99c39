/**
 * The library's own schema for block producers, against the bytes the light client puts together by
 * hand for their hash.
 */
module StakeSchema {
  import opened Options
  import opened Bytes
  import opened Radix
  import opened BorshSchema
  import opened BorshLayout
  import opened NearTx
  import opened TxSchema
  import opened ProducerList

  /** The schema's second version of a producer has no entry of its own. */
  const VERSIONS: seq<(string, FieldType)> := [("V1", TClass("ValidatorStakeV1")), ("V2", TClass("ValidatorStakeV2"))]

  ghost predicate StakesIn(c: Codec) {
    && Enum(c, "ValidatorStake", VERSIONS)
    && Struct(c, "ValidatorStakeV1", [TString, TClass("PublicKey"), TUint(16)])
    && Struct(c, "PublicKey", [TUint(1), TFixed(32)])
  }

  function StakeFields(p: Producer): Value {
    VStruct("ValidatorStakeV1", [VStr(p.accountId), KeyValue(Ed25519(p.publicKey)), VInt(p.stake)])
  }

  function StakeValue(p: Producer): Value {
    VEnum("ValidatorStake", VERSIONS[0].0, StakeFields(p))
  }

  function StakeValues(ps: seq<Producer>): (r: seq<Value>)
    ensures |r| == |ps|
  {
    seq(|ps|, i requires 0 <= i < |ps| => StakeValue(ps[i]))
  }

  /** A producer of version V1 with an account id, a key and a stake as they are on the chain. */
  ghost predicate OnChain(c: Codec, p: Producer) {
    Sane(p) && p.version == Some(0) && c.utf8(p.accountId) && |p.accountId| <= 64
  }

  lemma FieldsAre(c: Codec, p: Producer)
    requires StakesIn(c) && OnChain(c, p)
    ensures Ser(c, StakeFields(p), TClass("ValidatorStakeV1")) == Some(LeBytes(|p.accountId|, 4) + BodyBytes(p))
  {
    hide Ser, LeBytes, Concat, Pow;
    TextIs(c, p.accountId);
    KeyIs(c, Ed25519(p.publicKey), 32);
    NumIs(c, p.stake, 16);
    var x, y, z := WriteBytes(p.accountId), WriteKey(Ed25519(p.publicKey)), LeBytes(p.stake, 16);
    StructLayout(c, "ValidatorStakeV1", [VStr(p.accountId), KeyValue(Ed25519(p.publicKey)), VInt(p.stake)], [x, y, z]);
    Concats(x, y, z, z);
    Regroup(LeBytes(|p.accountId|, 4), p.accountId, [0], p.publicKey, z);
  }

  lemma Regroup(n: seq<Byte>, id: seq<Byte>, tag: seq<Byte>, key: seq<Byte>, z: seq<Byte>)
    ensures (n + id) + ((tag + key) + z) == n + (id + (tag + (key + z)))
  {
    Assoc(tag, key, z);
    Assoc(n, id, tag + (key + z));
  }

  lemma StakeIs(c: Codec, p: Producer)
    requires StakesIn(c) && OnChain(c, p)
    ensures Ser(c, StakeValue(p), TClass("ValidatorStake")) == BorshProducer(p)
  {
    hide Ser, LeBytes, BodyBytes;
    FieldsAre(c, p);
    EnumLayout(c, "ValidatorStake", 0, StakeFields(p));
  }

  lemma {:induction false} BorshIsConcat(ps: seq<Producer>, parts: seq<seq<Byte>>)
    requires |parts| == |ps| && forall i :: 0 <= i < |ps| ==> BorshProducer(ps[i]) == Some(parts[i])
    ensures BorshEach(ps) == Some(Concat(parts))
  {
    hide BorshProducer;
    if ps != [] {
      BorshIsConcat(ps[1..], parts[1..]);
    }
  }

  lemma ListIs(c: Codec, ps: seq<Producer>)
    requires StakesIn(c) && |ps| < 256 && forall i :: 0 <= i < |ps| ==> OnChain(c, ps[i])
    ensures BorshEach(ps).Some?
    ensures Ser(c, VList(StakeValues(ps)), TArray(TClass("ValidatorStake")))
            == Some(LeBytes(|ps|, 4) + BorshEach(ps).value)
  {
    hide Ser, LeBytes, Concat, BorshEach, BodyBytes, StakesIn, Sane;
    var vs, ts := StakeValues(ps), seq(|ps|, _ => TClass("ValidatorStake"));
    var parts := seq(|ps|, i requires 0 <= i < |ps| => [0] + (LeBytes(|ps[i].accountId|, 4) + BodyBytes(ps[i])));
    forall i | 0 <= i < |ps|
      ensures Ser(c, vs[i], ts[i]) == Some(parts[i]) == BorshProducer(ps[i])
    {
      StakeIs(c, ps[i]);
    }
    assert Parts(c, vs, ts, parts);
    ListLayout(c, vs, TClass("ValidatorStake"));
    BorshIsConcat(ps, parts);
  }

  /** The light client hashes what the schema would write exactly if every account id has five bytes. */
  lemma HashedIffFive(c: Codec, ps: seq<Producer>)
    requires StakesIn(c) && |ps| < 256 && forall i :: 0 <= i < |ps| ==> OnChain(c, ps[i])
    ensures ListBytes(ps) == Ser(c, VList(StakeValues(ps)), TArray(TClass("ValidatorStake")))
            <==> forall i :: 0 <= i < |ps| ==> |ps[i].accountId| == 5
  {
    hide Ser, LeBytes, BorshEach, EachBytes, StakeValues, ProducerBytes;
    ListIs(c, ps);
    EachWritten(c, ps);
    BorshIffFive(ps);
    SmallNumber(|ps|, 4);
    var n: seq<Byte> := [|ps|] + [0, 0, 0];
    assert LeBytes(|ps|, 4) == n;
    if ListBytes(ps) == Ser(c, VList(StakeValues(ps)), TArray(TClass("ValidatorStake"))) {
      Tails(n, EachBytes(ps).value, n, BorshEach(ps).value);
    }
  }

  lemma {:induction false} EachWritten(c: Codec, ps: seq<Producer>)
    requires forall i :: 0 <= i < |ps| ==> OnChain(c, ps[i])
    ensures EachBytes(ps).Some?
  {
    hide BodyBytes, Sane;
    if ps != [] {
      EachWritten(c, ps[1..]);
      assert OnChain(c, ps[0]);
    }
  }
}
