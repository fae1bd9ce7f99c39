/**
 * The bytes that the light client hashes for a list of block producers. Account ids and keys are
 * bytes, the key decoded. The source writes the number 5 where the length of the account id belongs.
 */
module ProducerList {
  import opened Options
  import opened Radix
  import opened Bytes

  /** `version` is the number behind the V, less one, where the producer has one. */
  datatype Producer = Producer(accountId: seq<Byte>, publicKey: seq<Byte>, stake: nat, version: Option<int>)

  type Hasher = seq<Producer> -> Option<string>

  const FIVE: seq<Byte> := [5, 0, 0, 0]

  /** A byte array takes numbers below 256 only. */
  function OneByte(n: int): Option<seq<Byte>> {
    if 0 <= n < 256 then Some([n]) else None
  }

  function VersionBytes(version: Option<int>): Option<seq<Byte>> {
    if version.Some? then OneByte(version.value) else Some([])
  }

  /** Everything behind the length of the account id. */
  function BodyBytes(p: Producer): seq<Byte> {
    p.accountId + ([0] + (p.publicKey + LeBytes(p.stake, 16)))
  }

  function ProducerBytes(p: Producer): Option<seq<Byte>> {
    Join(VersionBytes(p.version), Some(FIVE + BodyBytes(p)))
  }

  function EachBytes(ps: seq<Producer>): Option<seq<Byte>> {
    if ps == [] then Some([]) else Join(ProducerBytes(ps[0]), EachBytes(ps[1..]))
  }

  function ListBytes(ps: seq<Producer>): Option<seq<Byte>> {
    Join(Join(OneByte(|ps|), Some([0, 0, 0])), EachBytes(ps))
  }

  function HashOf(sha256: seq<Byte> -> string): Hasher {
    (ps: seq<Producer>) => if ListBytes(ps).Some? then Some(sha256(ListBytes(ps).value)) else None
  }

  // ---------------------------------------------------------------------------
  // The loops
  // ---------------------------------------------------------------------------

  method SerializeProducers(ps: seq<Producer>) returns (r: Option<seq<Byte>>)
    ensures r == ListBytes(ps)
  {
    hide ProducerBytes;
    if |ps| >= 256 {
      return None;
    }
    var out: seq<Byte> := [|ps|];
    out := out + [0, 0, 0];
    assert ps[0..] == ps;
    for i := 0 to |ps|
      invariant ListBytes(ps) == Join(Some(out), EachBytes(ps[i..]))
    {
      assert ps[i..][1..] == ps[i + 1..];
      JoinAssociates(out, ProducerBytes(ps[i]), EachBytes(ps[i + 1..]));
      var bytes := SerializeProducer(ps[i]);
      if bytes.None? {
        return None;
      }
      out := out + bytes.value;
    }
    assert out + [] == out;
    r := Some(out);
  }

  method SerializeProducer(p: Producer) returns (r: Option<seq<Byte>>)
    ensures r == ProducerBytes(p)
  {
    var out: seq<Byte> := [];
    if p.version.Some? {
      if p.version.value < 0 || p.version.value >= 256 {
        return None;
      }
      out := [p.version.value];
    }
    var body := p.accountId;
    body := body + [0];
    body := body + p.publicKey;
    var stake := StakeBytes(p.stake);
    body := body + stake;
    assert body == BodyBytes(p);
    r := Some(out + (FIVE + body));
  }

  method StakeBytes(stake: nat) returns (out: seq<Byte>)
    ensures out == LeBytes(stake, 16)
  {
    out := [];
    var left := stake;
    for i := 0 to 16
      invariant LeBytes(stake, 16) == out + LeBytes(left, 16 - i)
    {
      assert LeBytes(left, 16 - i) == [left % 256] + LeBytes(left / 256, 16 - i - 1);
      Assoc(out, [left % 256], LeBytes(left / 256, 16 - i - 1));
      out := out + [left % 256];
      left := left / 256;
    }
    assert out + [] == out;
  }

  // ---------------------------------------------------------------------------
  // Injectivity
  // ---------------------------------------------------------------------------

  /** What account ids, ed25519 keys and stakes are: no zero byte, 32 bytes, sixteen bytes. */
  ghost predicate Sane(p: Producer) {
    0 !in p.accountId && |p.publicKey| == 32 && p.stake < Pow(256, 16)
  }

  ghost predicate AllSane(ps: seq<Producer>) {
    forall i :: 0 <= i < |ps| ==> Sane(ps[i])
  }

  lemma Tails(a: seq<Byte>, x: seq<Byte>, b: seq<Byte>, y: seq<Byte>)
    requires |a| == |b| && a + x == b + y
    ensures a == b && x == y
  {
    assert (a + x)[..|a|] == a && (b + y)[..|b|] == b;
    assert (a + x)[|a|..] == x && (b + y)[|b|..] == y;
  }

  /** The first zero byte ends an account id, so its missing length does no harm. */
  lemma ZeroEnds(a: seq<Byte>, x: seq<Byte>, b: seq<Byte>, y: seq<Byte>)
    requires 0 !in a && 0 !in b && a + ([0] + x) == b + ([0] + y)
    ensures a == b && x == y
  {
    var s, t := a + ([0] + x), b + ([0] + y);
    assert s[|a|] == 0 && t[|b|] == 0;
    assert |a| == |b|;
    Tails(a, [0] + x, b, [0] + y);
    Tails([0], x, [0], y);
  }

  lemma BodyInjective(p: Producer, q: Producer, x: seq<Byte>, y: seq<Byte>)
    requires Sane(p) && Sane(q) && BodyBytes(p) + x == BodyBytes(q) + y
    ensures p.accountId == q.accountId && p.publicKey == q.publicKey && p.stake == q.stake && x == y
  {
    hide LeBytes, LeValue, Pow;
    var s, t := LeBytes(p.stake, 16), LeBytes(q.stake, 16);
    assert BodyBytes(p) + x == p.accountId + ([0] + (p.publicKey + (s + x)));
    assert BodyBytes(q) + y == q.accountId + ([0] + (q.publicKey + (t + y)));
    ZeroEnds(p.accountId, p.publicKey + (s + x), q.accountId, q.publicKey + (t + y));
    Tails(p.publicKey, s + x, q.publicKey, t + y);
    Tails(s, x, t, y);
    LeRoundTrip(p.stake, 16);
    LeRoundTrip(q.stake, 16);
    Small(p.stake, Pow(256, 16));
    Small(q.stake, Pow(256, 16));
  }

  lemma Small(v: nat, m: nat)
    requires v < m
    ensures v % m == v
  {
  }

  /** With or without a version byte, the start of a producer is never ambiguous. */
  lemma VersionInjective(v: Option<int>, w: Option<int>, x: seq<Byte>, y: seq<Byte>)
    requires VersionBytes(v).Some? && VersionBytes(w).Some?
    requires VersionBytes(v).value + (FIVE + x) == VersionBytes(w).value + (FIVE + y)
    ensures v == w && x == y
  {
    var a, b := VersionBytes(v).value, VersionBytes(w).value;
    var s, t := a + (FIVE + x), b + (FIVE + y);
    assert s[|a|] == 5 && s[|a| + 1] == 0 && t[|b|] == 5 && t[|b| + 1] == 0;
    assert |a| == |b|;
    Tails(a, FIVE + x, b, FIVE + y);
    Tails(FIVE, x, FIVE, y);
    assert v.Some? ==> a[0] == v.value && b[0] == w.value;
  }

  lemma ProducerInjective(p: Producer, q: Producer, x: seq<Byte>, y: seq<Byte>)
    requires Sane(p) && Sane(q) && ProducerBytes(p).Some? && ProducerBytes(q).Some?
    requires ProducerBytes(p).value + x == ProducerBytes(q).value + y
    ensures p == q && x == y
  {
    hide BodyBytes, VersionBytes, Sane;
    var a, b := VersionBytes(p.version).value, VersionBytes(q.version).value;
    assert ProducerBytes(p).value + x == a + (FIVE + (BodyBytes(p) + x));
    assert ProducerBytes(q).value + y == b + (FIVE + (BodyBytes(q) + y));
    VersionInjective(p.version, q.version, BodyBytes(p) + x, BodyBytes(q) + y);
    BodyInjective(p, q, x, y);
  }

  lemma {:induction false} EachInjective(ps: seq<Producer>, qs: seq<Producer>)
    requires |ps| == |qs| && AllSane(ps) && AllSane(qs)
    requires EachBytes(ps).Some? && EachBytes(ps) == EachBytes(qs)
    ensures ps == qs
  {
    hide ProducerBytes, Sane;
    if ps != [] {
      ProducerInjective(ps[0], qs[0], EachBytes(ps[1..]).value, EachBytes(qs[1..]).value);
      EachInjective(ps[1..], qs[1..]);
      assert ps == [ps[0]] + ps[1..] && qs == [qs[0]] + qs[1..];
    }
  }

  /** Different lists of producers are never serialized alike. */
  lemma ListInjective(ps: seq<Producer>, qs: seq<Producer>)
    requires AllSane(ps) && AllSane(qs) && ListBytes(ps).Some? && ListBytes(ps) == ListBytes(qs)
    ensures ps == qs
  {
    hide EachBytes, AllSane;
    var a: seq<Byte>, b: seq<Byte> := [|ps|] + [0, 0, 0], [|qs|] + [0, 0, 0];
    Tails(a, EachBytes(ps).value, b, EachBytes(qs).value);
    assert a[0] == |ps| && b[0] == |qs|;
    EachInjective(ps, qs);
  }

  /** A list that hands over by its hash is the only one, as far as SHA-256 has no collision on them. */
  lemma HashDetermines(ps: seq<Producer>, qs: seq<Producer>, sha256: seq<Byte> -> string)
    requires AllSane(ps) && AllSane(qs)
    requires HashOf(sha256)(ps).Some? && HashOf(sha256)(ps) == HashOf(sha256)(qs)
    requires sha256(ListBytes(ps).value) == sha256(ListBytes(qs).value) ==> ListBytes(ps) == ListBytes(qs)
    ensures ps == qs
  {
    hide AllSane, ListBytes;
    ListInjective(ps, qs);
  }

  // ---------------------------------------------------------------------------
  // The hard-coded length
  // ---------------------------------------------------------------------------

  /** Borsh writes the length of the account id. */
  function BorshProducer(p: Producer): Option<seq<Byte>> {
    Join(VersionBytes(p.version), Some(LeBytes(|p.accountId|, 4) + BodyBytes(p)))
  }

  function BorshEach(ps: seq<Producer>): Option<seq<Byte>> {
    if ps == [] then Some([]) else Join(BorshProducer(ps[0]), BorshEach(ps[1..]))
  }

  lemma LengthBytes(n: nat)
    requires n <= 64
    ensures LeBytes(n, 4) == FIVE <==> n == 5
  {
    assert LeBytes(n, 4) == [n % 256] + LeBytes(n / 256, 3);
    assert n % 256 == n && n / 256 == 0;
    assert LeBytes(0, 3) == [0] + LeBytes(0, 2) && LeBytes(0, 2) == [0] + LeBytes(0, 1)
        && LeBytes(0, 1) == [0] + LeBytes(0, 0);
    assert LeBytes(n, 4) == [n, 0, 0, 0];
  }

  lemma ProducerIsBorsh(p: Producer)
    requires ProducerBytes(p).Some? && |p.accountId| <= 64
    ensures BorshProducer(p).Some? && |BorshProducer(p).value| == |ProducerBytes(p).value|
    ensures BorshProducer(p) == ProducerBytes(p) <==> |p.accountId| == 5
  {
    hide BodyBytes, VersionBytes, LeBytes;
    var v, n := VersionBytes(p.version).value, LeBytes(|p.accountId|, 4);
    LengthBytes(|p.accountId|);
    if BorshProducer(p) == ProducerBytes(p) {
      Tails(v, n + BodyBytes(p), v, FIVE + BodyBytes(p));
      Tails(n, BodyBytes(p), FIVE, BodyBytes(p));
    }
  }

  /** The list is serialized as Borsh would exactly if every account id has five bytes. */
  lemma {:induction false} BorshIffFive(ps: seq<Producer>)
    requires EachBytes(ps).Some? && forall i :: 0 <= i < |ps| ==> |ps[i].accountId| <= 64
    ensures BorshEach(ps).Some? && |BorshEach(ps).value| == |EachBytes(ps).value|
    ensures BorshEach(ps) == EachBytes(ps) <==> forall i :: 0 <= i < |ps| ==> |ps[i].accountId| == 5
  {
    hide ProducerBytes, BorshProducer;
    if ps != [] {
      var rest := ps[1..];
      ProducerIsBorsh(ps[0]);
      BorshIffFive(rest);
      var a, b := BorshProducer(ps[0]).value, ProducerBytes(ps[0]).value;
      if BorshEach(ps) == EachBytes(ps) {
        Tails(a, BorshEach(rest).value, b, EachBytes(rest).value);
        forall i | 0 <= i < |ps|
          ensures |ps[i].accountId| == 5
        {
          assert i > 0 ==> rest[i - 1] == ps[i];
        }
      }
    }
  }
}
