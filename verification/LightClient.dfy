/**
 * The light client's block check. Signatures and SHA-256 are parameters; the hash of a producer list
 * is absent where the source cannot serialize the list.
 */
module LightClient {
  import opened Options
  import opened Bytes
  import opened ProducerList

  datatype Header = Header(height: nat, epochId: string, nextEpochId: string, nextBpHash: string)

  datatype Block = Block(header: Header, approvals: seq<Option<string>>, nextBps: Option<seq<Producer>>)

  /** `Raised` is a Python exception. The source returns None for `Valid` and False for `Invalid`. */
  datatype Verdict = Valid | Invalid | Raised

  type Verifier = (Producer, Block, string) -> bool

  // ---------------------------------------------------------------------------
  // Stake
  // ---------------------------------------------------------------------------

  function Weight(ps: seq<Producer>, chosen: set<nat>): nat {
    if ps == [] then 0
    else
      var n := |ps| - 1;
      Weight(ps[..n], chosen) + if n in chosen then ps[n].stake else 0
  }

  function TotalStake(ps: seq<Producer>): nat {
    if ps == [] then 0 else TotalStake(ps[..|ps| - 1]) + ps[|ps| - 1].stake
  }

  /** The producers, by position, whose approval is in the block. */
  function Approvers(block: Block): set<nat> {
    set i | 0 <= i < |block.approvals| && block.approvals[i].Some?
  }

  lemma {:induction false} WeightWithin(ps: seq<Producer>, a: set<nat>)
    ensures Weight(ps, a) <= TotalStake(ps)
  {
    if ps != [] {
      WeightWithin(ps[..|ps| - 1], a);
    }
  }

  lemma {:induction false} WeightUnion(ps: seq<Producer>, a: set<nat>, b: set<nat>)
    ensures Weight(ps, a + b) + Weight(ps, a * b) == Weight(ps, a) + Weight(ps, b)
  {
    if ps != [] {
      WeightUnion(ps[..|ps| - 1], a, b);
    }
  }

  /** Heavier means some producer that is not in the lighter set. */
  lemma {:induction false} HeavierHasMore(ps: seq<Producer>, a: set<nat>, b: set<nat>) returns (i: nat)
    requires Weight(ps, a) > Weight(ps, b)
    ensures i < |ps| && i in a && i !in b
  {
    var n := |ps| - 1;
    if n in a && n !in b {
      i := n;
    } else {
      i := HeavierHasMore(ps[..n], a, b);
    }
  }

  // ---------------------------------------------------------------------------
  // The check
  // ---------------------------------------------------------------------------

  /** One byte holds `height + 2` in the approval message, so a larger height raises. */
  predicate ApprovalOk(ps: seq<Producer>, block: Block, i: nat, verifies: Verifier)
    requires i < |block.approvals| == |ps|
  {
    block.approvals[i].Some? ==> block.header.height + 2 < 256 && verifies(ps[i], block, block.approvals[i].value)
  }

  ghost predicate ApprovalsOk(ps: seq<Producer>, block: Block, n: nat, verifies: Verifier)
    requires n <= |block.approvals| == |ps|
  {
    forall i :: 0 <= i < n ==> ApprovalOk(ps, block, i, verifies)
  }

  /** More than two thirds of the stake approved, exactly. */
  ghost predicate Quorum(ps: seq<Producer>, block: Block) {
    3 * Weight(ps, Approvers(block)) > 2 * TotalStake(ps)
  }

  /** A block that opens the next epoch carries producers with the promised hash. */
  ghost predicate HandoverOk(last: Header, block: Block, hash: Hasher) {
    block.header.epochId == last.nextEpochId ==>
      block.nextBps.Some? && hash(block.nextBps.value) == Some(block.header.nextBpHash)
  }

  ghost predicate EpochOk(last: Header, block: Block) {
    block.header.epochId == last.epochId || block.header.epochId == last.nextEpochId
  }

  ghost predicate Accepts(producers: map<string, seq<Producer>>, last: Header, block: Block, verifies: Verifier,
                          hash: Hasher) {
    && EpochOk(last, block) && block.header.epochId in producers
    && var ps := producers[block.header.epochId];
       && |block.approvals| == |ps| && ApprovalsOk(ps, block, |ps|, verifies)
       && Quorum(ps, block) && HandoverOk(last, block, hash)
  }

  /** An unknown epoch, a bad approval, or a list of producers that has no serialization. */
  ghost predicate Raises(producers: map<string, seq<Producer>>, last: Header, block: Block, verifies: Verifier,
                         hash: Hasher) {
    && EpochOk(last, block)
    && (block.header.epochId in producers ==>
          var ps := producers[block.header.epochId];
          && |block.approvals| == |ps|
          && (ApprovalsOk(ps, block, |ps|, verifies) ==>
                && Quorum(ps, block) && block.header.epochId == last.nextEpochId
                && block.nextBps.Some? && hash(block.nextBps.value) == None))
  }

  /** The known producers after the check: an accepted handover records the next epoch's. */
  ghost function Recorded(producers: map<string, seq<Producer>>, last: Header, block: Block, verifies: Verifier,
                          hash: Hasher): map<string, seq<Producer>> {
    if Accepts(producers, last, block, verifies, hash) && block.header.epochId == last.nextEpochId
    then producers[block.header.nextEpochId := block.nextBps.value]
    else producers
  }

  class Client {
    var producers: map<string, seq<Producer>>

    constructor (producers: map<string, seq<Producer>>)
      ensures this.producers == producers
    {
      this.producers := producers;
    }

    method ValidateBlock(last: Header, block: Block, verifies: Verifier, sha256: seq<Byte> -> string)
      returns (verdict: Verdict)
      modifies this
      ensures verdict.Valid? <==> Accepts(old(producers), last, block, verifies, HashOf(sha256))
      ensures verdict.Raised? <==> Raises(old(producers), last, block, verifies, HashOf(sha256))
      ensures producers == Recorded(old(producers), last, block, verifies, HashOf(sha256))
    {
      var epoch := block.header.epochId;
      if epoch != last.epochId && epoch != last.nextEpochId {
        return Invalid;
      }
      if epoch !in producers {
        return Raised;
      }
      var ps := producers[epoch];
      if |block.approvals| != |ps| {
        return Invalid;
      }
      var stakes := CountStake(ps, block, verifies);
      if stakes.None? {
        return Raised;
      }
      var (total, approved) := stakes.value;
      if approved <= total * 2 / 3 {
        return Invalid;
      }
      if epoch == last.nextEpochId {
        if block.nextBps.None? {
          return Invalid;
        }
        var serialized := SerializeProducers(block.nextBps.value);
        if serialized.None? {
          return Raised;
        }
        if sha256(serialized.value) != block.header.nextBpHash {
          return Invalid;
        }
        producers := producers[block.header.nextEpochId := block.nextBps.value];
      }
      verdict := Valid;
    }
  }

  lemma {:induction false} NobodyWeighsNothing(ps: seq<Producer>)
    ensures Weight(ps, {}) == 0
  {
    if ps != [] {
      NobodyWeighsNothing(ps[..|ps| - 1]);
    }
  }

  /** No block of height 254 or more is ever accepted, whoever approved it. */
  lemma AcceptedIsLow(producers: map<string, seq<Producer>>, last: Header, block: Block, verifies: Verifier,
      hash: Hasher)
    requires Accepts(producers, last, block, verifies, hash)
    ensures block.header.height < 254
  {
    var ps := producers[block.header.epochId];
    NobodyWeighsNothing(ps);
    var i := HeavierHasMore(ps, Approvers(block), {});
    assert ApprovalOk(ps, block, i, verifies);
  }

  /**
   * A tall block raises exactly if its epoch is acceptable and either unknown or the lengths agree
   * and there is an approval at all; otherwise it is refused.
   */
  lemma TallRaisesIff(producers: map<string, seq<Producer>>, last: Header, block: Block, verifies: Verifier,
      hash: Hasher)
    requires block.header.height >= 254
    ensures Raises(producers, last, block, verifies, hash)
            <==> EpochOk(last, block)
                 && (block.header.epochId in producers ==>
                       |block.approvals| == |producers[block.header.epochId]| && Approvers(block) != {})
  {
    var epoch := block.header.epochId;
    if epoch in producers && |block.approvals| == |producers[epoch]| {
      var ps := producers[epoch];
      if Approvers(block) == {} {
        NobodyWeighsNothing(ps);
        forall i | 0 <= i < |ps|
          ensures ApprovalOk(ps, block, i, verifies)
        {
          assert i !in Approvers(block);
        }
      } else {
        var i :| i in Approvers(block);
        assert !ApprovalOk(ps, block, i, verifies);
      }
    }
  }

  /**
   * One producer with stake and a signature of its own: a block that is accepted at height 253
   * raises one block higher, however it is signed there.
   */
  lemma TooTall(p: Producer, last: Header, block: Block, signature: string, verifies: Verifier, hash: Hasher)
    requires p.stake > 0 && block.approvals == [Some(signature)] && verifies(p, block, signature)
    requires block.header.height == 253 && block.header.epochId == last.epochId != last.nextEpochId
    ensures Accepts(map[last.epochId := [p]], last, block, verifies, hash)
    ensures Raises(map[last.epochId := [p]], last, block.(header := block.header.(height := 254)), verifies, hash)
  {
    var ps, tall := [p], block.(header := block.header.(height := 254));
    assert ps[..0] == [];
    assert 0 in Approvers(block) && 0 in Approvers(tall);
    assert TotalStake(ps) == p.stake && Weight(ps, Approvers(block)) == p.stake;
    TallRaisesIff(map[last.epochId := ps], last, tall, verifies, hash);
  }

  /** Total and approved stake, or nothing if an approval raises. */
  method CountStake(ps: seq<Producer>, block: Block, verifies: Verifier) returns (r: Option<(nat, nat)>)
    requires |block.approvals| == |ps|
    ensures r.Some? <==> ApprovalsOk(ps, block, |ps|, verifies)
    ensures r.Some? ==> r.value == (TotalStake(ps), Weight(ps, Approvers(block)))
  {
    var total, approved := 0, 0;
    for i := 0 to |ps|
      invariant ApprovalsOk(ps, block, i, verifies)
      invariant total == TotalStake(ps[..i]) && approved == Weight(ps[..i], Approvers(block))
    {
      assert ps[..i + 1][..i] == ps[..i];
      total := total + ps[i].stake;
      match block.approvals[i] {
        case None =>
        case Some(signature) =>
          approved := approved + ps[i].stake;
          if block.header.height + 2 >= 256 || !verifies(ps[i], block, signature) {
            assert !ApprovalOk(ps, block, i, verifies);
            return None;
          }
      }
    }
    assert ps[..|ps|] == ps;
    r := Some((total, approved));
  }

  // ---------------------------------------------------------------------------
  // Quorums
  // ---------------------------------------------------------------------------

  /** Two quorums of the same producers share more than a third of the stake. */
  lemma QuorumsMeet(ps: seq<Producer>, b1: Block, b2: Block)
    requires Quorum(ps, b1) && Quorum(ps, b2)
    ensures 3 * Weight(ps, Approvers(b1) * Approvers(b2)) > TotalStake(ps)
  {
    WeightUnion(ps, Approvers(b1), Approvers(b2));
    WeightWithin(ps, Approvers(b1) + Approvers(b2));
  }

  /** With at most a third faulty, some producer outside the faulty ones approved both blocks. */
  lemma HonestInBoth(ps: seq<Producer>, b1: Block, b2: Block, faulty: set<nat>)
    requires Quorum(ps, b1) && Quorum(ps, b2) && 3 * Weight(ps, faulty) <= TotalStake(ps)
    ensures exists i: nat :: i < |ps| && i !in faulty && i in Approvers(b1) && i in Approvers(b2)
  {
    QuorumsMeet(ps, b1, b2);
    var i := HeavierHasMore(ps, Approvers(b1) * Approvers(b2), faulty);
  }

  /** Outside the faulty ones, nobody signs two blocks that promise different successors. */
  ghost predicate NoDoubleSigning(ps: seq<Producer>, faulty: set<nat>, b1: Block, b2: Block, verifies: Verifier) {
    forall i, s1, s2 :: 0 <= i < |ps| && i !in faulty && verifies(ps[i], b1, s1) && verifies(ps[i], b2, s2) ==>
                          b1.header.nextBpHash == b2.header.nextBpHash
  }

  /** Two blocks accepted in one epoch hand over to producers with the same hash. */
  lemma AcceptedAgree(producers: map<string, seq<Producer>>, last1: Header, last2: Header, b1: Block, b2: Block,
                      faulty: set<nat>, verifies: Verifier, hash: Hasher)
    requires b1.header.epochId == b2.header.epochId
    requires Accepts(producers, last1, b1, verifies, hash) && Accepts(producers, last2, b2, verifies, hash)
    requires 3 * Weight(producers[b1.header.epochId], faulty) <= TotalStake(producers[b1.header.epochId])
    requires NoDoubleSigning(producers[b1.header.epochId], faulty, b1, b2, verifies)
    ensures b1.header.nextBpHash == b2.header.nextBpHash
    ensures b1.header.epochId == last1.nextEpochId == last2.nextEpochId ==>
              hash(b1.nextBps.value) == hash(b2.nextBps.value) == Some(b1.header.nextBpHash)
  {
    var ps := producers[b1.header.epochId];
    HonestInBoth(ps, b1, b2, faulty);
    var i: nat :| i < |ps| && i !in faulty && i in Approvers(b1) && i in Approvers(b2);
    assert ApprovalOk(ps, b1, i, verifies) && ApprovalOk(ps, b2, i, verifies);
  }

  // ---------------------------------------------------------------------------
  // What acceptance means, and what it leaves behind
  // ---------------------------------------------------------------------------

  /** An accepted block, in full. */
  lemma AcceptedMeans(producers: map<string, seq<Producer>>, last: Header, block: Block, verifies: Verifier,
                      hash: Hasher)
    requires Accepts(producers, last, block, verifies, hash)
    ensures block.header.epochId in {last.epochId, last.nextEpochId} && block.header.epochId in producers
    ensures var ps := producers[block.header.epochId];
            && |block.approvals| == |ps|
            && (forall i :: 0 <= i < |ps| && block.approvals[i].Some? ==>
                  verifies(ps[i], block, block.approvals[i].value))
            && Weight(ps, set i | 0 <= i < |ps| && block.approvals[i].Some?) > TotalStake(ps) * 2 / 3
    ensures block.header.epochId == last.nextEpochId ==>
              block.nextBps.Some? && hash(block.nextBps.value) == Some(block.header.nextBpHash)
  {
    var ps := producers[block.header.epochId];
    forall i | 0 <= i < |ps| && block.approvals[i].Some?
      ensures verifies(ps[i], block, block.approvals[i].value)
    {
      assert ApprovalOk(ps, block, i, verifies);
    }
    assert (set i | 0 <= i < |ps| && block.approvals[i].Some?) == Approvers(block);
  }

  /** The cases that raise, one by one: the epoch is unknown, an approval is bad, or the next list has no bytes. */
  lemma RaisesMeans(producers: map<string, seq<Producer>>, last: Header, block: Block, verifies: Verifier, hash: Hasher)
    ensures !(block.header.epochId in {last.epochId, last.nextEpochId}) ==>
              !Raises(producers, last, block, verifies, hash)
    ensures block.header.epochId in {last.epochId, last.nextEpochId} && block.header.epochId !in producers ==>
              Raises(producers, last, block, verifies, hash)
    ensures block.header.epochId in {last.epochId, last.nextEpochId} && block.header.epochId in producers ==>
              var ps := producers[block.header.epochId];
              var bad := exists i :: 0 <= i < |ps| && |block.approvals| == |ps| && block.approvals[i].Some?
                                     && !(block.header.height < 254
                                          && verifies(ps[i], block, block.approvals[i].value));
              Raises(producers, last, block, verifies, hash)
              <==> |block.approvals| == |ps|
                   && (bad || (Quorum(ps, block) && block.header.epochId == last.nextEpochId
                               && block.nextBps.Some? && hash(block.nextBps.value) == None))
  {
    if block.header.epochId in producers {
      var ps := producers[block.header.epochId];
      if |block.approvals| == |ps| {
        assert ApprovalsOk(ps, block, |ps|, verifies)
          <==> forall i :: 0 <= i < |ps| && block.approvals[i].Some? ==>
                             block.header.height < 254 && verifies(ps[i], block, block.approvals[i].value) by {
          forall i | 0 <= i < |ps|
            ensures ApprovalOk(ps, block, i, verifies)
                    <==> (block.approvals[i].Some? ==>
                            block.header.height < 254 && verifies(ps[i], block, block.approvals[i].value))
          {
          }
        }
      }
    }
  }

  /** An accepted handover makes its producers those of the next epoch; nothing else changes what is known. */
  lemma HandoverRecorded(producers: map<string, seq<Producer>>, last: Header, block: Block, verifies: Verifier,
                         hash: Hasher)
    ensures var after := Recorded(producers, last, block, verifies, hash);
            if Accepts(producers, last, block, verifies, hash) && block.header.epochId == last.nextEpochId then
              && block.nextBps.Some? && block.header.nextEpochId in after
              && after[block.header.nextEpochId] == block.nextBps.value
              && (forall e :: e != block.header.nextEpochId ==>
                    (e in after <==> e in producers) && (e in producers ==> after[e] == producers[e]))
            else after == producers
  {
  }

  /** Each block opens the epoch that the one before announced, and is checked against it. */
  ghost predicate HandoverChain(last: Header, blocks: seq<Block>)
    decreases |blocks|
  {
    blocks != [] ==>
      && blocks[0].header.epochId == last.nextEpochId
      && HandoverChain(blocks[0].header, blocks[1..])
  }

  /** The known producers after each block was checked against the header before it. */
  ghost function Following(producers: map<string, seq<Producer>>, last: Header, blocks: seq<Block>,
                           verifies: Verifier, hash: Hasher): map<string, seq<Producer>>
    decreases |blocks|
  {
    if blocks == [] then producers
    else Following(Recorded(producers, last, blocks[0], verifies, hash), blocks[0].header, blocks[1..], verifies, hash)
  }

  ghost predicate AllAccepted(producers: map<string, seq<Producer>>, last: Header, blocks: seq<Block>,
                              verifies: Verifier, hash: Hasher)
    decreases |blocks|
  {
    blocks != [] ==>
      && Accepts(producers, last, blocks[0], verifies, hash)
      && AllAccepted(Recorded(producers, last, blocks[0], verifies, hash), blocks[0].header, blocks[1..], verifies,
                     hash)
  }

  function LastHeader(last: Header, blocks: seq<Block>): Header {
    if blocks == [] then last else blocks[|blocks| - 1].header
  }

  /**
   * Along every chain of accepted handovers the client keeps up: it knows the producers of the next
   * epoch, exactly those of the last block, so that no block of that epoch raises for want of them.
   */
  lemma {:induction false} ChainKeepsUp(producers: map<string, seq<Producer>>, last: Header, blocks: seq<Block>,
                                        verifies: Verifier, hash: Hasher)
    requires last.nextEpochId in producers && HandoverChain(last, blocks)
    requires AllAccepted(producers, last, blocks, verifies, hash)
    ensures var after, h := Following(producers, last, blocks, verifies, hash), LastHeader(last, blocks);
            && h.nextEpochId in after
            && (blocks != [] ==> blocks[|blocks| - 1].nextBps == Some(after[h.nextEpochId]))
    decreases |blocks|
  {
    hide Accepts;
    if blocks != [] {
      HandoverRecorded(producers, last, blocks[0], verifies, hash);
      var after := Recorded(producers, last, blocks[0], verifies, hash);
      ChainKeepsUp(after, blocks[0].header, blocks[1..], verifies, hash);
    }
  }

  /** So the next handover is judged on its merits: it is accepted or raises only for its own sake. */
  lemma ChainCanGoOn(producers: map<string, seq<Producer>>, last: Header, blocks: seq<Block>, next: Block,
                     verifies: Verifier, hash: Hasher)
    requires last.nextEpochId in producers && HandoverChain(last, blocks)
    requires AllAccepted(producers, last, blocks, verifies, hash)
    requires next.header.epochId == LastHeader(last, blocks).nextEpochId
    ensures var after := Following(producers, last, blocks, verifies, hash);
            && next.header.epochId in after
            && (|next.approvals| != |after[next.header.epochId]| ==>
                  !Raises(after, LastHeader(last, blocks), next, verifies, hash))
            && (|next.approvals| == |after[next.header.epochId]| && next.header.height < 254
                && (forall i :: 0 <= i < |next.approvals| && next.approvals[i].Some? ==>
                      verifies(after[next.header.epochId][i], next, next.approvals[i].value))
                && Quorum(after[next.header.epochId], next)
                && next.nextBps.Some? && hash(next.nextBps.value) == Some(next.header.nextBpHash) ==>
                  Accepts(after, LastHeader(last, blocks), next, verifies, hash))
  {
    ChainKeepsUp(producers, last, blocks, verifies, hash);
  }

  // ---------------------------------------------------------------------------
  // Whole runs
  // ---------------------------------------------------------------------------

  function FaultyIn(ps: seq<Producer>, faulty: Producer -> bool): set<nat> {
    set i | 0 <= i < |ps| && faulty(ps[i])
  }

  /** The producers that an epoch really has hold at most a third of faulty stake. */
  ghost predicate MostlyHonest(genuine: (string, seq<Producer>) -> bool, faulty: Producer -> bool) {
    forall e, ps :: genuine(e, ps) ==> 3 * Weight(ps, FaultyIn(ps, faulty)) <= TotalStake(ps)
  }

  /** Honest producers sign only blocks whose promised hash belongs to the real next producers alone. */
  ghost predicate HonestSigning(genuine: (string, seq<Producer>) -> bool, faulty: Producer -> bool,
                                verifies: Verifier, hash: Hasher) {
    forall p, block, s, ps :: !faulty(p) && verifies(p, block, s) && hash(ps) == Some(block.header.nextBpHash) ==>
                                genuine(block.header.nextEpochId, ps)
  }

  ghost predicate AllGenuine(producers: map<string, seq<Producer>>, genuine: (string, seq<Producer>) -> bool) {
    forall e :: e in producers ==> genuine(e, producers[e])
  }

  ghost function AfterChecks(producers: map<string, seq<Producer>>, checks: seq<(Header, Block)>, verifies: Verifier,
                             hash: Hasher): map<string, seq<Producer>> {
    if checks == [] then producers
    else
      var n := |checks| - 1;
      Recorded(AfterChecks(producers, checks[..n], verifies, hash), checks[n].0, checks[n].1, verifies, hash)
  }

  lemma RecordedGenuine(producers: map<string, seq<Producer>>, last: Header, block: Block,
                        genuine: (string, seq<Producer>) -> bool,
                        faulty: Producer -> bool, verifies: Verifier, hash: Hasher)
    requires MostlyHonest(genuine, faulty) && HonestSigning(genuine, faulty, verifies, hash)
            && AllGenuine(producers, genuine)
    ensures AllGenuine(Recorded(producers, last, block, verifies, hash), genuine)
  {
    if Accepts(producers, last, block, verifies, hash) && block.header.epochId == last.nextEpochId {
      var ps := producers[block.header.epochId];
      assert genuine(block.header.epochId, ps);
      var i := HeavierHasMore(ps, Approvers(block), FaultyIn(ps, faulty));
      assert ApprovalOk(ps, block, i, verifies);
      assert genuine(block.header.nextEpochId, block.nextBps.value);
    }
  }

  /** Whatever blocks a client is shown, against whatever headers, it only ever records real producers. */
  lemma {:induction false} RunStaysGenuine(producers: map<string, seq<Producer>>, checks: seq<(Header, Block)>,
                                           genuine: (string, seq<Producer>) -> bool,
                                           faulty: Producer -> bool, verifies: Verifier, hash: Hasher)
    requires MostlyHonest(genuine, faulty) && HonestSigning(genuine, faulty, verifies, hash)
            && AllGenuine(producers, genuine)
    ensures AllGenuine(AfterChecks(producers, checks, verifies, hash), genuine)
  {
    hide AllGenuine, MostlyHonest, HonestSigning, Recorded;
    if checks != [] {
      var n := |checks| - 1;
      RunStaysGenuine(producers, checks[..n], genuine, faulty, verifies, hash);
      RecordedGenuine(AfterChecks(producers, checks[..n], verifies, hash), checks[n].0, checks[n].1, genuine, faulty,
          verifies, hash);
    }
  }
}
