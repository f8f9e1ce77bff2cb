/** The whole shielded pipeline: what a stored checkpoint commits to. */
module ShieldedPipeline {
  import opened Bits
  import opened Merkle
  import opened MerkleBinding
  import opened NoteParser
  import opened NoteIndexer
  import Hex

  /** The leaves that a checkpoint of a history covers. */
  ghost function CoveredLeaves(digest: Digest, depth: int, log: seq<Entry>, i: nat): (leaves: seq<nat>)
    requires IsLog(Poseidon(digest), depth, log) && i < |Latest(log).roots|
    ensures |leaves| == Latest(log).roots[i].leafCount <= |Latest(log).commitments|
  {
    EveryRunKeepsInv(Poseidon(digest), depth, log);
    Values(Latest(log).commitments)[..Latest(log).roots[i].leafCount]
  }

  lemma CheckpointFacts(digest: Digest, depth: int, log: seq<Entry>, i: nat)
    requires IsLog(Poseidon(digest), depth, log) && i < |Latest(log).roots|
    ensures var leaves := CoveredLeaves(digest, depth, log, i);
      && depth >= 1 && |leaves| <= Pow2(depth)
      && Latest(log).roots[i].root == TreeRoot(Poseidon(digest), leaves, depth)
      && forall k :: 0 <= k < |leaves| ==>
        Hex.IsHex64(Latest(log).commitments[k].commitment) && leaves[k] == Hex.Value(Latest(log).commitments[k].commitment)
  {
    EveryRunKeepsInv(Poseidon(digest), depth, log);
  }

  /** Two databases, whatever was indexed into them and in however many runs, whose
      checkpoints share a root: their trees collide at a node above every leaf on
      which the covered commitments, padded with zeros, differ after reduction. */
  lemma CheckpointBindsResidues(digest: Digest, depth: int, logA: seq<Entry>, i: nat, logB: seq<Entry>, j: nat, k: nat)
    returns (level: nat)
    requires IsLog(Poseidon(digest), depth, logA) && i < |Latest(logA).roots|
    requires IsLog(Poseidon(digest), depth, logB) && j < |Latest(logB).roots|
    requires Latest(logA).roots[i].root == Latest(logB).roots[j].root
    requires Residue(LeafAt(CoveredLeaves(digest, depth, logA, i), k)) != Residue(LeafAt(CoveredLeaves(digest, depth, logB, j), k))
    ensures 1 <= level <= depth
    ensures CollisionAt(digest, CoveredLeaves(digest, depth, logA, i), CoveredLeaves(digest, depth, logB, j), level, Shr(k, level))
  {
    CheckpointFacts(digest, depth, logA, i);
    CheckpointFacts(digest, depth, logB, j);
    level := RootBinding(digest, CoveredLeaves(digest, depth, logA, i), CoveredLeaves(digest, depth, logB, j), depth, k);
  }

  /** And no more than the residues is bound: when they agree, so do the roots. */
  lemma ResiduesDetermineCheckpoint(digest: Digest, depth: int, logA: seq<Entry>, i: nat, logB: seq<Entry>, j: nat)
    requires IsLog(Poseidon(digest), depth, logA) && i < |Latest(logA).roots|
    requires IsLog(Poseidon(digest), depth, logB) && j < |Latest(logB).roots|
    requires SameResidues(CoveredLeaves(digest, depth, logA, i), CoveredLeaves(digest, depth, logB, j))
    ensures Latest(logA).roots[i].root == Latest(logB).roots[j].root
  {
    CheckpointFacts(digest, depth, logA, i);
    CheckpointFacts(digest, depth, logB, j);
    ResiduesDetermineRoot(digest, CoveredLeaves(digest, depth, logA, i), CoveredLeaves(digest, depth, logB, j), depth);
  }

  /** Two stored commitments below the field prime, at one leaf index under
      checkpoints with one root, are the same text, or the trees collide above
      them. */
  lemma CheckpointBindsCommitments(digest: Digest, depth: int, logA: seq<Entry>, i: nat, logB: seq<Entry>, j: nat, k: nat)
    returns (level: nat)
    requires IsLog(Poseidon(digest), depth, logA) && i < |Latest(logA).roots|
    requires IsLog(Poseidon(digest), depth, logB) && j < |Latest(logB).roots|
    requires Latest(logA).roots[i].root == Latest(logB).roots[j].root
    requires k < |CoveredLeaves(digest, depth, logA, i)| && k < |CoveredLeaves(digest, depth, logB, j)|
    requires CoveredLeaves(digest, depth, logA, i)[k] < BN254_PRIME && CoveredLeaves(digest, depth, logB, j)[k] < BN254_PRIME
    requires Latest(logA).commitments[k].commitment != Latest(logB).commitments[k].commitment
    ensures 1 <= level <= depth
    ensures CollisionAt(digest, CoveredLeaves(digest, depth, logA, i), CoveredLeaves(digest, depth, logB, j), level, Shr(k, level))
  {
    CheckpointFacts(digest, depth, logA, i);
    CheckpointFacts(digest, depth, logB, j);
    if CoveredLeaves(digest, depth, logA, i)[k] == CoveredLeaves(digest, depth, logB, j)[k] {
      Hex.ReadIsInjective(Latest(logA).commitments[k].commitment, Latest(logB).commitments[k].commitment);
    }
    level := CheckpointBindsResidues(digest, depth, logA, i, logB, j, k);
  }

  /** The history of a database into which one deposit was indexed. */
  ghost function OneDepositLog(digest: Digest, depth: int, commitment: string): (log: seq<Entry>)
    ensures IsLog(Poseidon(digest), depth, log)
  {
    LogOf(Poseidon(digest), depth, [Run(1, 1, false, [Deposit("a", 1, commitment)])])
  }

  lemma OneDepositTables(digest: Digest, depth: int, commitment: string)
    requires ValidDepth(depth) && Hex.IsHex64(commitment)
    ensures var t := Latest(OneDepositLog(digest, depth, commitment));
      && |t.commitments| == 1 && t.commitments[0].commitment == commitment
      && |t.roots| == 1 && t.roots[0].leafCount == 1
  {
    var e := Deposit("a", 1, commitment);
    OneRun(Poseidon(digest), depth, Run(1, 1, false, [e]));
    FirstDeposit(Poseidon(digest), depth, Run(1, 1, false, [e]), e);
  }

  lemma OneDepositLeaves(digest: Digest, depth: int, log: seq<Entry>)
    requires IsLog(Poseidon(digest), depth, log)
    requires |Latest(log).roots| == 1 && Latest(log).roots[0].leafCount == 1 && |Latest(log).commitments| == 1
    ensures Hex.IsHex64(Latest(log).commitments[0].commitment)
    ensures CoveredLeaves(digest, depth, log, 0) == [Hex.Value(Latest(log).commitments[0].commitment)]
  {
    CheckpointFacts(digest, depth, log, 0);
  }

  /** For every digest and depth, two commitments that agree modulo the prime give two
      databases with one checkpoint. */
  lemma CongruentDepositsShareACheckpoint(digest: Digest, depth: int, c: string, d: string)
    requires ValidDepth(depth) && Hex.IsHex64(c) && Hex.IsHex64(d) && Residue(Hex.Value(c)) == Residue(Hex.Value(d))
    ensures var a, b := Latest(OneDepositLog(digest, depth, c)), Latest(OneDepositLog(digest, depth, d));
      && |a.commitments| == |b.commitments| == |a.roots| == |b.roots| == 1
      && a.commitments[0].commitment == c && b.commitments[0].commitment == d
      && a.roots[0].leafCount == b.roots[0].leafCount == 1
      && a.roots[0].root == b.roots[0].root
  {
    var a, b := OneDepositLog(digest, depth, c), OneDepositLog(digest, depth, d);
    OneDepositTables(digest, depth, c);
    OneDepositTables(digest, depth, d);
    OneDepositLeaves(digest, depth, a);
    OneDepositLeaves(digest, depth, b);
    ResiduesDetermineCheckpoint(digest, depth, a, 0, b, 0);
  }

  /** The parser stores the prime, and the tree reduces it to zero: two databases with
      different commitments have the same root and leaf count. */
  lemma ZeroAndPrimeShareACheckpoint(digest: Digest, depth: int, zero: string, prime: string)
    requires ValidDepth(depth) && zero == Hex.Digits(0, Hex.WIDTH) && prime == Hex.Digits(BN254_PRIME, Hex.WIDTH)
    ensures var a, b := Latest(OneDepositLog(digest, depth, zero)), Latest(OneDepositLog(digest, depth, prime));
      && |a.commitments| == |b.commitments| == |a.roots| == |b.roots| == 1
      && a.commitments[0].commitment != b.commitments[0].commitment
      && a.roots[0].leafCount == b.roots[0].leafCount == 1
      && a.roots[0].root == b.roots[0].root
  {
    ZeroAndPrimeAreLeaves(zero, prime);
    CongruentDepositsShareACheckpoint(digest, depth, zero, prime);
  }
}
