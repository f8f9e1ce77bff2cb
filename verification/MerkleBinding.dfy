/** What a root commits to, for the service's own node hash. */
module MerkleBinding {
  import opened Bits
  import opened Merkle
  import Hex

  /** The SHA-256 call on the two operands, as a number; nothing is assumed of it. */
  type Digest = (nat, nat) -> nat

  const BN254_PRIME: nat := 21888242871839275222246405745257275088548364400416034343698204186575808495617

  function Residue(x: nat): (r: nat)
    ensures r < BN254_PRIME && (x < BN254_PRIME ==> r == x)
  {
    x % BN254_PRIME
  }

  /** Both operands are reduced before hashing and the digest is reduced after. */
  function Poseidon(digest: Digest): Hasher {
    (left: nat, right: nat) => Residue(digest(Residue(left), Residue(right)))
  }

  lemma PoseidonIsReduced(digest: Digest, left: nat, right: nat)
    ensures Residue(Poseidon(digest)(left, right)) == Poseidon(digest)(left, right)
  {
    var h := Poseidon(digest)(left, right);
    assert h == Residue(digest(Residue(left), Residue(right)));
  }

  datatype Operands = Operands(left: nat, right: nat)

  /** Two different reduced operand pairs with the same reduced digest. */
  predicate IsCollision(digest: Digest, x: Operands, y: Operands) {
    && x != y
    && x.left < BN254_PRIME && x.right < BN254_PRIME && y.left < BN254_PRIME && y.right < BN254_PRIME
    && Residue(digest(x.left, x.right)) == Residue(digest(y.left, y.right))
  }

  function Reduced(left: nat, right: nat): Operands {
    Operands(Residue(left), Residue(right))
  }

  lemma EqualHashes(digest: Digest, a: nat, b: nat, c: nat, d: nat)
    requires Poseidon(digest)(a, b) == Poseidon(digest)(c, d)
    ensures Reduced(a, b) == Reduced(c, d) || IsCollision(digest, Reduced(a, b), Reduced(c, d))
  {
  }

  /** The operands hashed at a node above the leaves. */
  function NodeOperands(digest: Digest, leaves: seq<nat>, level: nat, index: nat): Operands
    requires level >= 1
  {
    var hash := Poseidon(digest);
    Reduced(Node(hash, leaves, level - 1, 2 * index), Node(hash, leaves, level - 1, 2 * index + 1))
  }

  /** The trees of two lists hash different operands to the same value at a node. */
  predicate CollisionAt(digest: Digest, a: seq<nat>, b: seq<nat>, level: nat, index: nat)
    requires level >= 1
  {
    IsCollision(digest, NodeOperands(digest, a, level, index), NodeOperands(digest, b, level, index))
  }

  /** The zero-padded lists agree after reduction. */
  ghost predicate SameResidues(a: seq<nat>, b: seq<nat>) {
    forall i: nat :: Residue(LeafAt(a, i)) == Residue(LeafAt(b, i))
  }

  lemma {:induction false} ResiduesDetermineNode(digest: Digest, a: seq<nat>, b: seq<nat>, level: nat, index: nat)
    requires SameResidues(a, b)
    ensures var hash := Poseidon(digest);
      && Residue(Node(hash, a, level, index)) == Residue(Node(hash, b, level, index))
      && (level >= 1 ==> Node(hash, a, level, index) == Node(hash, b, level, index))
  {
    if level > 0 {
      ResiduesDetermineNode(digest, a, b, level - 1, 2 * index);
      ResiduesDetermineNode(digest, a, b, level - 1, 2 * index + 1);
    }
  }

  lemma ChildrenCollide(digest: Digest, a: seq<nat>, b: seq<nat>, level: nat, child: nat)
    requires level >= 1
    requires Residue(Node(Poseidon(digest), a, level - 1, child)) != Residue(Node(Poseidon(digest), b, level - 1, child))
    requires Node(Poseidon(digest), a, level, child / 2) == Node(Poseidon(digest), b, level, child / 2)
    ensures CollisionAt(digest, a, b, level, child / 2)
  {
    var hash, index := Poseidon(digest), child / 2;
    assert child == 2 * index || child == 2 * index + 1;
    EqualHashes(digest, Node(hash, a, level - 1, 2 * index), Node(hash, a, level - 1, 2 * index + 1),
      Node(hash, b, level - 1, 2 * index), Node(hash, b, level - 1, 2 * index + 1));
  }

  /** Two trees that differ at a leaf and agree above it collide on the way up. */
  lemma {:induction false} FindCollision(digest: Digest, a: seq<nat>, b: seq<nat>, leaf: nat, top: nat) returns (level: nat)
    requires top >= 1 && Residue(LeafAt(a, leaf)) != Residue(LeafAt(b, leaf))
    requires Node(Poseidon(digest), a, top, Shr(leaf, top)) == Node(Poseidon(digest), b, top, Shr(leaf, top))
    ensures 1 <= level <= top && CollisionAt(digest, a, b, level, Shr(leaf, level))
    decreases top
  {
    var hash, below := Poseidon(digest), Shr(leaf, top - 1);
    if top > 1 && Residue(Node(hash, a, top - 1, below)) == Residue(Node(hash, b, top - 1, below)) {
      NodeIsReduced(digest, a, top - 1, below);
      NodeIsReduced(digest, b, top - 1, below);
      level := FindCollision(digest, a, b, leaf, top - 1);
    } else {
      level := top;
      ChildrenCollide(digest, a, b, top, below);
    }
  }

  lemma NodeIsReduced(digest: Digest, leaves: seq<nat>, level: nat, index: nat)
    requires level >= 1
    ensures Residue(Node(Poseidon(digest), leaves, level, index)) == Node(Poseidon(digest), leaves, level, index)
  {
    var hash := Poseidon(digest);
    PoseidonIsReduced(digest, Node(hash, leaves, level - 1, 2 * index), Node(hash, leaves, level - 1, 2 * index + 1));
  }

  /** Two lists, of any lengths and any leaves, with one root collide at a node above
      every place where their padded leaves differ after reduction. */
  lemma RootBinding(digest: Digest, a: seq<nat>, b: seq<nat>, depth: nat, leaf: nat) returns (level: nat)
    requires depth >= 1 && |a| <= Pow2(depth) && |b| <= Pow2(depth)
    requires TreeRoot(Poseidon(digest), a, depth) == TreeRoot(Poseidon(digest), b, depth)
    requires Residue(LeafAt(a, leaf)) != Residue(LeafAt(b, leaf))
    ensures 1 <= level <= depth && CollisionAt(digest, a, b, level, Shr(leaf, level))
  {
    TopNodeIsTreeRoot(Poseidon(digest), a, depth);
    TopNodeIsTreeRoot(Poseidon(digest), b, depth);
    ShrBelowCapacity(leaf, depth);
    level := FindCollision(digest, a, b, leaf, depth);
  }

  /** Lists that agree after reduction have one root, whatever the digest. */
  lemma ResiduesDetermineRoot(digest: Digest, a: seq<nat>, b: seq<nat>, depth: nat)
    requires depth >= 1 && |a| <= Pow2(depth) && |b| <= Pow2(depth) && SameResidues(a, b)
    ensures TreeRoot(Poseidon(digest), a, depth) == TreeRoot(Poseidon(digest), b, depth)
  {
    ResiduesDetermineNode(digest, a, b, depth, 0);
    TopNodeIsTreeRoot(Poseidon(digest), a, depth);
    TopNodeIsTreeRoot(Poseidon(digest), b, depth);
  }

  /** The root binds the zero-padded list up to reduction, and no further: when the
      two trees hold no collision at any one node, equal roots and equal residues
      are the same thing. */
  lemma RootBindsResidues(digest: Digest, a: seq<nat>, b: seq<nat>, depth: nat)
    requires depth >= 1 && |a| <= Pow2(depth) && |b| <= Pow2(depth)
    requires forall level, index :: 1 <= level <= depth && index >= 0 ==> !CollisionAt(digest, a, b, level, index)
    ensures TreeRoot(Poseidon(digest), a, depth) == TreeRoot(Poseidon(digest), b, depth) <==> SameResidues(a, b)
  {
    if SameResidues(a, b) {
      ResiduesDetermineRoot(digest, a, b, depth);
    } else if TreeRoot(Poseidon(digest), a, depth) == TreeRoot(Poseidon(digest), b, depth) {
      var leaf: nat :| Residue(LeafAt(a, leaf)) != Residue(LeafAt(b, leaf));
      var level := RootBinding(digest, a, b, depth, leaf);
      assert false;
    }
  }

  ghost predicate Canonical(leaves: seq<nat>) {
    forall i :: 0 <= i < |leaves| ==> leaves[i] < BN254_PRIME
  }

  /** Leaves below the prime are their own residues: different canonical lists of one
      length with one root collide above a leaf on which they differ. */
  lemma CanonicalRootBinding(digest: Digest, a: seq<nat>, b: seq<nat>, depth: nat) returns (leaf: nat, level: nat)
    requires depth >= 1 && |a| == |b| <= Pow2(depth) && a != b
    requires Canonical(a) && Canonical(b)
    requires TreeRoot(Poseidon(digest), a, depth) == TreeRoot(Poseidon(digest), b, depth)
    ensures leaf < |a| && a[leaf] != b[leaf] && 1 <= level <= depth
    ensures CollisionAt(digest, a, b, level, Shr(leaf, level))
  {
    leaf :| leaf < |a| && a[leaf] != b[leaf];
    level := RootBinding(digest, a, b, depth, leaf);
  }

  /** Zero and the prime are written with 64 digits, so both pass for leaves, and they
      are the same after reduction. */
  lemma ZeroAndPrimeAreLeaves(zero: string, prime: string)
    requires zero == Hex.Digits(0, Hex.WIDTH) && prime == Hex.Digits(BN254_PRIME, Hex.WIDTH)
    ensures Hex.IsHex64(zero) && Hex.IsHex64(prime) && zero != prime
    ensures Hex.Value(zero) == 0 && Hex.Value(prime) == BN254_PRIME && Residue(BN254_PRIME) == Residue(0)
  {
    Hex.WidthIs256Bits();
    Hex.ReadInvertsPrint(0, Hex.WIDTH);
    Hex.ReadInvertsPrint(BN254_PRIME, Hex.WIDTH);
  }

  /** Without canonical leaves the claim is false for every digest: zero and the
      prime are different 64-digit leaves with one root. */
  lemma NonCanonicalLeavesShareARoot(digest: Digest, depth: nat, zero: string, prime: string)
    requires depth >= 1 && zero == Hex.Digits(0, Hex.WIDTH) && prime == Hex.Digits(BN254_PRIME, Hex.WIDTH)
    ensures Hex.IsHex64(zero) && Hex.IsHex64(prime) && zero != prime
    ensures TreeRoot(Poseidon(digest), [Hex.Value(zero)], depth) == TreeRoot(Poseidon(digest), [Hex.Value(prime)], depth)
  {
    ZeroAndPrimeAreLeaves(zero, prime);
    assert SameResidues([0], [BN254_PRIME]);
    ResiduesDetermineRoot(digest, [0], [BN254_PRIME], depth);
  }

  /** The operands hashed at one step of opening a path. */
  function StepOperands(digest: Digest, leaf: nat, index: nat, path: seq<nat>, step: nat): Operands
    requires step < |path|
  {
    var below := FoldPath(Poseidon(digest), leaf, index, path[..step]);
    if Shr(index, step) % 2 == 0 then Reduced(below, path[step]) else Reduced(path[step], below)
  }

  /** Two openings of one root at one index to different leaves collide at a step. */
  lemma {:induction false} PathBinding(digest: Digest, a: nat, b: nat, index: nat, p: seq<nat>, q: seq<nat>) returns (step: nat)
    requires |p| == |q| >= 1 && Residue(a) != Residue(b)
    requires FoldPath(Poseidon(digest), a, index, p) == FoldPath(Poseidon(digest), b, index, q)
    ensures step < |p|
    ensures IsCollision(digest, StepOperands(digest, a, index, p, step), StepOperands(digest, b, index, q, step))
    decreases |p|
  {
    var hash, top := Poseidon(digest), |p| - 1;
    var fa, fb := FoldPath(hash, a, index, p[..top]), FoldPath(hash, b, index, q[..top]);
    if Residue(fa) != Residue(fb) {
      step := top;
      if Shr(index, top) % 2 == 0 {
        EqualHashes(digest, fa, p[top], fb, q[top]);
      } else {
        EqualHashes(digest, p[top], fa, q[top], fb);
      }
    } else {
      FoldIsReduced(digest, a, index, p[..top]);
      FoldIsReduced(digest, b, index, q[..top]);
      step := PathBinding(digest, a, b, index, p[..top], q[..top]);
      assert p[..top][..step] == p[..step] && q[..top][..step] == q[..step];
    }
  }

  lemma FoldIsReduced(digest: Digest, leaf: nat, index: nat, path: seq<nat>)
    ensures path != [] ==> Residue(FoldPath(Poseidon(digest), leaf, index, path)) == FoldPath(Poseidon(digest), leaf, index, path)
  {
    if path != [] {
      var top := |path| - 1;
      var below := FoldPath(Poseidon(digest), leaf, index, path[..top]);
      PoseidonIsReduced(digest, below, path[top]);
      PoseidonIsReduced(digest, path[top], below);
    }
  }

  /** The path a tree gives for an index. */
  function HonestPath(digest: Digest, leaves: seq<nat>, index: nat, depth: nat): (path: seq<nat>)
    ensures |path| == depth && IsSiblingPath(Poseidon(digest), leaves, index, path)
  {
    seq(depth, (l: nat) => Node(Poseidon(digest), leaves, l, Sibling(Shr(index, l))))
  }

  /** Whatever path opens the root of a list at an index to another residue than
      the list's, it collides with the list's own path at a step. */
  lemma OpeningBinding(digest: Digest, leaves: seq<nat>, index: nat, other: nat, path: seq<nat>) returns (step: nat)
    requires |path| >= 1 && index < |leaves| <= Pow2(|path|)
    requires Residue(other) != Residue(leaves[index])
    requires FoldPath(Poseidon(digest), other, index, path) == TreeRoot(Poseidon(digest), leaves, |path|)
    ensures step < |path|
    ensures IsCollision(digest, StepOperands(digest, other, index, path, step),
      StepOperands(digest, leaves[index], index, HonestPath(digest, leaves, index, |path|), step))
  {
    var honest := HonestPath(digest, leaves, index, |path|);
    PathOpensRoot(Poseidon(digest), leaves, index, honest);
    step := PathBinding(digest, other, leaves[index], index, path, honest);
  }
}
