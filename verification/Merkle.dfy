/** The incremental shielded Merkle tree (app/services/merkle_service.py).

    Nodes are the numbers that the 64-digit strings denote; `Hex` shows that the
    two forms determine each other.  The node hash is a parameter and nothing is
    assumed of it here; `MerkleBinding` gives it the service's own shape. */
module Merkle {
  import opened Results
  import opened Bits

  /** The two-to-one node hash. */
  type Hasher = (nat, nat) -> nat

  const MAX_DEPTH: nat := 32
  const HASH_SCHEME := "legacy-poseidon2-sha256-bn254-v1"

  datatype MerkleError = BadDepth | BadLevel | InvalidUpdate | TooManyLeaves | InvalidLeafIndex | BadElement

  /** The root of an empty subtree of the given height. */
  function Zero(hash: Hasher, level: nat): nat {
    if level == 0 then 0 else hash(Zero(hash, level - 1), Zero(hash, level - 1))
  }

  method GetZeroValue(hash: Hasher, level: int) returns (r: Result<nat, MerkleError>)
    ensures r == if level < 0 then Err(BadLevel) else Ok(Zero(hash, level))
  {
    if level < 0 {
      return Err(BadLevel);
    }
    var value := 0;
    for i := 0 to level
      invariant value == Zero(hash, i)
    {
      value := hash(value, value);
    }
    return Ok(value);
  }

  // ---------------------------------------------------------------------------
  // The reference tree: pad with zero leaves, then hash halves together.
  // ---------------------------------------------------------------------------

  function PerfectRoot(hash: Hasher, leaves: seq<nat>, depth: nat): nat
    requires |leaves| == Pow2(depth)
    decreases depth
  {
    if depth == 0 then leaves[0]
    else
      var half := Pow2(depth - 1);
      hash(PerfectRoot(hash, leaves[..half], depth - 1), PerfectRoot(hash, leaves[half..], depth - 1))
  }

  function LeafAt(leaves: seq<nat>, index: nat): nat {
    if index < |leaves| then leaves[index] else 0
  }

  function Window(leaves: seq<nat>, start: nat, length: nat): (w: seq<nat>)
    ensures |w| == length && forall k :: 0 <= k < length ==> w[k] == LeafAt(leaves, start + k)
  {
    seq<nat>(length, (k: nat) => LeafAt(leaves, start + k))
  }

  function Padded(leaves: seq<nat>, depth: nat): (p: seq<nat>)
    requires |leaves| <= Pow2(depth)
    ensures |p| == Pow2(depth)
  {
    leaves + seq(Pow2(depth) - |leaves|, _ => 0)
  }

  /** The root that the service promises: the zero-padded perfect tree's. */
  function TreeRoot(hash: Hasher, leaves: seq<nat>, depth: nat): nat
    requires |leaves| <= Pow2(depth)
  {
    PerfectRoot(hash, Padded(leaves, depth), depth)
  }

  /** The node at a level and position of the padded tree. */
  function Node(hash: Hasher, leaves: seq<nat>, level: nat, index: nat): nat {
    if level == 0 then LeafAt(leaves, index)
    else hash(Node(hash, leaves, level - 1, 2 * index), Node(hash, leaves, level - 1, 2 * index + 1))
  }

  lemma WindowHalves(leaves: seq<nat>, start: nat, half: nat)
    ensures Window(leaves, start, 2 * half)[..half] == Window(leaves, start, half)
    ensures Window(leaves, start, 2 * half)[half..] == Window(leaves, start + half, half)
  {
  }

  lemma {:induction false} NodeIsPerfect(hash: Hasher, leaves: seq<nat>, level: nat, index: nat)
    ensures Node(hash, leaves, level, index)
         == PerfectRoot(hash, Window(leaves, index * Pow2(level), Pow2(level)), level)
  {
    if level > 0 {
      var half := Pow2(level - 1);
      assert index * Pow2(level) == (2 * index) * half;
      assert (2 * index + 1) * half == (2 * index) * half + half;
      WindowHalves(leaves, (2 * index) * half, half);
      NodeIsPerfect(hash, leaves, level - 1, 2 * index);
      NodeIsPerfect(hash, leaves, level - 1, 2 * index + 1);
    }
  }

  lemma WindowIsPadded(leaves: seq<nat>, depth: nat)
    requires |leaves| <= Pow2(depth)
    ensures 0 * Pow2(depth) == 0 && Window(leaves, 0, Pow2(depth)) == Padded(leaves, depth)
  {
    var w, p := Window(leaves, 0, Pow2(depth)), Padded(leaves, depth);
    assert forall k :: 0 <= k < |p| ==> w[k] == p[k];
  }

  /** Small trees, written out: left before right, and zero for a missing leaf. */
  lemma SmallTrees(hash: Hasher, a: nat, b: nat, c: nat)
    ensures Pow2(1) == 2 && Pow2(2) == 4
    ensures TreeRoot(hash, [a, b], 1) == hash(a, b)
    ensures TreeRoot(hash, [a, b, c], 2) == hash(hash(a, b), hash(c, 0))
  {
    TopNodeIsTreeRoot(hash, [a, b], 1);
    TopNodeIsTreeRoot(hash, [a, b, c], 2);
    assert Node(hash, [a, b, c], 1, 0) == hash(a, b) && Node(hash, [a, b, c], 1, 1) == hash(c, 0);
  }

  lemma TopNodeIsTreeRoot(hash: Hasher, leaves: seq<nat>, depth: nat)
    requires |leaves| <= Pow2(depth)
    ensures Node(hash, leaves, depth, 0) == TreeRoot(hash, leaves, depth)
  {
    NodeIsPerfect(hash, leaves, depth, 0);
    WindowIsPadded(leaves, depth);
  }

  /** `index ^ 1`. */
  function Sibling(index: nat): nat {
    if index % 2 == 0 then index + 1 else index - 1
  }

  lemma ParentOfPair(hash: Hasher, leaves: seq<nat>, level: nat, index: nat)
    ensures var node, sibling := Node(hash, leaves, level, index), Node(hash, leaves, level, Sibling(index));
      Node(hash, leaves, level + 1, index / 2)
        == if index % 2 == 0 then hash(node, sibling) else hash(sibling, node)
  {
    assert index == 2 * (index / 2) + index % 2;
  }

  lemma {:induction false} EmptySubtree(hash: Hasher, leaves: seq<nat>, level: nat, index: nat)
    requires |leaves| == 0 || index > Shr(|leaves| - 1, level)
    ensures Node(hash, leaves, level, index) == Zero(hash, level)
  {
    if level > 0 {
      EmptySubtree(hash, leaves, level - 1, 2 * index);
      EmptySubtree(hash, leaves, level - 1, 2 * index + 1);
    }
  }

  /** A subtree that is already full does not change when a leaf is appended. */
  lemma {:induction false} FullSubtreeIsStable(hash: Hasher, leaves: seq<nat>, leaf: nat, level: nat, index: nat)
    requires index < Shr(|leaves|, level)
    ensures Node(hash, leaves + [leaf], level, index) == Node(hash, leaves, level, index)
  {
    if level > 0 {
      FullSubtreeIsStable(hash, leaves, leaf, level - 1, 2 * index);
      FullSubtreeIsStable(hash, leaves, leaf, level - 1, 2 * index + 1);
    }
  }

  // ---------------------------------------------------------------------------
  // The frontier append.
  // ---------------------------------------------------------------------------

  datatype Appended = Appended(root: nat, frontier: seq<nat>)

  /** One leaf's walk up the frontier, from `level`. */
  function Push(hash: Hasher, frontier: seq<nat>, count: nat, level: nat, node: nat): (r: Appended)
    requires level <= |frontier|
    ensures |r.frontier| == |frontier|
    decreases |frontier| - level
  {
    if level == |frontier| then Appended(node, frontier)
    else if Shr(count, level) % 2 == 0 then
      Push(hash, frontier[level := node], count, level + 1, hash(node, Zero(hash, level)))
    else
      Push(hash, frontier, count, level + 1, hash(frontier[level], node))
  }

  /** What appending a list of leaves returns, leaf by leaf. */
  function Extend(hash: Hasher, frontier: seq<nat>, count: nat, leaves: seq<nat>): (r: Appended)
    ensures |r.frontier| == |frontier|
  {
    if leaves == [] then Appended(Zero(hash, |frontier|), frontier)
    else
      var last := |leaves| - 1;
      Push(hash, Extend(hash, frontier, count, leaves[..last]).frontier, count + last, 0, leaves[last])
  }

  method AppendReference(hash: Hasher, frontier: seq<nat>, leafCount: nat, leaves: seq<nat>, depth: nat)
    returns (r: Appended)
    requires |frontier| == depth
    ensures r == Extend(hash, frontier, leafCount, leaves)
  {
    var state := new nat[depth](i requires 0 <= i < depth => frontier[i]);
    assert state[..] == frontier;
    var root := Zero(hash, depth);
    var count := leafCount;
    for i := 0 to |leaves|
      invariant count == leafCount + i
      invariant Appended(root, state[..]) == Extend(hash, frontier, leafCount, leaves[..i])
    {
      var node := leaves[i];
      ghost var before := state[..];
      for level := 0 to depth
        invariant Push(hash, state[..], count, level, node) == Push(hash, before, count, 0, leaves[i])
      {
        if Shr(count, level) % 2 == 0 {
          assert state[..][level := node] == state[..level] + [node] + state[level + 1..];
          state[level] := node;
          node := hash(node, Zero(hash, level));
        } else {
          node := hash(state[level], node);
        }
      }
      root := node;
      count := count + 1;
      assert leaves[..i + 1][..i] == leaves[..i];
    }
    assert leaves[..|leaves|] == leaves;
    return Appended(root, state[..]);
  }

  /** The value a live entry holds at a level: the root of the complete subtree
      to the left of the next leaf's path. */
  ghost predicate LiveEntry(hash: Hasher, entry: nat, leaves: seq<nat>, level: nat) {
    Shr(|leaves|, level) % 2 == 1 ==> entry == Node(hash, leaves, level, Shr(|leaves|, level) - 1)
  }

  ghost predicate LiveFrom(hash: Hasher, frontier: seq<nat>, leaves: seq<nat>, from: nat) {
    forall level :: from <= level < |frontier| ==> LiveEntry(hash, frontier[level], leaves, level)
  }

  /** The frontier entry at each set bit of the leaf count is the root of the
      complete left subtree at that level; other entries are unconstrained. */
  ghost predicate Live(hash: Hasher, frontier: seq<nat>, leaves: seq<nat>) {
    LiveFrom(hash, frontier, leaves, 0)
  }

  lemma StepUp(hash: Hasher, leaves: seq<nat>, level: nat, at: nat, entry: nat, node: nat)
    requires node == Node(hash, leaves, level, at)
    requires at % 2 == 0 ==> Node(hash, leaves, level, at + 1) == Zero(hash, level)
    requires at % 2 == 1 ==> Node(hash, leaves, level, at - 1) == entry
    ensures Node(hash, leaves, level + 1, at / 2)
         == if at % 2 == 0 then hash(node, Zero(hash, level)) else hash(entry, node)
  {
    ParentOfPair(hash, leaves, level, at);
  }

  lemma EntryStaysLive(hash: Hasher, leaves: seq<nat>, level: nat, at: nat, next: nat, entry: nat, node: nat)
    requires next == Shr(|leaves|, level) && at <= next <= at + 1
    requires at % 2 == 0 ==> node == Node(hash, leaves, level, at)
    requires at % 2 == 1 ==> Node(hash, leaves, level, at - 1) == entry
    ensures LiveEntry(hash, if at % 2 == 0 then node else entry, leaves, level)
  {
  }

  /** One level of a push: the carried node stays the path's node one level up,
      and the entry left behind is live for the longer list. */
  lemma LevelStep(hash: Hasher, leaves: seq<nat>, leaf: nat, level: nat, entry: nat, node: nat)
    requires node == Node(hash, leaves + [leaf], level, Shr(|leaves|, level))
    requires LiveEntry(hash, entry, leaves, level)
    ensures var even := Shr(|leaves|, level) % 2 == 0;
      && Node(hash, leaves + [leaf], level + 1, Shr(|leaves|, level + 1))
        == (if even then hash(node, Zero(hash, level)) else hash(entry, node))
      && LiveEntry(hash, if even then node else entry, leaves + [leaf], level)
  {
    var grown, at := leaves + [leaf], Shr(|leaves|, level);
    if at % 2 == 0 {
      EmptySubtree(hash, grown, level, at + 1);
    } else {
      FullSubtreeIsStable(hash, leaves, leaf, level, at - 1);
    }
    StepUp(hash, grown, level, at, entry, node);
    ShrSucc(|leaves|, level);
    EntryStaysLive(hash, grown, level, at, Shr(|grown|, level), entry, node);
  }

  lemma {:induction false} PushKeepsBelow(hash: Hasher, frontier: seq<nat>, count: nat, level: nat, node: nat)
    requires level <= |frontier|
    ensures Push(hash, frontier, count, level, node).frontier[..level] == frontier[..level]
    decreases |frontier| - level
  {
    if level < |frontier| {
      var even := Shr(count, level) % 2 == 0;
      var next := if even then frontier[level := node] else frontier;
      var parent := if even then hash(node, Zero(hash, level)) else hash(frontier[level], node);
      PushKeepsBelow(hash, next, count, level + 1, parent);
      var r := Push(hash, frontier, count, level, node).frontier;
      assert r[..level] == r[..level + 1][..level] == next[..level + 1][..level] == next[..level];
    }
  }

  lemma {:induction false} PushIsNode(hash: Hasher, frontier: seq<nat>, leaves: seq<nat>, leaf: nat, level: nat, node: nat)
    requires level <= |frontier|
    requires node == Node(hash, leaves + [leaf], level, Shr(|leaves|, level))
    requires LiveFrom(hash, frontier, leaves, level)
    ensures var r := Push(hash, frontier, |leaves|, level, node);
      && r.root == Node(hash, leaves + [leaf], |frontier|, Shr(|leaves|, |frontier|))
      && LiveFrom(hash, r.frontier, leaves + [leaf], level)
    decreases |frontier| - level
  {
    if level < |frontier| {
      LevelStep(hash, leaves, leaf, level, frontier[level], node);
      var even := Shr(|leaves|, level) % 2 == 0;
      var next := if even then frontier[level := node] else frontier;
      var parent := if even then hash(node, Zero(hash, level)) else hash(frontier[level], node);
      PushIsNode(hash, next, leaves, leaf, level + 1, parent);
      PushKeepsBelow(hash, next, |leaves|, level + 1, parent);
      var r := Push(hash, next, |leaves|, level + 1, parent);
      assert r.frontier[level] == r.frontier[..level + 1][level] == next[..level + 1][level];
      LiveFromBelow(hash, r.frontier, leaves + [leaf], level);
    }
  }

  lemma LiveFromBelow(hash: Hasher, frontier: seq<nat>, leaves: seq<nat>, level: nat)
    requires level < |frontier| && LiveEntry(hash, frontier[level], leaves, level)
    requires LiveFrom(hash, frontier, leaves, level + 1)
    ensures LiveFrom(hash, frontier, leaves, level)
  {
  }

  /** One leaf: the perfect root, and a frontier live for the longer list. */
  lemma PushIsTreeRoot(hash: Hasher, frontier: seq<nat>, leaves: seq<nat>, leaf: nat)
    requires Live(hash, frontier, leaves) && |leaves| < Pow2(|frontier|)
    ensures var r := Push(hash, frontier, |leaves|, 0, leaf);
      r.root == TreeRoot(hash, leaves + [leaf], |frontier|) && Live(hash, r.frontier, leaves + [leaf])
  {
    PushIsNode(hash, frontier, leaves, leaf, 0, leaf);
    ShrBelowCapacity(|leaves|, |frontier|);
    TopNodeIsTreeRoot(hash, leaves + [leaf], |frontier|);
  }

  /** From any frontier live for a prefix, the fast append returns the perfect
      tree's root and leaves the frontier live for the longer list. */
  lemma {:induction false} ExtendIsTreeRoot(hash: Hasher, frontier: seq<nat>, prefix: seq<nat>, leaves: seq<nat>)
    requires Live(hash, frontier, prefix)
    requires |prefix| + |leaves| <= Pow2(|frontier|)
    ensures var r := Extend(hash, frontier, |prefix|, leaves);
      && Live(hash, r.frontier, prefix + leaves)
      && (leaves != [] ==> r.root == TreeRoot(hash, prefix + leaves, |frontier|))
  {
    if leaves == [] {
      assert prefix + leaves == prefix;
    } else {
      var last := |leaves| - 1;
      var done := prefix + leaves[..last];
      ExtendIsTreeRoot(hash, frontier, prefix, leaves[..last]);
      PushIsTreeRoot(hash, Extend(hash, frontier, |prefix|, leaves[..last]).frontier, done, leaves[last]);
      assert done + [leaves[last]] == prefix + leaves;
    }
  }

  lemma FullWindow(leaves: seq<nat>, start: nat, size: nat)
    requires start + size <= |leaves|
    ensures Window(leaves, start, size) == leaves[start..start + size]
  {
    var w, s := Window(leaves, start, size), leaves[start..start + size];
    assert forall k :: 0 <= k < size ==> w[k] == s[k];
  }

  lemma BlockRoot(hash: Hasher, leaves: seq<nat>, level: nat, index: nat, start: nat)
    requires start == index * Pow2(level) && start + Pow2(level) <= |leaves|
    ensures Node(hash, leaves, level, index) == PerfectRoot(hash, leaves[start..start + Pow2(level)], level)
  {
    NodeIsPerfect(hash, leaves, level, index);
    FullWindow(leaves, start, Pow2(level));
  }

  /** A live entry, spelled out: the perfect root of a full block of real leaves. */
  lemma LiveEntryIsCompleteSubtree(hash: Hasher, entry: nat, leaves: seq<nat>, level: nat, start: nat)
    requires LiveEntry(hash, entry, leaves, level) && Shr(|leaves|, level) % 2 == 1
    requires start == (Shr(|leaves|, level) - 1) * Pow2(level)
    ensures start + Pow2(level) <= |leaves|
    ensures entry == PerfectRoot(hash, leaves[start..start + Pow2(level)], level)
  {
    BlockFits(|leaves|, level, start);
    BlockRoot(hash, leaves, level, Shr(|leaves|, level) - 1, start);
  }

  lemma BlockFits(n: nat, level: nat, start: nat)
    requires Shr(n, level) >= 1 && start == (Shr(n, level) - 1) * Pow2(level)
    ensures start + Pow2(level) <= n
  {
    ShrIsDivision(n, level);
    Distribute(Shr(n, level), Pow2(level));
  }

  lemma Distribute(q: nat, p: nat)
    ensures (q - 1) * p + p == q * p
  {
  }

  function InitialFrontier(hash: Hasher, depth: nat): (f: seq<nat>)
    ensures |f| == depth
  {
    seq(depth, (level: nat) => Zero(hash, level))
  }

  lemma {:induction false} ShrOfZero(level: nat)
    ensures Shr(0, level) == 0
  {
    if level > 0 {
      ShrOfZero(level - 1);
    }
  }

  /** No bit of a zero count is set, so any frontier is live for the empty list. */
  lemma AnyFrontierIsLiveForEmpty(hash: Hasher, frontier: seq<nat>)
    ensures Live(hash, frontier, [])
  {
    forall level: nat {
      ShrOfZero(level);
    }
  }

  /** The fast append from the initial state is the simple tree, for every depth
      and every list that fits. */
  lemma AppendFromEmpty(hash: Hasher, leaves: seq<nat>, depth: nat)
    requires |leaves| <= Pow2(depth)
    ensures var r := Extend(hash, InitialFrontier(hash, depth), 0, leaves);
      && r.root == TreeRoot(hash, leaves, depth)
      && Live(hash, r.frontier, leaves)
  {
    var start := InitialFrontier(hash, depth);
    AnyFrontierIsLiveForEmpty(hash, start);
    ExtendIsTreeRoot(hash, start, [], leaves);
    assert [] + leaves == leaves;
    if leaves == [] {
      EmptySubtree(hash, leaves, depth, 0);
      TopNodeIsTreeRoot(hash, leaves, depth);
    }
  }

  /** Appending A and then B from the returned frontier is appending A + B,
      whatever frontier and count the first call started from. */
  lemma {:induction false} ExtendSplits(hash: Hasher, frontier: seq<nat>, count: nat, a: seq<nat>, b: seq<nat>)
    ensures var mid := Extend(hash, frontier, count, a).frontier;
      && Extend(hash, mid, count + |a|, b).frontier == Extend(hash, frontier, count, a + b).frontier
      && (b != [] ==> Extend(hash, mid, count + |a|, b) == Extend(hash, frontier, count, a + b))
  {
    if b == [] {
      assert a + b == a;
    } else {
      var last := |b| - 1;
      ExtendSplits(hash, frontier, count, a, b[..last]);
      assert (a + b)[..|a + b| - 1] == a + b[..last];
    }
  }

  ghost predicate AgreeOnSetBits(f: seq<nat>, g: seq<nat>, count: nat, from: nat) {
    && |f| == |g|
    && forall l :: from <= l < |f| && Shr(count, l) % 2 == 1 ==> f[l] == g[l]
  }

  lemma {:induction false} PushIgnoresDeadEntries(hash: Hasher, f: seq<nat>, g: seq<nat>, count: nat, level: nat, node: nat)
    requires level <= |f| && AgreeOnSetBits(f, g, count, level) && f[..level] == g[..level]
    ensures Push(hash, f, count, level, node) == Push(hash, g, count, level, node)
    decreases |f| - level
  {
    if level == |f| {
      assert f == f[..level] && g == g[..level];
    } else if Shr(count, level) % 2 == 0 {
      var f', g' := f[level := node], g[level := node];
      assert f'[..level + 1] == f[..level] + [node];
      assert g'[..level + 1] == g[..level] + [node];
      PushIgnoresDeadEntries(hash, f', g', count, level + 1, hash(node, Zero(hash, level)));
    } else {
      assert f[..level + 1] == f[..level] + [f[level]];
      assert g[..level + 1] == g[..level] + [g[level]];
      PushIgnoresDeadEntries(hash, f, g, count, level + 1, hash(f[level], node));
    }
  }

  /** Entries at unset bits of the count never influence a result: two frontiers
      that agree at the set bits give the same root and the same whole frontier. */
  lemma {:induction false} DeadEntriesAreIrrelevant(hash: Hasher, f: seq<nat>, g: seq<nat>, count: nat, leaves: seq<nat>)
    requires AgreeOnSetBits(f, g, count, 0) && leaves != []
    ensures Extend(hash, f, count, leaves) == Extend(hash, g, count, leaves)
  {
    var last := |leaves| - 1;
    if last > 0 {
      DeadEntriesAreIrrelevant(hash, f, g, count, leaves[..last]);
    } else {
      assert leaves[..last] == [];
      PushIgnoresDeadEntries(hash, f, g, count, 0, leaves[0]);
    }
  }

  // ---------------------------------------------------------------------------
  // The service's entry points.
  // ---------------------------------------------------------------------------

  predicate ValidDepth(depth: int) {
    1 <= depth <= MAX_DEPTH
  }

  method Append(hash: Hasher, frontier: seq<nat>, leafCount: nat, leaves: seq<nat>, depth: int)
    returns (r: Result<Appended, MerkleError>)
    ensures !(1 <= depth <= 32) ==> r == Err(BadDepth)
    ensures 1 <= depth <= 32 && (|frontier| != depth || leaves == [] || leafCount + |leaves| > Pow2(depth))
      ==> r == Err(InvalidUpdate)
    ensures 1 <= depth <= 32 && |frontier| == depth && leaves != [] && leafCount + |leaves| <= Pow2(depth)
      ==> r == Ok(Extend(hash, frontier, leafCount, leaves))
  {
    if !ValidDepth(depth) {
      return Err(BadDepth);
    }
    if |frontier| != depth || leaves == [] || leafCount + |leaves| > Pow2(depth) {
      return Err(InvalidUpdate);
    }
    var appended := AppendReference(hash, frontier, leafCount, leaves, depth);
    return Ok(appended);
  }

  /** What `compute_root_from_leaves` returns: an error, or the perfect root. */
  ghost function RootSpec(hash: Hasher, leaves: seq<nat>, depth: int): Result<nat, MerkleError> {
    if !ValidDepth(depth) then Err(BadDepth)
    else if |leaves| > Pow2(depth) then Err(TooManyLeaves)
    else Ok(TreeRoot(hash, leaves, depth))
  }

  method ComputeRootFromLeaves(hash: Hasher, leaves: seq<nat>, depth: int) returns (r: Result<nat, MerkleError>)
    ensures r == RootSpec(hash, leaves, depth)
    ensures !(1 <= depth <= 32) ==> r == Err(BadDepth)
    ensures 1 <= depth <= 32 && |leaves| > Pow2(depth) ==> r == Err(TooManyLeaves)
    ensures 1 <= depth <= 32 && |leaves| <= Pow2(depth) ==> r == Ok(TreeRoot(hash, leaves, depth))
  {
    if !ValidDepth(depth) {
      return Err(BadDepth);
    }
    if |leaves| > Pow2(depth) {
      return Err(TooManyLeaves);
    }
    AppendFromEmpty(hash, leaves, depth);
    if leaves == [] {
      r := GetZeroValue(hash, depth);
      return;
    }
    var appended := Append(hash, InitialFrontier(hash, depth), 0, leaves, depth);
    return Ok(appended.value.root);
  }

  // ---------------------------------------------------------------------------
  // Sibling paths.
  // ---------------------------------------------------------------------------

  function GetOr(nodes: map<nat, nat>, key: nat, default: nat): nat {
    if key in nodes then nodes[key] else default
  }

  /** `max(nodes, default=-1)`. */
  method LargestKey(nodes: map<nat, nat>) returns (k: int)
    ensures k >= -1 && (k == -1 <==> nodes.Keys == {})
    ensures k != -1 ==> k in nodes.Keys
    ensures forall j :: j in nodes.Keys ==> j <= k
  {
    k := -1;
    var rest := nodes.Keys;
    while rest != {}
      invariant rest <= nodes.Keys && k >= -1
      invariant k == -1 ==> rest == nodes.Keys
      invariant k != -1 ==> k in nodes.Keys
      invariant forall j :: j in nodes.Keys && j !in rest ==> j <= k
      decreases |rest|
    {
      var j :| j in rest;
      k := if j > k then j else k;
      rest := rest - {j};
    }
  }

  ghost predicate LevelMap(hash: Hasher, nodes: map<nat, nat>, leaves: seq<nat>, level: nat)
    requires leaves != []
  {
    && (forall i: nat :: i in nodes <==> i <= Shr(|leaves| - 1, level))
    && (forall i: nat :: i in nodes ==> nodes[i] == Node(hash, leaves, level, i))
  }

  lemma GetFromLevelMap(hash: Hasher, nodes: map<nat, nat>, leaves: seq<nat>, level: nat, i: nat)
    requires leaves != [] && LevelMap(hash, nodes, leaves, level)
    ensures GetOr(nodes, i, Zero(hash, level)) == Node(hash, leaves, level, i)
  {
    if i !in nodes {
      EmptySubtree(hash, leaves, level, i);
    }
  }

  /** Every entry is the true sibling at its level of the padded tree. */
  ghost predicate IsSiblingPath(hash: Hasher, leaves: seq<nat>, index: nat, path: seq<nat>) {
    forall l :: 0 <= l < |path| ==> path[l] == Node(hash, leaves, l, Sibling(Shr(index, l)))
  }

  function ParentLevel(hash: Hasher, nodes: map<nat, nat>, largest: int, zero: nat): map<nat, nat>
    requires largest >= -1
  {
    map p: nat | 0 <= p < (if largest < 0 then 0 else largest / 2 + 1) ::
      hash(GetOr(nodes, 2 * p, zero), GetOr(nodes, 2 * p + 1, zero))
  }

  lemma LargestKeyOfLevel(hash: Hasher, nodes: map<nat, nat>, leaves: seq<nat>, level: nat, largest: int)
    requires leaves != [] && LevelMap(hash, nodes, leaves, level)
    requires largest >= -1 && (largest != -1 ==> largest in nodes.Keys) && (largest == -1 <==> nodes.Keys == {})
    requires forall j :: j in nodes.Keys ==> j <= largest
    ensures largest == Shr(|leaves| - 1, level)
  {
    var last := Shr(|leaves| - 1, level);
    assert last in nodes;
  }

  lemma ParentLevelIsLevel(hash: Hasher, nodes: map<nat, nat>, leaves: seq<nat>, level: nat)
    requires leaves != [] && LevelMap(hash, nodes, leaves, level)
    ensures LevelMap(hash, ParentLevel(hash, nodes, Shr(|leaves| - 1, level), Zero(hash, level)), leaves, level + 1)
  {
    var parents := ParentLevel(hash, nodes, Shr(|leaves| - 1, level), Zero(hash, level));
    forall p: nat | p in parents
      ensures parents[p] == Node(hash, leaves, level + 1, p)
    {
      GetFromLevelMap(hash, nodes, leaves, level, 2 * p);
      GetFromLevelMap(hash, nodes, leaves, level, 2 * p + 1);
    }
  }

  lemma SiblingPathGrows(hash: Hasher, leaves: seq<nat>, index: nat, path: seq<nat>, next: nat)
    requires IsSiblingPath(hash, leaves, index, path)
    requires next == Node(hash, leaves, |path|, Sibling(Shr(index, |path|)))
    ensures IsSiblingPath(hash, leaves, index, path + [next])
  {
  }

  /** The level-by-level loop, once the arguments have been checked. */
  method SiblingsByLevel(hash: Hasher, leafIndex: nat, leaves: seq<nat>, depth: nat) returns (path: seq<nat>)
    requires leafIndex < |leaves|
    ensures |path| == depth && IsSiblingPath(hash, leaves, leafIndex, path)
  {
    var nodes: map<nat, nat> := map i: nat | 0 <= i < |leaves| :: leaves[i];
    path := [];
    var index: nat := leafIndex;
    for level := 0 to depth
      invariant |path| == level && index == Shr(leafIndex, level)
      invariant LevelMap(hash, nodes, leaves, level)
      invariant IsSiblingPath(hash, leaves, leafIndex, path)
    {
      var zero := Zero(hash, level);
      GetFromLevelMap(hash, nodes, leaves, level, Sibling(index));
      var sibling := GetOr(nodes, Sibling(index), zero);
      SiblingPathGrows(hash, leaves, leafIndex, path, sibling);
      path := path + [sibling];
      var largest := LargestKey(nodes);
      LargestKeyOfLevel(hash, nodes, leaves, level, largest);
      ParentLevelIsLevel(hash, nodes, leaves, level);
      nodes := ParentLevel(hash, nodes, largest, zero);
      index := index / 2;
    }
  }

  method ComputeMerklePath(hash: Hasher, leafIndex: int, leaves: seq<nat>, depth: int)
    returns (r: Result<seq<nat>, MerkleError>)
    ensures !(1 <= depth <= 32) ==> r == Err(BadDepth)
    ensures 1 <= depth <= 32 && (!(0 <= leafIndex < |leaves|) || |leaves| > Pow2(depth))
      ==> r == Err(InvalidLeafIndex)
    ensures 1 <= depth <= 32 && 0 <= leafIndex < |leaves| <= Pow2(depth)
      ==> r.Ok? && |r.value| == depth && IsSiblingPath(hash, leaves, leafIndex, r.value)
  {
    if !ValidDepth(depth) {
      return Err(BadDepth);
    }
    if !(0 <= leafIndex < |leaves|) || |leaves| > Pow2(depth) {
      return Err(InvalidLeafIndex);
    }
    var path := SiblingsByLevel(hash, leafIndex, leaves, depth);
    return Ok(path);
  }

  /** Hash a leaf up a path, choosing sides by the bits of its index. */
  function FoldPath(hash: Hasher, leaf: nat, index: nat, path: seq<nat>): nat
    decreases |path|
  {
    if path == [] then leaf
    else
      var top := |path| - 1;
      var below := FoldPath(hash, leaf, index, path[..top]);
      if Shr(index, top) % 2 == 0 then hash(below, path[top]) else hash(path[top], below)
  }

  lemma {:induction false} FoldIsNode(hash: Hasher, leaves: seq<nat>, index: nat, path: seq<nat>)
    requires index < |leaves| && IsSiblingPath(hash, leaves, index, path)
    ensures FoldPath(hash, leaves[index], index, path) == Node(hash, leaves, |path|, Shr(index, |path|))
    decreases |path|
  {
    if path != [] {
      var top := |path| - 1;
      FoldIsNode(hash, leaves, index, path[..top]);
      ParentOfPair(hash, leaves, top, Shr(index, top));
    }
  }

  /** A path built level by level opens the root that the frontier loop returns. */
  lemma PathOpensRoot(hash: Hasher, leaves: seq<nat>, index: nat, path: seq<nat>)
    requires index < |leaves| <= Pow2(|path|)
    requires IsSiblingPath(hash, leaves, index, path)
    ensures FoldPath(hash, leaves[index], index, path)
         == TreeRoot(hash, leaves, |path|)
         == Extend(hash, InitialFrontier(hash, |path|), 0, leaves).root
  {
    FoldIsNode(hash, leaves, index, path);
    ShrBelowCapacity(index, |path|);
    TopNodeIsTreeRoot(hash, leaves, |path|);
    AppendFromEmpty(hash, leaves, |path|);
  }

  // ---------------------------------------------------------------------------
  // Checkpoints and resuming from them.
  // ---------------------------------------------------------------------------

  /** The JSON stored beside a root; every key may be missing. */
  datatype TreeState = TreeState(version: Option<int>, hashScheme: Option<string>, depth: Option<int>, frontier: Option<seq<nat>>)

  datatype Checkpoint = Checkpoint(root: nat, leafCount: nat, ledger: int, treeState: TreeState)

  predicate Tagged(state: TreeState, depth: int) {
    && state.version == Some(1) && state.hashScheme == Some(HASH_SCHEME) && state.depth == Some(depth)
    && state.frontier.Some? && |state.frontier.value| == depth
  }

  function CurrentState(depth: int, frontier: seq<nat>): TreeState {
    TreeState(Some(1), Some("legacy-poseidon2-sha256-bn254-v1"), Some(depth), Some(frontier))
  }

  datatype Resume = Resume(count: nat, frontier: seq<nat>)

  /** `range(depth)` has this many levels. */
  function Levels(depth: int): nat {
    if depth < 0 then 0 else depth
  }

  /** The stored state is reused only when its tags match; otherwise the frontier is
      rebuilt from the prefix. */
  method StateForCheckpoint(hash: Hasher, previous: Option<Checkpoint>, prefix: seq<nat>, depth: int)
    returns (r: Result<Resume, MerkleError>)
    ensures previous.Some? && Tagged(previous.value.treeState, depth)
      ==> r == Ok(Resume(previous.value.leafCount, previous.value.treeState.frontier.value))
    ensures forall root, count, ledger, f ::
      |f| == depth && previous == Some(Checkpoint(root, count, ledger, CurrentState(depth, f))) ==> r == Ok(Resume(count, f))
    ensures !(previous.Some? && Tagged(previous.value.treeState, depth)) ==>
      r == if prefix == [] || (ValidDepth(depth) && |prefix| <= Pow2(Levels(depth)))
           then Ok(Resume(|prefix|, Extend(hash, InitialFrontier(hash, Levels(depth)), 0, prefix).frontier))
           else Err(if 1 <= depth <= 32 then InvalidUpdate else BadDepth)
  {
    if previous.Some? {
      var state := previous.value.treeState;
      if Tagged(state, depth) {
        return Ok(Resume(previous.value.leafCount, state.frontier.value));
      }
    }
    var start := InitialFrontier(hash, Levels(depth));
    if prefix == [] {
      return Ok(Resume(0, start));
    }
    var appended := Append(hash, start, 0, prefix, depth);
    match appended {
      case Err(e) => return Err(e);
      case Ok(a) => return Ok(Resume(|prefix|, a.frontier));
    }
  }

  /** A stored state is sound for a prefix when its count is the prefix's length
      and its frontier is live for it. */
  ghost predicate SoundFor(hash: Hasher, checkpoint: Checkpoint, prefix: seq<nat>) {
    && checkpoint.leafCount == |prefix|
    && checkpoint.treeState.frontier.Some?
    && Live(hash, checkpoint.treeState.frontier.value, prefix)
  }

  /** `_initial_state`. */
  function InitialState(hash: Hasher, depth: nat): TreeState {
    CurrentState(depth, InitialFrontier(hash, depth))
  }

  /** The initial state is one that resuming accepts, and it is sound for no leaves. */
  lemma InitialStateResumes(hash: Hasher, depth: nat, root: nat, ledger: int)
    ensures Tagged(InitialState(hash, depth), depth)
    ensures SoundFor(hash, Checkpoint(root, 0, ledger, InitialState(hash, depth)), [])
  {
    AppendFromEmpty(hash, [], depth);
  }

  /** Resuming from a sound tagged checkpoint and rebuilding from the prefix give
      the same root, frontier included, and it is the full tree's root. */
  lemma ResumeEqualsRebuild(hash: Hasher, checkpoint: Checkpoint, prefix: seq<nat>, leaves: seq<nat>, depth: nat)
    requires Tagged(checkpoint.treeState, depth) && SoundFor(hash, checkpoint, prefix)
    requires leaves != [] && |prefix| + |leaves| <= Pow2(depth)
    ensures var resumed := Extend(hash, checkpoint.treeState.frontier.value, checkpoint.leafCount, leaves);
      var rebuilt := Extend(hash, InitialFrontier(hash, depth), 0, prefix).frontier;
      && resumed == Extend(hash, rebuilt, |prefix|, leaves)
      && resumed.root == TreeRoot(hash, prefix + leaves, depth)
  {
    AppendFromEmpty(hash, prefix, depth);
    var rebuilt := Extend(hash, InitialFrontier(hash, depth), 0, prefix).frontier;
    var stored := checkpoint.treeState.frontier.value;
    assert AgreeOnSetBits(stored, rebuilt, |prefix|, 0);
    DeadEntriesAreIrrelevant(hash, stored, rebuilt, |prefix|, leaves);
    ExtendIsTreeRoot(hash, stored, prefix, leaves);
  }
}
