/**
 The Merkle tree over entry hashes (`gateway/src/evidence.rs`). A level with an
 odd number of nodes pairs its last node with itself.
 */
module Merkle {
  import opened Bytes
  import opened Wrappers
  import opened Evidence

  datatype Side = Left | Right

  /** A sibling hash and the side it sits on. */
  datatype ProofNode = ProofNode(hash: Digest, side: Side)

  function PairPreimage(left: Digest, right: Digest): (p: seq<Byte>)
    ensures |p| == 64
  {
    left + right
  }

  /** The left child's bytes, then the right child's. */
  lemma PairLayout(left: Digest, right: Digest)
    ensures PairPreimage(left, right)[..32] == left && PairPreimage(left, right)[32..] == right
  {
  }

  function HashPair(h: Hash, left: Digest, right: Digest): Digest {
    h(PairPreimage(left, right))
  }

  function CeilHalf(n: nat): nat {
    (n + 1) / 2
  }

  /** The right-hand partner of node 2i, which is node 2i itself at an odd end. */
  function Partner(level: seq<Digest>, i: nat): Digest
    requires 2 * i < |level|
  {
    if 2 * i + 1 < |level| then level[2 * i + 1] else level[2 * i]
  }

  function Parent(h: Hash, level: seq<Digest>, i: nat): Digest
    requires 2 * i < |level|
  {
    HashPair(h, level[2 * i], Partner(level, i))
  }

  /** The level above. */
  function Parents(h: Hash, level: seq<Digest>): (up: seq<Digest>)
    ensures |up| == CeilHalf(|level|)
    ensures forall i :: 0 <= i < |up| ==> up[i] == Parent(h, level, i)
  {
    seq(CeilHalf(|level|), i requires 0 <= i < CeilHalf(|level|) => Parent(h, level, i))
  }

  /** All levels, leaves first. */
  function Levels(h: Hash, leaves: seq<Digest>): (levels: seq<seq<Digest>>)
    decreases |leaves|
  {
    if |leaves| == 0 then []
    else if |leaves| == 1 then [leaves]
    else [leaves] + Levels(h, Parents(h, leaves))
  }

  /** The root, computed level by level. */
  function RootOf(h: Hash, leaves: seq<Digest>): Digest
    decreases |leaves|
  {
    if |leaves| == 0 then EMPTY_ROOT
    else if |leaves| == 1 then leaves[0]
    else RootOf(h, Parents(h, leaves))
  }

  /** How many times a level of n nodes is halved before one node is left. */
  function Height(n: nat): nat {
    if n <= 1 then 0 else 1 + Height(CeilHalf(n))
  }

  function Pow2(k: nat): (p: nat)
    ensures p >= 1
  {
    if k == 0 then 1 else 2 * Pow2(k - 1)
  }

  // ---- the tree as built by the loop ----

  /** Each level is half the one below, rounded up, and the last has one node. */
  predicate Shaped(levels: seq<seq<Digest>>) {
    && (levels != [] ==> |levels[|levels| - 1]| == 1)
    && (forall k :: 0 <= k < |levels| - 1 ==> |levels[k]| > 1 && |levels[k + 1]| == CeilHalf(|levels[k]|))
  }

  datatype MerkleTree = MerkleTree(levels: seq<seq<Digest>>) {
    function Root(): Digest {
      if levels != [] && levels[|levels| - 1] != [] then levels[|levels| - 1][0] else EMPTY_ROOT
    }

    function LeafCount(): nat {
      if levels == [] then 0 else |levels[0]|
    }

    /** The siblings on the way from leaf `index` to the root; None when out of range. */
    method Proof(index: nat) returns (r: Option<seq<ProofNode>>)
      requires Shaped(levels)
      ensures r == if index < LeafCount() then Some(PathFrom(levels, 0, index)) else None
    {
      if index >= LeafCount() {
        return None;
      }
      var proof: seq<ProofNode> := [];
      var idx := index;
      for k := 0 to |levels| - 1
        invariant 0 <= idx < |levels[k]|
        invariant proof + PathFrom(levels, k, idx) == PathFrom(levels, 0, index)
      {
        var level := levels[k];
        var siblingIdx := if idx % 2 == 0 then idx + 1 else idx - 1;
        var sibling := if siblingIdx < |level| then level[siblingIdx] else level[idx];
        var node := ProofNode(sibling, if idx % 2 == 0 then Right else Left);
        AppendStep(proof, levels, k, idx, node);
        proof := proof + [node];
        idx := idx / 2;
      }
      assert proof + [] == proof;
      return Some(proof);
    }
  }

  /** The sibling of node i of a level. */
  function Sibling(level: seq<Digest>, i: nat): ProofNode
    requires i < |level|
  {
    if i % 2 == 1 then ProofNode(level[i - 1], Left)
    else ProofNode(Partner(level, i / 2), Right)
  }

  /** The siblings met on the way up from node idx of level k. */
  function PathFrom(levels: seq<seq<Digest>>, k: nat, idx: nat): seq<ProofNode>
    requires Shaped(levels) && k < |levels| && idx < |levels[k]|
    decreases |levels| - k
  {
    if k == |levels| - 1 then []
    else
      assert |levels[k + 1]| == CeilHalf(|levels[k]|);
      [Sibling(levels[k], idx)] + PathFrom(levels, k + 1, idx / 2)
  }

  lemma AppendStep(proof: seq<ProofNode>, levels: seq<seq<Digest>>, k: nat, idx: nat, node: ProofNode)
    requires Shaped(levels) && k < |levels| - 1 && idx < |levels[k]|
    requires node == Sibling(levels[k], idx)
    ensures idx / 2 < |levels[k + 1]|
    ensures (proof + [node]) + PathFrom(levels, k + 1, idx / 2) == proof + PathFrom(levels, k, idx)
  {
    assert |levels[k + 1]| == CeilHalf(|levels[k]|);
  }

  lemma {:induction false} PathFromShift(first: seq<Digest>, rest: seq<seq<Digest>>, k: nat, idx: nat)
    requires Shaped([first] + rest) && Shaped(rest) && k < |rest| && idx < |rest[k]|
    ensures PathFrom([first] + rest, k + 1, idx) == PathFrom(rest, k, idx)
    decreases |rest| - k
  {
    if k < |rest| - 1 {
      assert |rest[k + 1]| == CeilHalf(|rest[k]|);
      PathFromShift(first, rest, k + 1, idx / 2);
    }
  }

  /** One level up, pairing as the gateway's inner loop does. */
  method NextLevel(h: Hash, current: seq<Digest>) returns (next: seq<Digest>)
    ensures next == Parents(h, current)
  {
    next := [];
    var i := 0;
    while i < |current|
      invariant 0 <= i <= |current| + 1 && i % 2 == 0
      invariant |next| == i / 2 && |next| <= CeilHalf(|current|)
      invariant forall j :: 0 <= j < |next| ==> next[j] == Parent(h, current, j)
    {
      var left := current[i];
      var right := if i + 1 < |current| then current[i + 1] else left;
      assert HashPair(h, left, right) == Parent(h, current, i / 2);
      next := next + [HashPair(h, left, right)];
      i := i + 2;
    }
  }

  /** Builds the levels bottom up, as the gateway's two nested loops do. */
  method NewTree(h: Hash, leaves: seq<Digest>) returns (t: MerkleTree)
    ensures t.levels == Levels(h, leaves)
    ensures Shaped(t.levels)
    ensures t.LeafCount() == |leaves|
    ensures t.Root() == RootOf(h, leaves)
  {
    LevelsFacts(h, leaves);
    if |leaves| == 0 {
      return MerkleTree([]);
    }
    var levels := [leaves];
    while |levels[|levels| - 1]| > 1
      invariant Stacked(h, leaves, levels)
      decreases |levels[|levels| - 1]|
    {
      var next := NextLevel(h, levels[|levels| - 1]);
      ghost var before := levels;
      levels := levels + [next];
      forall k | 0 <= k < |levels| - 1 ensures Below(h, levels, k) {
        assert k < |before| - 1 ==> Below(h, before, k);
      }
    }
    StackedIsLevels(h, leaves, levels);
    return MerkleTree(levels);
  }

  ghost predicate Below(h: Hash, levels: seq<seq<Digest>>, k: nat)
    requires k + 1 < |levels|
  {
    |levels[k]| > 1 && levels[k + 1] == Parents(h, levels[k])
  }

  /** A partly built tree: every level the parents of the one below. */
  ghost predicate Stacked(h: Hash, leaves: seq<Digest>, levels: seq<seq<Digest>>) {
    && levels != [] && levels[0] == leaves
    && |levels[|levels| - 1]| > 0
    && (forall k :: 0 <= k < |levels| - 1 ==> Below(h, levels, k))
  }

  lemma {:induction false} StackedIsLevels(h: Hash, leaves: seq<Digest>, levels: seq<seq<Digest>>)
    requires Stacked(h, leaves, levels)
    requires |levels[|levels| - 1]| == 1
    ensures levels == Levels(h, leaves)
    decreases |levels|
  {
    if |levels| > 1 {
      var rest := levels[1..];
      assert Below(h, levels, 0);
      forall k | 0 <= k < |rest| - 1 ensures Below(h, rest, k) {
        assert Below(h, levels, k + 1);
      }
      StackedIsLevels(h, Parents(h, leaves), rest);
    }
  }

  lemma {:induction false} LevelsFacts(h: Hash, leaves: seq<Digest>)
    ensures Shaped(Levels(h, leaves))
    ensures MerkleTree(Levels(h, leaves)).LeafCount() == |leaves|
    ensures MerkleTree(Levels(h, leaves)).Root() == RootOf(h, leaves)
    ensures |leaves| > 0 ==> |Levels(h, leaves)| == Height(|leaves|) + 1 && Levels(h, leaves)[0] == leaves
    decreases |leaves|
  {
    if |leaves| > 1 {
      var rest := Levels(h, Parents(h, leaves));
      LevelsFacts(h, Parents(h, leaves));
      var all := Levels(h, leaves);
      assert all == [leaves] + rest;
      forall k | 0 <= k < |all| - 1 ensures |all[k]| > 1 && |all[k + 1]| == CeilHalf(|all[k]|) {
        if k > 0 {
          assert all[k] == rest[k - 1] && all[k + 1] == rest[k];
        }
      }
      assert all[|all| - 1] == rest[|rest| - 1];
    }
  }

  // ---- proofs ----

  function Combine(h: Hash, current: Digest, node: ProofNode): Digest {
    match node.side
    case Right => HashPair(h, current, node.hash)
    case Left => HashPair(h, node.hash, current)
  }

  /** The root a leaf and a proof lead to. */
  function Climb(h: Hash, leaf: Digest, proof: seq<ProofNode>): Digest {
    if proof == [] then leaf else Combine(h, Climb(h, leaf, proof[..|proof| - 1]), proof[|proof| - 1])
  }

  /** A sibling on the right is hashed second, one on the left first; nothing else is hashed. */
  lemma ClimbStep(h: Hash, leaf: Digest, proof: seq<ProofNode>, node: ProofNode)
    ensures Climb(h, leaf, []) == leaf
    ensures Climb(h, leaf, proof + [node]) ==
      (if node.side == Right then h(Climb(h, leaf, proof) + node.hash) else h(node.hash + Climb(h, leaf, proof)))
  {
    assert (proof + [node])[..|proof|] == proof;
    var c := Climb(h, leaf, proof);
    assert PairPreimage(c, node.hash) == c + node.hash;
    assert PairPreimage(node.hash, c) == node.hash + c;
  }

  /** The root of nothing is zero, of one leaf the leaf, of two the hash of the first followed by the second. */
  lemma SmallRoots(h: Hash, a: Digest, b: Digest)
    ensures RootOf(h, []) == seq(32, _ => 0)
    ensures RootOf(h, [a]) == a
    ensures RootOf(h, [a, b]) == h(a + b)
  {
    assert Zeros(32) == seq(32, _ => 0);
    assert Parents(h, [a, b]) == [h(a + b)];
  }

  method VerifyProof(h: Hash, leaf: Digest, proof: seq<ProofNode>, expectedRoot: Digest) returns (ok: bool)
    ensures ok <==> Climb(h, leaf, proof) == expectedRoot
  {
    var current := leaf;
    for i := 0 to |proof|
      invariant current == Climb(h, leaf, proof[..i])
    {
      assert proof[..i + 1][..i] == proof[..i];
      current := Combine(h, current, proof[i]);
    }
    assert proof[..|proof|] == proof;
    return current == expectedRoot;
  }

  lemma {:induction false} ClimbFirst(h: Hash, leaf: Digest, node: ProofNode, rest: seq<ProofNode>)
    ensures Climb(h, leaf, [node] + rest) == Climb(h, Combine(h, leaf, node), rest)
  {
    var all := [node] + rest;
    if rest == [] {
      assert all[..0] == [];
    } else {
      var init := rest[..|rest| - 1];
      ClimbFirst(h, leaf, node, init);
      assert all[..|all| - 1] == [node] + init;
      assert all[|all| - 1] == rest[|rest| - 1];
    }
  }

  /** The siblings from leaf `index` of this log up to its root. */
  function PathOf(h: Hash, leaves: seq<Digest>, index: nat): seq<ProofNode>
    requires index < |leaves|
  {
    LevelsFacts(h, leaves);
    PathFrom(Levels(h, leaves), 0, index)
  }

  lemma PathUnfolds(h: Hash, leaves: seq<Digest>, index: nat)
    requires index < |leaves| && |leaves| > 1
    ensures PathOf(h, leaves, index) == [Sibling(leaves, index)] + PathOf(h, Parents(h, leaves), index / 2)
  {
    var up := Parents(h, leaves);
    LevelsFacts(h, leaves);
    LevelsFacts(h, up);
    PathFromShift(leaves, Levels(h, up), 0, index / 2);
  }

  lemma SiblingGivesParent(h: Hash, level: seq<Digest>, i: nat)
    requires i < |level|
    ensures Combine(h, level[i], Sibling(level, i)) == Parent(h, level, i / 2)
  {
  }

  /**
   Completeness: for every log and every index, the path read off the levels
   leads to the root, one node per level.
   */
  lemma {:induction false} ProofReachesRoot(h: Hash, leaves: seq<Digest>, index: nat)
    requires index < |leaves|
    ensures Climb(h, leaves[index], PathOf(h, leaves, index)) == RootOf(h, leaves)
    ensures |PathOf(h, leaves, index)| == Height(|leaves|)
    decreases |leaves|
  {
    if |leaves| == 1 {
      LevelsFacts(h, leaves);
    } else {
      var up := Parents(h, leaves);
      ProofReachesRoot(h, up, index / 2);
      PathUnfolds(h, leaves, index);
      SiblingGivesParent(h, leaves, index);
      ClimbFirst(h, leaves[index], Sibling(leaves, index), PathOf(h, up, index / 2));
    }
  }

  /** The height is the least k with n <= 2^k. */
  lemma {:induction false} HeightIsLeast(n: nat, k: nat)
    requires n >= 1
    ensures n <= Pow2(k) <==> Height(n) <= k
  {
    if n > 1 && k > 0 {
      HeightIsLeast(CeilHalf(n), k - 1);
    }
  }

  datatype ProofDenial = NotFound | Unavailable

  /**
   The proof endpoint (`routes.rs`): looks the entry up by sequence number, builds
   the tree, reads off a proof and checks it before answering. The self-check
   never fails, so `Unavailable` is never the answer.
   */
  method EvidenceProof(h: Hash, entries: seq<EvidenceEntry>, sequenceId: I64)
      returns (r: Result<(nat, seq<ProofNode>, Digest), ProofDenial>)
    ensures r.Ok? <==> exists i :: 0 <= i < |entries| && entries[i].sequenceId == sequenceId
    ensures r.Err? ==> r.error == NotFound
    ensures r.Ok? ==> var (i, proof, root) := r.value;
              && i < |entries| && entries[i].sequenceId == sequenceId
              && root == RootOf(h, EntryHashes(entries))
              && Climb(h, entries[i].entryHash, proof) == root
              && |proof| == Height(|entries|)
  {
    var i := 0;
    while i < |entries| && entries[i].sequenceId != sequenceId
      invariant 0 <= i <= |entries|
      invariant forall j :: 0 <= j < i ==> entries[j].sequenceId != sequenceId
    {
      i := i + 1;
    }
    if i == |entries| {
      return Err(NotFound);
    }
    var leaves := EntryHashes(entries);
    var tree := NewTree(h, leaves);
    var proof := tree.Proof(i);
    ProofReachesRoot(h, leaves, i);
    var verified := VerifyProof(h, entries[i].entryHash, proof.value, tree.Root());
    if !verified {
      return Err(Unavailable);
    }
    return Ok((i, proof.value, tree.Root()));
  }

  // ---- the level-by-level root against a top-down definition ----

  /** Halves: the left one full, the right one possibly partial; an absent right half repeats the left. */
  function SplitRoot(h: Hash, leaves: seq<Digest>, k: nat): Digest
    requires 1 <= |leaves| <= Pow2(k)
  {
    if k == 0 then leaves[0]
    else
      var half := Pow2(k - 1);
      if |leaves| <= half
      then h(SplitRoot(h, leaves, k - 1) + SplitRoot(h, leaves, k - 1))
      else h(SplitRoot(h, leaves[..half], k - 1) + SplitRoot(h, leaves[half..], k - 1))
  }

  lemma ParentsSplit(h: Hash, leaves: seq<Digest>, m: nat)
    requires 2 * m <= |leaves|
    ensures Parents(h, leaves[..2 * m]) == Parents(h, leaves)[..m]
    ensures Parents(h, leaves[2 * m..]) == Parents(h, leaves)[m..]
  {
    forall i | 0 <= i < m ensures Parent(h, leaves[..2 * m], i) == Parent(h, leaves, i) {
    }
    forall i | 0 <= i < CeilHalf(|leaves|) - m ensures Parent(h, leaves[2 * m..], i) == Parent(h, leaves, m + i) {
      assert Partner(leaves[2 * m..], i) == Partner(leaves, m + i);
    }
  }

  lemma {:induction false} SplitRootOfParents(h: Hash, leaves: seq<Digest>, k: nat)
    requires 1 <= |leaves| <= Pow2(k + 1)
    ensures SplitRoot(h, leaves, k + 1) == SplitRoot(h, Parents(h, leaves), k)
  {
    var up := Parents(h, leaves);
    if k == 0 {
      assert Pow2(0) == 1;
      if |leaves| == 2 {
        assert SplitRoot(h, leaves[..1], 0) == leaves[0] && SplitRoot(h, leaves[1..], 0) == leaves[1];
      }
    } else {
      var half := Pow2(k);
      if |leaves| <= half {
        SplitRootOfParents(h, leaves, k - 1);
      } else {
        SplitRootOfParents(h, leaves[..half], k - 1);
        SplitRootOfParents(h, leaves[half..], k - 1);
        ParentsSplit(h, leaves, Pow2(k - 1));
      }
    }
  }

  /** The loop-built root is the recursive halving of the padded leaves. */
  lemma {:induction false} RootIsSplitRoot(h: Hash, leaves: seq<Digest>)
    requires |leaves| >= 1
    ensures |leaves| <= Pow2(Height(|leaves|))
    ensures RootOf(h, leaves) == SplitRoot(h, leaves, Height(|leaves|))
    decreases |leaves|
  {
    HeightIsLeast(|leaves|, Height(|leaves|));
    if |leaves| > 1 {
      RootIsSplitRoot(h, Parents(h, leaves));
      SplitRootOfParents(h, leaves, Height(CeilHalf(|leaves|)));
    }
  }

  lemma ParentsOfRepeatedTail(h: Hash, leaves: seq<Digest>)
    requires |leaves| % 2 == 1
    ensures Parents(h, leaves + [leaves[|leaves| - 1]]) == Parents(h, leaves)
  {
    var longer := leaves + [leaves[|leaves| - 1]];
    forall i | 0 <= i < CeilHalf(|leaves|) ensures Parent(h, longer, i) == Parent(h, leaves, i) {
      assert Partner(longer, i) == Partner(leaves, i);
    }
  }

  /** Pairing does not cross an even cut. */
  lemma ParentsConcat(h: Hash, a: seq<Digest>, b: seq<Digest>)
    requires |a| % 2 == 0
    ensures Parents(h, a + b) == Parents(h, a) + Parents(h, b)
  {
    var (whole, m) := (a + b, |a| / 2);
    ParentsSplit(h, whole, m);
    assert whole[..2 * m] == a && whole[2 * m..] == b;
    assert Parents(h, whole) == Parents(h, whole)[..m] + Parents(h, whole)[m..];
  }

  /**
   The weakness the chain has to close: when the nodes at depth k number odd and
   cover the leaves exactly, repeating the leaves under the last of them leaves the
   root unchanged, whatever the hash.
   */
  lemma {:induction false} RepeatedTailKeepsRoot(h: Hash, leaves: seq<Digest>, k: nat, nodes: nat)
    requires nodes > 1 && nodes % 2 == 1 && |leaves| == nodes * Pow2(k)
    ensures Pow2(k) <= |leaves|
    ensures RootOf(h, leaves + leaves[|leaves| - Pow2(k)..]) == RootOf(h, leaves)
    decreases k
  {
    var n := Pow2(k);
    assert nodes * n == n + (nodes - 1) * n;
    if k == 0 {
      assert leaves[|leaves| - 1..] == [leaves[|leaves| - 1]];
      ParentsOfRepeatedTail(h, leaves);
    } else {
      var half := Pow2(k - 1);
      assert nodes * n == 2 * (nodes * half);
      RepeatedTailKeepsRoot(h, Parents(h, leaves), k - 1, nodes);
      ParentsConcat(h, leaves, leaves[|leaves| - n..]);
      ParentsSplit(h, leaves, |leaves| / 2 - half);
    }
  }
}
