/**
 What a published Merkle root pins down (`gateway/src/evidence.rs`, module
 comment). SHA-256 is any function h. A statement "h has no collision" would be
 false of every h, so each theorem speaks only of the finitely many byte strings
 hashed in the objects it is about: they collide, one of them hashes to zero, or
 the conclusion holds.
 */
module RootBinding {
  import opened Bytes
  import opened Evidence
  import opened Merkle

  ghost predicate Distinct(s: seq<Digest>) {
    forall i, j :: 0 <= i < j < |s| ==> s[i] != s[j]
  }

  function PreimageAt(level: seq<Digest>, i: nat): seq<Byte>
    requires 2 * i < |level|
  {
    PairPreimage(level[2 * i], Partner(level, i))
  }

  /** The byte strings hashed to go one level up. */
  ghost function LevelPreimages(level: seq<Digest>): set<seq<Byte>> {
    set i | 0 <= i < CeilHalf(|level|) :: PreimageAt(level, i)
  }

  /** The byte strings hashed to build the whole tree. */
  ghost function TreePreimages(h: Hash, leaves: seq<Digest>): set<seq<Byte>>
    decreases |leaves|
  {
    if |leaves| <= 1 then {} else LevelPreimages(leaves) + TreePreimages(h, Parents(h, leaves))
  }

  /** Every byte string hashed for one log: its entries and its tree. */
  ghost function Hashed(h: Hash, session: Pubkey, entries: seq<EvidenceEntry>): set<seq<Byte>> {
    EntryPreimages(session, entries) + TreePreimages(h, EntryHashes(entries))
  }

  /** Some byte strings hashed for the two logs collide, or one of them hashes to zero. */
  ghost predicate Clash(h: Hash, s: Pubkey, a: seq<EvidenceEntry>, t: Pubkey, b: seq<EvidenceEntry>) {
    var all := Hashed(h, s, a) + Hashed(h, t, b);
    !CollisionFree(h, all) || !ZeroFree(h, all)
  }

  /** The byte strings hashed while checking a proof. */
  ghost function ProofPreimages(h: Hash, leaf: Digest, proof: seq<ProofNode>): set<seq<Byte>>
    decreases |proof|
  {
    if proof == [] then {}
    else {CombinePreimage(leaf, proof[0])} + ProofPreimages(h, Combine(h, leaf, proof[0]), proof[1..])
  }

  function CombinePreimage(current: Digest, node: ProofNode): (p: seq<Byte>)
    ensures |p| == 64
  {
    match node.side
    case Right => PairPreimage(current, node.hash)
    case Left => PairPreimage(node.hash, current)
  }

  lemma PairPreimageInjective(a: Digest, b: Digest, c: Digest, d: Digest)
    requires PairPreimage(a, b) == PairPreimage(c, d)
    ensures a == c && b == d
  {
    assert a == PairPreimage(a, b)[..32] && c == PairPreimage(c, d)[..32];
    assert b == PairPreimage(a, b)[32..] && d == PairPreimage(c, d)[32..];
  }

  // ---- one level ----

  /** Distinct nodes have distinct parents. */
  lemma ParentsDistinct(h: Hash, level: seq<Digest>)
    requires Distinct(level)
    requires CollisionFree(h, LevelPreimages(level))
    ensures Distinct(Parents(h, level))
  {
    var up := Parents(h, level);
    forall i, j | 0 <= i < j < |up| ensures up[i] != up[j] {
      if up[i] == up[j] {
        assert PreimageAt(level, i) in LevelPreimages(level) && PreimageAt(level, j) in LevelPreimages(level);
        PairPreimageInjective(level[2 * i], Partner(level, i), level[2 * j], Partner(level, j));
      }
    }
  }

  /** The last node pairs with itself exactly when the level is odd. */
  lemma LastPartner(level: seq<Digest>)
    requires |level| >= 1 && Distinct(level)
    ensures 2 * (CeilHalf(|level|) - 1) < |level|
    ensures level[2 * (CeilHalf(|level|) - 1)] == Partner(level, CeilHalf(|level|) - 1) <==> |level| % 2 == 1
  {
  }

  lemma SameParentSameNodes(h: Hash, a: seq<Digest>, b: seq<Digest>, i: nat)
    requires 2 * i < |a| && 2 * i < |b| && Parents(h, a)[i] == Parents(h, b)[i]
    requires CollisionFree(h, LevelPreimages(a) + LevelPreimages(b))
    ensures a[2 * i] == b[2 * i] && Partner(a, i) == Partner(b, i)
  {
    assert PreimageAt(a, i) in LevelPreimages(a) && PreimageAt(b, i) in LevelPreimages(b);
    PairPreimageInjective(a[2 * i], Partner(a, i), b[2 * i], Partner(b, i));
  }

  predicate SamePair(a: seq<Digest>, b: seq<Digest>, i: nat) {
    2 * i < |a| && 2 * i < |b| && a[2 * i] == b[2 * i] && Partner(a, i) == Partner(b, i)
  }

  lemma SameLength(a: seq<Digest>, b: seq<Digest>)
    requires |a| >= 1 && |b| >= 1 && Distinct(a) && Distinct(b) && CeilHalf(|a|) == CeilHalf(|b|)
    requires SamePair(a, b, CeilHalf(|a|) - 1)
    ensures |a| == |b|
  {
    LastPartner(a);
    LastPartner(b);
  }

  lemma SameNode(a: seq<Digest>, b: seq<Digest>, k: nat)
    requires k < |a| == |b| && SamePair(a, b, k / 2)
    ensures a[k] == b[k]
  {
    assert k == 2 * (k / 2) || k == 2 * (k / 2) + 1;
  }

  /** Distinct nodes can be read back from their parents, the odd end included. */
  lemma ParentsInjective(h: Hash, a: seq<Digest>, b: seq<Digest>)
    requires |a| >= 1 && |b| >= 1 && Distinct(a) && Distinct(b)
    requires Parents(h, a) == Parents(h, b)
    requires CollisionFree(h, LevelPreimages(a) + LevelPreimages(b))
    ensures a == b
  {
    assert CeilHalf(|a|) == |Parents(h, a)| == |Parents(h, b)| == CeilHalf(|b|);
    forall i | 0 <= i < CeilHalf(|a|) ensures SamePair(a, b, i) {
      SameParentSameNodes(h, a, b, i);
    }
    SameLength(a, b);
    forall k | 0 <= k < |a| ensures a[k] == b[k] {
      SameNode(a, b, k);
    }
  }

  // ---- several levels ----

  /** The nodes k levels up. */
  function Rise(h: Hash, leaves: seq<Digest>, k: nat): seq<Digest>
    requires k <= Height(|leaves|)
    decreases k
  {
    if k == 0 then leaves else Rise(h, Parents(h, leaves), k - 1)
  }

  lemma {:induction false} RiseHeight(h: Hash, leaves: seq<Digest>, k: nat)
    requires |leaves| >= 1 && k <= Height(|leaves|)
    ensures |Rise(h, leaves, k)| >= 1
    ensures Height(|Rise(h, leaves, k)|) == Height(|leaves|) - k
    decreases k
  {
    if k > 0 {
      RiseHeight(h, Parents(h, leaves), k - 1);
    }
  }

  lemma {:induction false} RiseRoot(h: Hash, leaves: seq<Digest>, k: nat)
    requires |leaves| >= 1 && k <= Height(|leaves|)
    ensures RootOf(h, Rise(h, leaves, k)) == RootOf(h, leaves)
    decreases k
  {
    if k > 0 {
      RiseRoot(h, Parents(h, leaves), k - 1);
    }
  }

  lemma TreePreimagesUnfold(h: Hash, leaves: seq<Digest>)
    requires |leaves| > 1
    ensures TreePreimages(h, leaves) == LevelPreimages(leaves) + TreePreimages(h, Parents(h, leaves))
  {
  }

  lemma RiseStep(h: Hash, leaves: seq<Digest>, k: nat)
    requires |leaves| >= 1 && 0 < k <= Height(|leaves|)
    ensures |Parents(h, leaves)| >= 1 && k - 1 <= Height(|Parents(h, leaves)|)
    ensures Rise(h, leaves, k) == Rise(h, Parents(h, leaves), k - 1)
    ensures TreePreimages(h, Parents(h, leaves)) <= TreePreimages(h, leaves)
  {
    TreePreimagesUnfold(h, leaves);
  }

  lemma SubsetTwice(a: set<seq<Byte>>, b: set<seq<Byte>>, c: set<seq<Byte>>)
    requires a <= b <= c
    ensures a <= c
  {
  }

  /** Whatever covers a tree's hashed bytes covers those of its upper part. */
  lemma {:induction false} RisePreimagesWithin(h: Hash, leaves: seq<Digest>, k: nat, all: set<seq<Byte>>)
    requires |leaves| >= 1 && k <= Height(|leaves|)
    requires TreePreimages(h, leaves) <= all
    ensures TreePreimages(h, Rise(h, leaves, k)) <= all
    decreases k
  {
    if k > 0 {
      RiseStep(h, leaves, k);
      SubsetTwice(TreePreimages(h, Parents(h, leaves)), TreePreimages(h, leaves), all);
      RisePreimagesWithin(h, Parents(h, leaves), k - 1, all);
    }
  }

  lemma RiseFacts(h: Hash, leaves: seq<Digest>, k: nat)
    requires |leaves| >= 1 && k <= Height(|leaves|)
    ensures |Rise(h, leaves, k)| >= 1
    ensures Height(|Rise(h, leaves, k)|) == Height(|leaves|) - k
    ensures RootOf(h, Rise(h, leaves, k)) == RootOf(h, leaves)
    ensures TreePreimages(h, Rise(h, leaves, k)) <= TreePreimages(h, leaves)
  {
    RiseHeight(h, leaves, k);
    RiseRoot(h, leaves, k);
    RisePreimagesWithin(h, leaves, k, TreePreimages(h, leaves));
  }

  lemma {:induction false} RiseDistinct(h: Hash, leaves: seq<Digest>, k: nat)
    requires |leaves| >= 1 && k <= Height(|leaves|)
    requires Distinct(leaves) && CollisionFree(h, TreePreimages(h, leaves))
    ensures Distinct(Rise(h, leaves, k))
    decreases k
  {
    if k > 0 {
      var up := Parents(h, leaves);
      assert TreePreimages(h, leaves) == LevelPreimages(leaves) + TreePreimages(h, up);
      ParentsDistinct(h, leaves);
      RiseDistinct(h, up, k - 1);
    }
  }

  /** Above the leaves, every node is the hash of 64 bytes. */
  lemma {:induction false} RisePreimage(h: Hash, leaves: seq<Digest>, k: nat, i: nat) returns (p: seq<Byte>)
    requires 0 < k <= Height(|leaves|) && i < |Rise(h, leaves, k)|
    ensures |p| == 64 && p in TreePreimages(h, leaves) && h(p) == Rise(h, leaves, k)[i]
    decreases k
  {
    if k == 1 {
      p := PreimageAt(leaves, i);
    } else {
      p := RisePreimage(h, Parents(h, leaves), k - 1, i);
    }
  }

  /** Among lists of one height, distinct leaves are determined by the root. */
  lemma {:induction false} SameHeightBinds(h: Hash, a: seq<Digest>, b: seq<Digest>)
    requires |a| >= 1 && |b| >= 1 && Height(|a|) == Height(|b|)
    requires Distinct(a) && Distinct(b)
    requires RootOf(h, a) == RootOf(h, b)
    requires CollisionFree(h, TreePreimages(h, a) + TreePreimages(h, b))
    ensures a == b
    decreases |a|
  {
    if |a| > 1 {
      ParentsDistinct(h, a);
      ParentsDistinct(h, b);
      SameHeightBinds(h, Parents(h, a), Parents(h, b));
      ParentsInjective(h, a, b);
    }
  }

  // ---- the root binds the log ----

  lemma LeavesDistinct(h: Hash, session: Pubkey, entries: seq<EvidenceEntry>)
    requires ChainOk(h, session, entries)
    requires CollisionFree(h, EntryPreimages(session, entries))
    requires ZeroFree(h, EntryPreimages(session, entries))
    ensures Distinct(EntryHashes(entries))
  {
    forall i, j | 0 <= i < j < |entries| ensures entries[i].entryHash != entries[j].entryHash {
      ChainHashesDistinct(h, session, entries, i, j);
    }
  }

  lemma BindsRisen(h: Hash, a: seq<Digest>, b: seq<Digest>, k: nat)
    requires |a| >= 1 && |b| >= 1 && k <= Height(|b|) && Height(|a|) == Height(|b|) - k
    requires Distinct(a) && Distinct(b)
    requires RootOf(h, a) == RootOf(h, b)
    requires CollisionFree(h, TreePreimages(h, a) + TreePreimages(h, b))
    ensures a == Rise(h, b, k)
  {
    RiseFacts(h, b, k);
    RiseDistinct(h, b, k);
    SameHeightBinds(h, a, Rise(h, b, k));
  }

  lemma Weaken(h: Hash, all: set<seq<Byte>>, some: set<seq<Byte>>)
    requires some <= all && CollisionFree(h, all)
    ensures CollisionFree(h, some)
  {
  }

  /** Entry hashes are hashes of at least 80 bytes, so 64 bytes with the same hash are a collision. */
  lemma LeafNotInner(h: Hash, s: Pubkey, a: seq<EvidenceEntry>, p: seq<Byte>)
    requires ChainOk(h, s, a) && a != []
    requires |p| == 64 && h(p) == a[0].entryHash
    ensures !CollisionFree(h, EntryPreimages(s, a) + {p})
  {
    assert EntryOk(h, s, a, 0);
    assert PreimageOf(s, a[0]) in EntryPreimages(s, a);
  }

  /** Under one root, the first leaf of a lower tree is a node above the leaves of a higher one. */
  lemma FirstLeafIsInner(h: Hash, la: seq<Digest>, lb: seq<Digest>) returns (p: seq<Byte>)
    requires |la| >= 1 && |lb| >= 1 && Height(|la|) < Height(|lb|)
    requires Distinct(la) && Distinct(lb) && RootOf(h, la) == RootOf(h, lb)
    requires CollisionFree(h, TreePreimages(h, la) + TreePreimages(h, lb))
    ensures |p| == 64 && p in TreePreimages(h, lb) && h(p) == la[0]
  {
    var k := Height(|lb|) - Height(|la|);
    BindsRisen(h, la, lb, k);
    p := RisePreimage(h, lb, k, 0);
  }

  lemma LogLeavesDistinct(h: Hash, s: Pubkey, a: seq<EvidenceEntry>, all: set<seq<Byte>>)
    requires ChainOk(h, s, a) && Hashed(h, s, a) <= all
    requires CollisionFree(h, all) && ZeroFree(h, all)
    ensures Distinct(EntryHashes(a))
  {
    Weaken(h, all, EntryPreimages(s, a));
    LeavesDistinct(h, s, a);
  }

  lemma InnerOfOther(h: Hash, s: Pubkey, a: seq<EvidenceEntry>, t: Pubkey, b: seq<EvidenceEntry>, p: seq<Byte>)
    requires ChainOk(h, s, a) && a != []
    requires |p| == 64 && p in TreePreimages(h, EntryHashes(b)) && h(p) == a[0].entryHash
    ensures !CollisionFree(h, Hashed(h, s, a) + Hashed(h, t, b))
  {
    LeafNotInner(h, s, a, p);
    if CollisionFree(h, Hashed(h, s, a) + Hashed(h, t, b)) {
      Weaken(h, Hashed(h, s, a) + Hashed(h, t, b), EntryPreimages(s, a) + {p});
    }
  }

  /** A lower tree cannot have the root of a higher one: a leaf is the hash of at least 80 bytes. */
  lemma {:induction false} HeightsAgree(h: Hash, s: Pubkey, a: seq<EvidenceEntry>, t: Pubkey, b: seq<EvidenceEntry>)
    requires ChainOk(h, s, a) && ChainOk(h, t, b) && a != [] && b != []
    requires CollisionFree(h, Hashed(h, s, a) + Hashed(h, t, b))
    requires ZeroFree(h, Hashed(h, s, a) + Hashed(h, t, b))
    requires RootOf(h, EntryHashes(a)) == RootOf(h, EntryHashes(b))
    ensures Height(|a|) >= Height(|b|)
  {
    if Height(|a|) < Height(|b|) {
      var all := Hashed(h, s, a) + Hashed(h, t, b);
      LogLeavesDistinct(h, s, a, all);
      LogLeavesDistinct(h, t, b, all);
      Weaken(h, all, TreePreimages(h, EntryHashes(a)) + TreePreimages(h, EntryHashes(b)));
      var p := FirstLeafIsInner(h, EntryHashes(a), EntryHashes(b));
      InnerOfOther(h, s, a, t, b, p);
    }
  }

  /** Equal hash lists of sound chains mean equal sessions and equal entries. */
  lemma EntriesFromHashes(h: Hash, s: Pubkey, a: seq<EvidenceEntry>, t: Pubkey, b: seq<EvidenceEntry>)
    requires ChainOk(h, s, a) && ChainOk(h, t, b)
    requires EntryHashes(a) == EntryHashes(b)
    requires CollisionFree(h, EntryPreimages(s, a) + EntryPreimages(t, b))
    ensures a == b && (a != [] ==> s == t)
  {
    assert |a| == |EntryHashes(a)| == |b|;
    forall i | 0 <= i < |a| ensures a[i] == b[i] && s == t {
      var (x, y) := (a[i], b[i]);
      assert EntryOk(h, s, a, i) && EntryOk(h, t, b, i);
      assert x.entryHash == EntryHashes(a)[i] == EntryHashes(b)[i] == y.entryHash;
      assert PreimageOf(s, x) in EntryPreimages(s, a) && PreimageOf(t, y) in EntryPreimages(t, b);
      EntryPreimageInjective(x.prevHash, s, x.cumulative, x.nonce, x.decision,
                             y.prevHash, t, y.cumulative, y.nonce, y.decision);
    }
    assert a != [] ==> a[0] == b[0] && s == t;
  }

  lemma NonEmptyRootHashed(h: Hash, s: Pubkey, a: seq<EvidenceEntry>) returns (p: seq<Byte>)
    requires ChainOk(h, s, a) && a != []
    ensures p in Hashed(h, s, a) && h(p) == RootOf(h, EntryHashes(a))
  {
    var la := EntryHashes(a);
    var k := Height(|a|);
    RiseFacts(h, la, k);
    assert RootOf(h, la) == Rise(h, la, k)[0];
    if k == 0 {
      assert EntryOk(h, s, a, 0);
      p := PreimageOf(s, a[0]);
    } else {
      p := RisePreimage(h, la, k, 0);
    }
  }

  /**
   The root binds the whole log. Two logs of any lengths, for any two sessions,
   that pass the chain check and have equal roots are the same log of the same
   session, entry by entry, or two of the byte strings hashed for them collide,
   or one of those hashes to zero.
   */
  lemma {:induction false} RootBindsLog(h: Hash, s: Pubkey, a: seq<EvidenceEntry>, t: Pubkey, b: seq<EvidenceEntry>)
    requires ChainOk(h, s, a) && ChainOk(h, t, b)
    requires RootOf(h, EntryHashes(a)) == RootOf(h, EntryHashes(b))
    ensures (a == b && (a != [] ==> s == t)) || Clash(h, s, a, t, b)
  {
    var all := Hashed(h, s, a) + Hashed(h, t, b);
    if CollisionFree(h, all) && ZeroFree(h, all) {
      if a == [] || b == [] {
        if a != [] {
          var p := NonEmptyRootHashed(h, s, a);
        } else if b != [] {
          var p := NonEmptyRootHashed(h, t, b);
        }
      } else {
        HeightsAgree(h, s, a, t, b);
        HeightsAgree(h, t, b, s, a);
        LeavesDistinct(h, s, a);
        LeavesDistinct(h, t, b);
        SameHeightBinds(h, EntryHashes(a), EntryHashes(b));
        EntriesFromHashes(h, s, a, t, b);
      }
    }
  }

  // ---- inclusion proofs ----

  /** The leaf a proof's sides point at, in a level of n nodes. */
  function PositionOf(n: nat, proof: seq<ProofNode>): (i: nat)
    requires n >= 1 && |proof| == Height(n)
    ensures i < n
    decreases |proof|
  {
    if n == 1 then 0
    else
      var up := PositionOf(CeilHalf(n), proof[1..]);
      if proof[0].side == Right || 2 * up + 1 == n then 2 * up else 2 * up + 1
  }

  /** One step of a proof that gives a parent starts from the child on that side. */
  lemma StepNamesNode(h: Hash, level: seq<Digest>, q: nat, v: Digest, node: ProofNode)
    requires q < CeilHalf(|level|) && Combine(h, v, node) == Parents(h, level)[q]
    requires CollisionFree(h, LevelPreimages(level) + {CombinePreimage(v, node)})
    ensures v == level[if node.side == Right || 2 * q + 1 == |level| then 2 * q else 2 * q + 1]
  {
    assert PreimageAt(level, q) in LevelPreimages(level);
    match node.side {
      case Right => PairPreimageInjective(v, node.hash, level[2 * q], Partner(level, q));
      case Left => PairPreimageInjective(node.hash, v, level[2 * q], Partner(level, q));
    }
  }

  lemma ProofPreimagesUnfold(h: Hash, v: Digest, node: ProofNode, rest: seq<ProofNode>)
    ensures ProofPreimages(h, v, [node] + rest) == {CombinePreimage(v, node)} + ProofPreimages(h, Combine(h, v, node), rest)
  {
    assert ([node] + rest)[1..] == rest;
  }

  /** A proof as long as the tree is high names the node at its position. */
  lemma {:induction false} FullProofNamesLeaf(h: Hash, leaves: seq<Digest>, v: Digest, proof: seq<ProofNode>)
    requires |leaves| >= 1 && |proof| == Height(|leaves|)
    requires Climb(h, v, proof) == RootOf(h, leaves)
    requires CollisionFree(h, TreePreimages(h, leaves) + ProofPreimages(h, v, proof))
    ensures v == leaves[PositionOf(|leaves|, proof)]
    decreases |proof|
  {
    if |leaves| > 1 {
      var (up, node, rest) := (Parents(h, leaves), proof[0], proof[1..]);
      var all := TreePreimages(h, leaves) + ProofPreimages(h, v, proof);
      assert proof == [node] + rest;
      ClimbFirst(h, v, node, rest);
      ProofPreimagesUnfold(h, v, node, rest);
      TreePreimagesUnfold(h, leaves);
      Weaken(h, all, TreePreimages(h, up) + ProofPreimages(h, Combine(h, v, node), rest));
      FullProofNamesLeaf(h, up, Combine(h, v, node), rest);
      Weaken(h, all, LevelPreimages(leaves) + {CombinePreimage(v, node)});
      StepNamesNode(h, leaves, PositionOf(CeilHalf(|leaves|), rest), v, node);
    }
  }

  /** Cutting a proof in two: the upper part continues from the lower part's result, hashing nothing new. */
  lemma {:induction false} ClimbSplit(h: Hash, v: Digest, proof: seq<ProofNode>, k: nat)
    requires k <= |proof|
    ensures Climb(h, v, proof) == Climb(h, Climb(h, v, proof[..k]), proof[k..])
    ensures ProofPreimages(h, Climb(h, v, proof[..k]), proof[k..]) <= ProofPreimages(h, v, proof)
    decreases k
  {
    if k == 0 {
      assert proof[0..] == proof && proof[..0] == [];
    } else {
      var (node, rest) := (proof[0], proof[1..]);
      assert proof == [node] + rest && proof[..k] == [node] + rest[..k - 1] && proof[k..] == rest[k - 1..];
      ClimbFirst(h, v, node, rest);
      ClimbFirst(h, v, node, rest[..k - 1]);
      ProofPreimagesUnfold(h, v, node, rest);
      ClimbSplit(h, Combine(h, v, node), rest, k - 1);
    }
  }

  /** Whatever a non-empty proof leads to is the hash of 64 bytes hashed on the way. */
  lemma {:induction false} ClimbPreimage(h: Hash, v: Digest, proof: seq<ProofNode>) returns (p: seq<Byte>)
    requires proof != []
    ensures p in ProofPreimages(h, v, proof) && |p| == 64 && h(p) == Climb(h, v, proof)
    decreases |proof|
  {
    var (node, rest) := (proof[0], proof[1..]);
    assert proof == [node] + rest;
    ClimbFirst(h, v, node, rest);
    ProofPreimagesUnfold(h, v, node, rest);
    if rest == [] {
      p := CombinePreimage(v, node);
    } else {
      p := ClimbPreimage(h, Combine(h, v, node), rest);
    }
  }

  lemma {:induction false} PrefixPreimages(h: Hash, v: Digest, proof: seq<ProofNode>, k: nat)
    requires k <= |proof|
    ensures ProofPreimages(h, v, proof[..k]) <= ProofPreimages(h, v, proof)
    decreases k
  {
    if k > 0 {
      var (node, rest) := (proof[0], proof[1..]);
      assert proof == [node] + rest && proof[..k] == [node] + rest[..k - 1];
      ProofPreimagesUnfold(h, v, node, rest);
      ProofPreimagesUnfold(h, v, node, rest[..k - 1]);
      PrefixPreimages(h, Combine(h, v, node), rest, k - 1);
    }
  }

  /**
   Soundness: a proof of any length and any sides that leads from the hash of an
   entry's contents to the root of a log certifies that the log records an entry
   with exactly those contents, at the position the sides spell, unless two of
   the byte strings hashed along the way collide.
   */
  lemma {:induction false} InclusionSound(
      h: Hash, session: Pubkey, entries: seq<EvidenceEntry>, contents: seq<Byte>, proof: seq<ProofNode>)
    requires ChainOk(h, session, entries) && entries != []
    requires |contents| >= 80
    requires Climb(h, h(contents), proof) == RootOf(h, EntryHashes(entries))
    ensures
      || (|proof| == Height(|entries|)
          && PreimageOf(session, entries[PositionOf(|entries|, proof)]) == contents)
      || !CollisionFree(h, Hashed(h, session, entries) + ProofPreimages(h, h(contents), proof) + {contents})
  {
    var leaves := EntryHashes(entries);
    var (v, k) := (h(contents), Height(|entries|));
    var all := Hashed(h, session, entries) + ProofPreimages(h, v, proof) + {contents};
    if CollisionFree(h, all) {
      if |proof| < k {
        var d := k - |proof|;
        RiseFacts(h, leaves, d);
        FullProofNamesLeaf(h, Rise(h, leaves, d), v, proof);
        var p := RisePreimage(h, leaves, d, PositionOf(|Rise(h, leaves, d)|, proof));
      } else {
        var cut := |proof| - k;
        ClimbSplit(h, v, proof, cut);
        if cut > 0 {
          PrefixPreimages(h, v, proof, cut);
          var p := ClimbPreimage(h, v, proof[..cut]);
        }
        var v' := Climb(h, v, proof[..cut]);
        FullProofNamesLeaf(h, leaves, v', proof[cut..]);
        var i := PositionOf(|leaves|, proof[cut..]);
        assert EntryOk(h, session, entries, i);
        assert PreimageOf(session, entries[i]) in EntryPreimages(session, entries);
        if cut == 0 {
          assert proof[..0] == [] && proof[0..] == proof;
        }
      }
    }
  }
}
