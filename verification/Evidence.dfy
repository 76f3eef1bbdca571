/**
 The evidence hash chain (`gateway/src/evidence.rs`): one entry per decision,
 each committing to its predecessor's hash.
 */
module Evidence {
  import opened Bytes
  import opened Wrappers

  const GENESIS_PREV_HASH: Digest := Zeros(32)
  const EMPTY_ROOT: Digest := Zeros(32)

  datatype Decision = Allowed | NotMonotonic | NonceNotMonotonic | ExceedsDeposit | SessionExpired

  /** The frozen wording of each decision, as stored and as hashed. */
  function DecisionText(d: Decision): string {
    match d
    case Allowed => "ALLOWED"
    case NotMonotonic => "ERR_CLAIM_NOT_MONOTONIC"
    case NonceNotMonotonic => "ERR_NONCE_NOT_MONOTONIC"
    case ExceedsDeposit => "ERR_CLAIM_EXCEEDS_DEPOSIT"
    case SessionExpired => "ERR_SESSION_EXPIRED"
  }

  /** The five strings: a refusal says so, and each names what was wrong. */
  lemma DecisionWording()
    ensures DecisionText(Allowed) == "ALLOWED"
    ensures DecisionText(NotMonotonic) == "ERR_CLAIM_NOT_MONOTONIC"
    ensures DecisionText(NonceNotMonotonic) == "ERR_NONCE_NOT_MONOTONIC"
    ensures DecisionText(ExceedsDeposit) == "ERR_CLAIM_EXCEEDS_DEPOSIT"
    ensures DecisionText(SessionExpired) == "ERR_SESSION_EXPIRED"
  {
  }

  function DecisionBytes(d: Decision): seq<Byte> {
    Ascii(DecisionText(d))
  }

  function ParseDecision(text: seq<Byte>): Option<Decision> {
    if text == Ascii("ALLOWED") then Some(Allowed)
    else if text == Ascii("ERR_CLAIM_NOT_MONOTONIC") then Some(NotMonotonic)
    else if text == Ascii("ERR_NONCE_NOT_MONOTONIC") then Some(NonceNotMonotonic)
    else if text == Ascii("ERR_CLAIM_EXCEEDS_DEPOSIT") then Some(ExceedsDeposit)
    else if text == Ascii("ERR_SESSION_EXPIRED") then Some(SessionExpired)
    else None
  }

  /** Parsing inverts printing, so the five frozen strings are pairwise distinct. */
  lemma ParsePrints(d: Decision)
    ensures ParseDecision(DecisionBytes(d)) == Some(d)
  {
    var b := DecisionBytes(d);
    assert d.NotMonotonic? ==> b[4] == 'C' as int && b[10] == 'N' as int;
    assert d.NonceNotMonotonic? ==> b[4] == 'N' as int;
    assert d.ExceedsDeposit? ==> b[4] == 'C' as int && b[10] == 'E' as int && |b| == 25;
    assert d.SessionExpired? ==> b[4] == 'S' as int;
    assert Ascii("ERR_CLAIM_NOT_MONOTONIC")[4] == 'C' as int;
    assert Ascii("ERR_NONCE_NOT_MONOTONIC")[4] == 'N' as int;
    assert Ascii("ERR_CLAIM_EXCEEDS_DEPOSIT")[4] == 'C' as int;
  }

  /** The bytes at their places: predecessor, session, amount and nonce of eight bytes each, decision. */
  predicate HashedFields(p: seq<Byte>, prev: Digest, session: Pubkey, cumulative: U64, nonce: U64, decision: seq<Byte>) {
    && |p| == 80 + |decision|
    && p[..32] == prev && p[32..64] == session
    && FromU64Le(p[64..72]) == cumulative && FromU64Le(p[72..80]) == nonce
    && p[80..] == decision
  }

  /** What one entry's hash is taken over. */
  function EntryPreimage(prev: Digest, session: Pubkey, cumulative: U64, nonce: U64, decision: seq<Byte>): (p: seq<Byte>)
    ensures |p| == 80 + |decision|
  {
    prev + session + U64Le(cumulative) + U64Le(nonce) + decision
  }

  function ComputeEntryHash(h: Hash, prev: Digest, session: Pubkey, cumulative: U64, nonce: U64, decision: seq<Byte>): Digest {
    h(EntryPreimage(prev, session, cumulative, nonce, decision))
  }

  /** The hashed bytes hold each field at its place, and no other bytes do. */
  lemma PreimageLayout(prev: Digest, session: Pubkey, cumulative: U64, nonce: U64, decision: seq<Byte>, p: seq<Byte>)
    ensures HashedFields(p, prev, session, cumulative, nonce, decision) <==> p == EntryPreimage(prev, session, cumulative, nonce, decision)
  {
    var q := EntryPreimage(prev, session, cumulative, nonce, decision);
    assert q[..32] == prev && q[32..64] == session && q[64..72] == U64Le(cumulative) && q[72..80] == U64Le(nonce) && q[80..] == decision;
    U64RoundTrip(cumulative);
    U64RoundTrip(nonce);
    if HashedFields(p, prev, session, cumulative, nonce, decision) {
      U64EncodeDecode(p[64..72]);
      U64EncodeDecode(p[72..80]);
      assert p == p[..32] + p[32..64] + p[64..72] + p[72..80] + p[80..];
    }
  }

  /** No two distinct entries share a preimage. */
  lemma EntryPreimageInjective(
      prev: Digest, session: Pubkey, cumulative: U64, nonce: U64, decision: seq<Byte>,
      prev': Digest, session': Pubkey, cumulative': U64, nonce': U64, decision': seq<Byte>)
    requires EntryPreimage(prev, session, cumulative, nonce, decision)
          == EntryPreimage(prev', session', cumulative', nonce', decision')
    ensures prev == prev' && session == session' && cumulative == cumulative'
         && nonce == nonce' && decision == decision'
  {
    var p := EntryPreimage(prev, session, cumulative, nonce, decision);
    var p' := EntryPreimage(prev', session', cumulative', nonce', decision');
    assert prev == p[..32] && prev' == p'[..32];
    assert session == p[32..64] && session' == p'[32..64];
    assert U64Le(cumulative) == p[64..72] && U64Le(cumulative') == p'[64..72];
    assert U64Le(nonce) == p[72..80] && U64Le(nonce') == p'[72..80];
    assert decision == p[80..] && decision' == p'[80..];
    U64RoundTrip(cumulative);
    U64RoundTrip(cumulative');
    U64RoundTrip(nonce);
    U64RoundTrip(nonce');
  }

  /** One stored decision; `decision` holds the UTF-8 bytes of the column. */
  datatype EvidenceEntry = EvidenceEntry(
    sequenceId: I64, cumulative: U64, nonce: U64, decision: seq<Byte>, prevHash: Digest, entryHash: Digest)

  datatype ChainError =
    | SequenceGap(expected: int, found: int)
    | BrokenLink(sequenceId: int)
    | HashMismatch(sequenceId: int)

  function PreimageOf(session: Pubkey, e: EvidenceEntry): (p: seq<Byte>)
    ensures |p| >= 80
  {
    EntryPreimage(e.prevHash, session, e.cumulative, e.nonce, e.decision)
  }

  /** The hash entry i must link back to. */
  function ExpectedPrev(entries: seq<EvidenceEntry>, i: nat): Digest
    requires i <= |entries|
  {
    if i == 0 then GENESIS_PREV_HASH else entries[i - 1].entryHash
  }

  predicate EntryOk(h: Hash, session: Pubkey, entries: seq<EvidenceEntry>, i: nat)
    requires i < |entries|
  {
    && entries[i].sequenceId == i
    && entries[i].prevHash == ExpectedPrev(entries, i)
    && entries[i].entryHash == h(PreimageOf(session, entries[i]))
  }

  /** Every entry is numbered by its position, linked to its predecessor, and hashed honestly. */
  predicate ChainOk(h: Hash, session: Pubkey, entries: seq<EvidenceEntry>) {
    forall i :: 0 <= i < |entries| ==> EntryOk(h, session, entries, i)
  }

  /** Entry i as an auditor checks it by hand: its number, its link, and a hash of exactly its fields. */
  ghost predicate SoundAt(h: Hash, session: Pubkey, entries: seq<EvidenceEntry>, i: nat)
    requires i < |entries|
  {
    var e := entries[i];
    && e.sequenceId == i
    && e.prevHash == (if i == 0 then seq(32, _ => 0) else entries[i - 1].entryHash)
    && exists p :: HashedFields(p, e.prevHash, session, e.cumulative, e.nonce, e.decision) && e.entryHash == h(p)
  }

  lemma SoundExactly(h: Hash, session: Pubkey, entries: seq<EvidenceEntry>, i: nat)
    requires i < |entries|
    ensures EntryOk(h, session, entries, i) <==> SoundAt(h, session, entries, i)
  {
    var e := entries[i];
    var q := PreimageOf(session, e);
    PreimageLayout(e.prevHash, session, e.cumulative, e.nonce, e.decision, q);
    assert Zeros(32) == seq(32, _ => 0);
    if SoundAt(h, session, entries, i) {
      var p :| HashedFields(p, e.prevHash, session, e.cumulative, e.nonce, e.decision) && e.entryHash == h(p);
      PreimageLayout(e.prevHash, session, e.cumulative, e.nonce, e.decision, p);
    }
  }

  /** The chain check is that hand check of every entry. */
  lemma ChainOkExactly(h: Hash, session: Pubkey, entries: seq<EvidenceEntry>)
    ensures ChainOk(h, session, entries) <==> forall i :: 0 <= i < |entries| ==> SoundAt(h, session, entries, i)
  {
    forall i | 0 <= i < |entries| ensures EntryOk(h, session, entries, i) <==> SoundAt(h, session, entries, i) {
      SoundExactly(h, session, entries, i);
    }
  }

  /** A sound chain stays sound under an honestly made next entry. */
  lemma ChainExtends(h: Hash, session: Pubkey, entries: seq<EvidenceEntry>, e: EvidenceEntry)
    requires ChainOk(h, session, entries)
    requires e.sequenceId == |entries| && e.prevHash == ExpectedPrev(entries, |entries|)
    requires e.entryHash == h(PreimageOf(session, e))
    ensures ChainOk(h, session, entries + [e])
  {
    forall i | 0 <= i <= |entries| ensures EntryOk(h, session, entries + [e], i) {
      assert i < |entries| ==> EntryOk(h, session, entries, i);
    }
  }

  /** Which of the three faults entry i shows, in the order they are looked for. */
  predicate Faults(h: Hash, session: Pubkey, entries: seq<EvidenceEntry>, i: nat, error: ChainError)
    requires i < |entries|
  {
    match error
    case SequenceGap(expected, found) =>
      expected == i && found == entries[i].sequenceId && found != expected
    case BrokenLink(id) =>
      id == entries[i].sequenceId == i && entries[i].prevHash != ExpectedPrev(entries, i)
    case HashMismatch(id) =>
      && id == entries[i].sequenceId == i
      && entries[i].prevHash == ExpectedPrev(entries, i)
      && entries[i].entryHash != h(PreimageOf(session, entries[i]))
  }

  /**
   Accepts exactly the well-formed chains; otherwise reports the first entry at
   fault, every entry before it being sound.
   */
  method VerifyChain(h: Hash, session: Pubkey, entries: seq<EvidenceEntry>) returns (r: Result<(), ChainError>)
    requires |entries| <= I64_MAX
    ensures r.Ok? <==> ChainOk(h, session, entries)
    ensures r.Ok? <==> forall i :: 0 <= i < |entries| ==> SoundAt(h, session, entries, i)
    ensures r.Err? ==> exists i: nat :: i < |entries| && Faults(h, session, entries, i, r.error)
                                && ChainOk(h, session, entries[..i])
  {
    ChainOkExactly(h, session, entries);
    var expectedPrev := GENESIS_PREV_HASH;
    for i := 0 to |entries|
      invariant expectedPrev == ExpectedPrev(entries, i)
      invariant forall j :: 0 <= j < i ==> EntryOk(h, session, entries, j)
    {
      var entry := entries[i];
      assert ChainOk(h, session, entries[..i]) by {
        forall j | 0 <= j < i ensures EntryOk(h, session, entries[..i], j) {
          assert EntryOk(h, session, entries, j);
        }
      }
      if entry.sequenceId != i {
        assert Faults(h, session, entries, i, SequenceGap(i, entry.sequenceId));
        assert !EntryOk(h, session, entries, i);
        return Err(SequenceGap(i, entry.sequenceId));
      }
      if entry.prevHash != expectedPrev {
        assert Faults(h, session, entries, i, BrokenLink(entry.sequenceId));
        assert !EntryOk(h, session, entries, i);
        return Err(BrokenLink(entry.sequenceId));
      }
      var recomputed :=
        ComputeEntryHash(h, entry.prevHash, session, entry.cumulative, entry.nonce, entry.decision);
      if recomputed != entry.entryHash {
        assert Faults(h, session, entries, i, HashMismatch(entry.sequenceId));
        assert !EntryOk(h, session, entries, i);
        return Err(HashMismatch(entry.sequenceId));
      }
      expectedPrev := entry.entryHash;
    }
    return Ok(());
  }

  function EntryHashes(entries: seq<EvidenceEntry>): (leaves: seq<Digest>)
    ensures |leaves| == |entries|
    ensures forall i :: 0 <= i < |entries| ==> leaves[i] == entries[i].entryHash
  {
    seq(|entries|, i requires 0 <= i < |entries| => entries[i].entryHash)
  }

  // ---- what "no collision" means here ----

  /** h never sends two of these byte strings to one digest. */
  ghost predicate CollisionFree(h: Hash, preimages: set<seq<Byte>>) {
    forall x, y :: x in preimages && y in preimages && h(x) == h(y) ==> x == y
  }

  /** h sends none of these byte strings to the all-zero digest. */
  ghost predicate ZeroFree(h: Hash, preimages: set<seq<Byte>>) {
    forall x :: x in preimages ==> h(x) != GENESIS_PREV_HASH
  }

  /** The byte strings hashed to produce the entries of one log. */
  ghost function EntryPreimages(session: Pubkey, entries: seq<EvidenceEntry>): set<seq<Byte>> {
    set i | 0 <= i < |entries| :: PreimageOf(session, entries[i])
  }

  lemma SameHashSamePrev(h: Hash, session: Pubkey, entries: seq<EvidenceEntry>, i: nat, j: nat)
    requires ChainOk(h, session, entries) && i < |entries| && j < |entries|
    requires CollisionFree(h, EntryPreimages(session, entries)) && ZeroFree(h, EntryPreimages(session, entries))
    requires entries[i].entryHash == entries[j].entryHash
    ensures entries[i].prevHash == entries[j].prevHash && entries[i].entryHash != GENESIS_PREV_HASH
  {
    var (a, b) := (entries[i], entries[j]);
    assert EntryOk(h, session, entries, i) && EntryOk(h, session, entries, j);
    assert PreimageOf(session, a) in EntryPreimages(session, entries) && PreimageOf(session, b) in EntryPreimages(session, entries);
    EntryPreimageInjective(a.prevHash, session, a.cumulative, a.nonce, a.decision,
                           b.prevHash, session, b.cumulative, b.nonce, b.decision);
  }

  /**
   Two positions of one sound chain never carry the same hash: equal hashes would
   have equal predecessors, back to an entry whose own hash is the zero digest.
   */
  lemma {:induction false} ChainHashesDistinct(h: Hash, session: Pubkey, entries: seq<EvidenceEntry>, i: nat, j: nat)
    requires ChainOk(h, session, entries)
    requires i < j < |entries|
    requires CollisionFree(h, EntryPreimages(session, entries))
    requires ZeroFree(h, EntryPreimages(session, entries))
    ensures entries[i].entryHash != entries[j].entryHash
  {
    if entries[i].entryHash == entries[j].entryHash {
      SameHashSamePrev(h, session, entries, i, j);
      assert EntryOk(h, session, entries, i) && EntryOk(h, session, entries, j);
      SameHashSamePrev(h, session, entries, j - 1, j - 1);
      if i > 0 {
        ChainHashesDistinct(h, session, entries, i - 1, j - 1);
      }
    }
  }
}
