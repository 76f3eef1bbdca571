/**
 The Ed25519 precompile instruction: how the gateway builds it
 (`gateway/src/settle.rs`) and how the program reads it back
 (`programs/agentpay/src/lib.rs`). Ed25519 itself is any relation between keys,
 messages and signatures.
 */
module Ed25519 {
  import opened Bytes
  import opened Wrappers
  import opened Claims

  /** "Ed25519SigVerify111111111111111111111111111" */
  const ED25519_PROGRAM_ID: Pubkey :=
    [3, 125, 70, 214, 124, 147, 251, 190, 18, 249, 66, 143, 131, 141, 64, 255,
     5, 112, 116, 73, 39, 244, 138, 100, 252, 202, 112, 68, 128, 0, 0, 0]

  const HEADER_LEN: nat := 16
  const PUBKEY_OFFSET: U16 := 16
  const SIGNATURE_OFFSET: U16 := 48
  const MESSAGE_OFFSET: U16 := 112
  const SELF_REF: U16 := U16_MAX

  datatype Instruction = Instruction(programId: Pubkey, data: seq<Byte>)

  function U16Le(n: U16): (s: seq<Byte>)
    ensures |s| == 2
  {
    [n % 256, n / 256]
  }

  function U16At(data: seq<Byte>, at: nat): U16
    requires at + 1 < |data|
  {
    (data[at] as int) + 256 * (data[at + 1] as int)
  }

  function Header(messageLen: nat): (s: seq<Byte>)
    ensures |s| == HEADER_LEN
  {
    [1, 0] + U16Le(SIGNATURE_OFFSET) + U16Le(SELF_REF) + U16Le(PUBKEY_OFFSET) + U16Le(SELF_REF)
    + U16Le(MESSAGE_OFFSET) + U16Le(messageLen % (U16_MAX + 1)) + U16Le(SELF_REF)
  }

  function InstructionData(signer: Pubkey, signature: Signature, message: seq<Byte>): (data: seq<Byte>)
    ensures |data| == 112 + |message|
  {
    Header(|message|) + signer + signature + message
  }

  /** Field by field, as the gateway appends them; the length is truncated to 16 bits. */
  method BuildEd25519Instruction(signer: Pubkey, signature: Signature, message: seq<Byte>) returns (ix: Instruction)
    ensures ix == Instruction(ED25519_PROGRAM_ID, InstructionData(signer, signature, message))
  {
    var data: seq<Byte> := [];
    data := data + [1];
    data := data + [0];
    data := data + U16Le(SIGNATURE_OFFSET);
    data := data + U16Le(SELF_REF);
    data := data + U16Le(PUBKEY_OFFSET);
    data := data + U16Le(SELF_REF);
    data := data + U16Le(MESSAGE_OFFSET);
    data := data + U16Le(|message| % (U16_MAX + 1));
    data := data + U16Le(SELF_REF);
    assert data == Header(|message|);
    data := data + signer;
    data := data + signature;
    data := data + message;
    return Instruction(ED25519_PROGRAM_ID, data);
  }

  datatype EdError = MissingEd25519Instruction | MalformedEd25519Instruction | Ed25519IndirectReference
                   | ClaimMessageMismatch | ClaimSignerMismatch

  /** The program's introspection of the instruction before it; None when there is none. */
  function VerifyEd25519Claim(previous: Option<Instruction>, expectedSigner: Pubkey, expectedMessage: seq<Byte>): Result<(), EdError> {
    if previous.None? then Err(MissingEd25519Instruction)
    else if previous.value.programId != ED25519_PROGRAM_ID then Err(MissingEd25519Instruction)
    else
      var data := previous.value.data;
      if |data| < 16 then Err(MalformedEd25519Instruction)
      else if data[0] != 1 then Err(MalformedEd25519Instruction)
      else if data[1] != 0 then Err(MalformedEd25519Instruction)
      else
        var (signatureOffset, signatureIx) := (U16At(data, 2), U16At(data, 4));
        var (publicKeyOffset, publicKeyIx) := (U16At(data, 6), U16At(data, 8));
        var (messageOffset, messageSize, messageIx) := (U16At(data, 10), U16At(data, 12), U16At(data, 14));
        if !(signatureIx == U16_MAX && publicKeyIx == U16_MAX && messageIx == U16_MAX) then Err(Ed25519IndirectReference)
        else if messageSize != |expectedMessage| then Err(ClaimMessageMismatch)
        else if !(signatureOffset + 64 <= |data| && publicKeyOffset + 32 <= |data| && messageOffset + messageSize <= |data|)
        then Err(MalformedEd25519Instruction)
        else if data[publicKeyOffset..publicKeyOffset + 32] != expectedSigner then Err(ClaimSignerMismatch)
        else if data[messageOffset..messageOffset + messageSize] != expectedMessage then Err(ClaimMessageMismatch)
        else Ok(())
  }

  // ---- what the precompile itself verifies ----

  datatype Checked = Checked(key: Pubkey, message: seq<Byte>, signature: Signature)

  /** One 14-byte offsets entry of the precompile's table. */
  datatype Offsets = Offsets(signature: U16, signatureIx: U16, key: U16, keyIx: U16, message: U16, size: U16, messageIx: U16)

  function OffsetsAt(data: seq<Byte>, entry: nat): Offsets
    requires 2 + 14 * (entry + 1) <= |data|
  {
    var o := 2 + 14 * entry;
    Offsets(U16At(data, o), U16At(data, o + 2), U16At(data, o + 4), U16At(data, o + 6), U16At(data, o + 8), U16At(data, o + 10), U16At(data, o + 12))
  }

  /** A region of this instruction's own data; None when it points elsewhere or out of bounds. */
  function Region(data: seq<Byte>, ix: U16, at: nat, len: nat): Option<seq<Byte>> {
    if ix == SELF_REF && at + len <= |data| then Some(data[at..at + len]) else None
  }

  /** The single tuple the precompile checks, when there is exactly one and it lies in its own data. */
  function PrecompileChecks(data: seq<Byte>): Option<Checked> {
    if |data| < 16 || data[0] != 1 then None
    else
      var o := OffsetsAt(data, 0);
      var (key, message, signature) :=
        (Region(data, o.keyIx, o.key, 32), Region(data, o.messageIx, o.message, o.size), Region(data, o.signatureIx, o.signature, 64));
      if key.Some? && message.Some? && signature.Some?
      then Some(Checked(key.value, message.value, signature.value)) else None
  }

  /**
   Binding, for arbitrary instruction bytes: the program accepts exactly when the
   previous instruction is a precompile call whose one checked tuple carries the
   session's agent key and this very message.
   */
  lemma AcceptsExactlyTheCheckedTuple(previous: Option<Instruction>, signer: Pubkey, message: seq<Byte>)
    ensures VerifyEd25519Claim(previous, signer, message).Ok? <==>
      && previous.Some? && previous.value.programId == ED25519_PROGRAM_ID
      && PrecompileChecks(previous.value.data).Some?
      && previous.value.data[1] == 0
      && PrecompileChecks(previous.value.data).value.key == signer
      && PrecompileChecks(previous.value.data).value.message == message
  {
    if previous.Some? && |previous.value.data| >= 16 {
      var data := previous.value.data;
      var (at, size) := (U16At(data, 10), U16At(data, 12));
      assert at + size <= |data| ==> |data[at..at + size]| == size;
    }
  }

  lemma HeaderFields(signer: Pubkey, signature: Signature, message: seq<Byte>)
    ensures
      var data := InstructionData(signer, signature, message);
      && data[0] == 1 && data[1] == 0
      && OffsetsAt(data, 0) ==
         Offsets(SIGNATURE_OFFSET, SELF_REF, PUBKEY_OFFSET, SELF_REF, MESSAGE_OFFSET, |message| % (U16_MAX + 1), SELF_REF)
      && data[16..48] == signer && data[48..112] == signature && data[112..] == message
  {
    var data := InstructionData(signer, signature, message);
    var head := Header(|message|);
    assert data[..16] == head;
    assert forall i :: 0 <= i < 16 ==> data[i] == head[i];
    assert head[12] == (|message| % (U16_MAX + 1)) % 256 && head[13] == (|message| % (U16_MAX + 1)) / 256;
  }

  /** The sixteen header bytes one by one, then key, signature and message. */
  lemma HeaderBytes(signer: Pubkey, signature: Signature, message: seq<Byte>)
    ensures
      var (data, n) := (InstructionData(signer, signature, message), |message|);
      && data[..16] == [1, 0, 48, 0, 255, 255, 16, 0, 255, 255, 112, 0, n % 256, n / 256 % 256, 255, 255]
      && data[16..48] == signer && data[48..112] == signature && data[112..] == message
  {
    var (data, n) := (InstructionData(signer, signature, message), |message|);
    HeaderFields(signer, signature, message);
    assert n % 65536 % 256 == n % 256 && n % 65536 / 256 == n / 256 % 256;
    assert Header(n) == [1, 0, 48, 0, 255, 255, 16, 0, 255, 255, 112, 0, n % 256, n / 256 % 256, 255, 255];
    assert data[..16] == Header(n);
  }

  /**
   Round trip: what the gateway builds over a message is accepted for that signer
   and message exactly when the message's length fits the 16-bit field; and then
   the precompile checks that signature and no other.
   */
  lemma BuiltInstructionAccepted(signer: Pubkey, signature: Signature, message: seq<Byte>)
    ensures
      var data := InstructionData(signer, signature, message);
      && (VerifyEd25519Claim(Some(Instruction(ED25519_PROGRAM_ID, data)), signer, message).Ok? <==> |message| <= U16_MAX)
      && (|message| <= U16_MAX ==> PrecompileChecks(data) == Some(Checked(signer, message, signature)))
  {
    HeaderFields(signer, signature, message);
    var data := InstructionData(signer, signature, message);
    assert OffsetsAt(data, 0).size == U16At(data, 12);
    if |message| <= U16_MAX {
      assert data[112..112 + |message|] == message;
    }
  }

  /** A claim message always fits. */
  lemma ClaimInstructionAccepted(agent: Pubkey, claim: Claim, signature: Signature)
    ensures
      var data := InstructionData(agent, signature, MessageOf(claim));
      && VerifyEd25519Claim(Some(Instruction(ED25519_PROGRAM_ID, data)), agent, MessageOf(claim)) == Ok(())
      && PrecompileChecks(data) == Some(Checked(agent, MessageOf(claim), signature))
  {
    BuiltInstructionAccepted(agent, signature, MessageOf(claim));
  }
}
