/**
 Human decisions on proposed spends (`gateway/src/control_db.rs`). An agent's id
 stands one to one for its key; an approval's id is its place in creation order.
 */
module Approvals {
  import opened Bytes
  import opened Wrappers
  import opened Postgres

  datatype ApprovalState = Pending | Approved | Rejected | Consumed

  datatype ApprovalRow = ApprovalRow(agent: Pubkey, resource: string, price: I64, state: ApprovalState)

  /** What an approval is for. */
  datatype Proposal = Proposal(agent: Pubkey, resource: string, price: U64)

  predicate For(row: ApprovalRow, p: Proposal, state: ApprovalState) {
    row == ApprovalRow(p.agent, p.resource, row.price, state) && row.price == p.price
  }

  /** The earliest such row: ORDER BY created_at LIMIT 1. */
  function FirstFor(rows: seq<ApprovalRow>, p: Proposal, state: ApprovalState): (i: Option<nat>)
    ensures i.Some? ==> i.value < |rows| && For(rows[i.value], p, state)
    ensures i.None? ==> forall k :: 0 <= k < |rows| ==> !For(rows[k], p, state)
    ensures i.Some? ==> forall k :: 0 <= k < i.value ==> !For(rows[k], p, state)
  {
    if rows == [] then None
    else
      var earlier := FirstFor(rows[..|rows| - 1], p, state);
      if earlier.Some? then earlier
      else if For(rows[|rows| - 1], p, state) then Some(|rows| - 1) else None
  }

  function CreateApproval(rows: seq<ApprovalRow>, p: Proposal): DbResult<seq<ApprovalRow>> {
    if p.price > I64_MAX then Err(OutOfRange) else Ok(rows + [ApprovalRow(p.agent, p.resource, p.price, Pending)])
  }

  /** UPDATE .. WHERE state = 'pending'; the flag says whether a row moved. */
  function DecideApproval(rows: seq<ApprovalRow>, id: nat, approved: bool): (seq<ApprovalRow>, bool) {
    if id < |rows| && rows[id].state == Pending
    then (rows[id := rows[id].(state := if approved then Approved else Rejected)], true)
    else (rows, false)
  }

  /** Moves the earliest granted row to consumed; the flag says whether one moved. */
  function ConsumeApproval(rows: seq<ApprovalRow>, p: Proposal): DbResult<(seq<ApprovalRow>, bool)> {
    if p.price > I64_MAX then Err(OutOfRange)
    else
      match FirstFor(rows, p, Approved)
      case None => Ok((rows, false))
      case Some(i) => Ok((rows[i := rows[i].(state := Consumed)], true))
  }

  function HasPendingApproval(rows: seq<ApprovalRow>, p: Proposal): DbResult<bool> {
    if p.price > I64_MAX then Err(OutOfRange) else Ok(FirstFor(rows, p, Pending).Some?)
  }

  class ControlDb {
    var approvals: seq<ApprovalRow>

    constructor ()
      ensures approvals == []
    {
      approvals := [];
    }

    method Create(p: Proposal) returns (r: DbResult<()>)
      modifies this
      ensures
        var after := CreateApproval(old(approvals), p);
        if after.Ok? then r == Ok(()) && approvals == after.value else r == Err(after.error) && approvals == old(approvals)
    {
      if p.price > I64_MAX {
        return Err(OutOfRange);
      }
      approvals := approvals + [ApprovalRow(p.agent, p.resource, p.price, Pending)];
      return Ok(());
    }

    method Decide(id: nat, approved: bool) returns (moved: bool)
      modifies this
      ensures (approvals, moved) == DecideApproval(old(approvals), id, approved)
    {
      moved := id < |approvals| && approvals[id].state == Pending;
      if moved {
        approvals := approvals[id := approvals[id].(state := if approved then Approved else Rejected)];
      }
    }

    method Consume(p: Proposal) returns (r: DbResult<bool>)
      modifies this
      ensures
        var after := ConsumeApproval(old(approvals), p);
        if after.Ok? then r == Ok(after.value.1) && approvals == after.value.0 else r == Err(after.error) && approvals == old(approvals)
    {
      if p.price > I64_MAX {
        return Err(OutOfRange);
      }
      var first := FirstFor(approvals, p, Approved);
      if first.None? {
        return Ok(false);
      }
      approvals := approvals[first.value := approvals[first.value].(state := Consumed)];
      return Ok(true);
    }

    method HasPending(p: Proposal) returns (r: DbResult<bool>)
      ensures r == HasPendingApproval(approvals, p)
    {
      return HasPendingApproval(approvals, p);
    }
  }

  // ---- counting ----

  function CountFor(rows: seq<ApprovalRow>, p: Proposal, state: ApprovalState): nat {
    if rows == [] then 0
    else CountFor(rows[..|rows| - 1], p, state) + (if For(rows[|rows| - 1], p, state) then 1 else 0)
  }

  lemma {:induction false} CountAfterUpdate(rows: seq<ApprovalRow>, i: nat, row: ApprovalRow, p: Proposal, state: ApprovalState)
    requires i < |rows|
    ensures CountFor(rows[i := row], p, state)
         == CountFor(rows, p, state) - (if For(rows[i], p, state) then 1 else 0) + (if For(row, p, state) then 1 else 0)
  {
    var (after, n) := (rows[i := row], |rows| - 1);
    if i < n {
      CountAfterUpdate(rows[..n], i, row, p, state);
      assert after[..n] == rows[..n][i := row];
    } else {
      assert after[..n] == rows[..n];
    }
  }

  /** How many human approvals for p have ever been given: unspent and spent. */
  function Granted(rows: seq<ApprovalRow>, p: Proposal): nat {
    CountFor(rows, p, Approved) + CountFor(rows, p, Consumed)
  }

  lemma CreateGrantsNothing(rows: seq<ApprovalRow>, created: Proposal, p: Proposal)
    requires CreateApproval(rows, created).Ok?
    ensures Granted(CreateApproval(rows, created).value, p) == Granted(rows, p)
    ensures CountFor(CreateApproval(rows, created).value, p, Consumed) == CountFor(rows, p, Consumed)
  {
    var after := CreateApproval(rows, created).value;
    assert after[..|after| - 1] == rows;
  }

  /** A decision grants one approval exactly when it approves a pending proposal, and spends none. */
  lemma {:induction false} DecideGrants(rows: seq<ApprovalRow>, id: nat, approved: bool, p: Proposal)
    ensures
      var (after, moved) := DecideApproval(rows, id, approved);
      && Granted(after, p) == Granted(rows, p) + (if moved && approved && For(rows[id], p, Pending) then 1 else 0)
      && CountFor(after, p, Consumed) == CountFor(rows, p, Consumed)
  {
    var (after, moved) := DecideApproval(rows, id, approved);
    if moved {
      CountAfterUpdate(rows, id, after[id], p, Approved);
      CountAfterUpdate(rows, id, after[id], p, Consumed);
    }
  }

  /** Consuming spends exactly one approval of exactly that proposal, and grants none. */
  lemma {:induction false} ConsumeSpends(rows: seq<ApprovalRow>, spent: Proposal, p: Proposal)
    requires ConsumeApproval(rows, spent).Ok?
    ensures
      var (after, moved) := ConsumeApproval(rows, spent).value;
      && (moved <==> CountFor(rows, spent, Approved) > 0)
      && Granted(after, p) == Granted(rows, p)
      && CountFor(after, p, Consumed) == CountFor(rows, p, Consumed) + (if moved && p == spent then 1 else 0)
  {
    var (after, moved) := ConsumeApproval(rows, spent).value;
    if moved {
      var i := FirstFor(rows, spent, Approved).value;
      CountAfterUpdate(rows, i, after[i], p, Approved);
      CountAfterUpdate(rows, i, after[i], p, Consumed);
      SomeCounted(rows, i, spent, Approved);
    } else {
      NoneCounted(rows, spent, Approved);
    }
  }

  lemma {:induction false} NoneCounted(rows: seq<ApprovalRow>, p: Proposal, state: ApprovalState)
    requires forall k :: 0 <= k < |rows| ==> !For(rows[k], p, state)
    ensures CountFor(rows, p, state) == 0
  {
    if rows != [] {
      NoneCounted(rows[..|rows| - 1], p, state);
    }
  }

  lemma {:induction false} SomeCounted(rows: seq<ApprovalRow>, i: nat, p: Proposal, state: ApprovalState)
    requires i < |rows| && For(rows[i], p, state)
    ensures CountFor(rows, p, state) > 0
  {
    if i < |rows| - 1 {
      SomeCounted(rows[..|rows| - 1], i, p, state);
    }
  }

  /** Something is found exactly when something is counted. */
  lemma FirstIffCounted(rows: seq<ApprovalRow>, p: Proposal, state: ApprovalState)
    ensures FirstFor(rows, p, state).Some? <==> CountFor(rows, p, state) > 0
  {
    if FirstFor(rows, p, state).Some? {
      SomeCounted(rows, FirstFor(rows, p, state).value, p, state);
    } else {
      NoneCounted(rows, p, state);
    }
  }

  /** A decision moves one pending row to what was decided, and touches nothing else. */
  lemma DecidesExactly(rows: seq<ApprovalRow>, id: nat, approved: bool)
    ensures
      var (after, moved) := DecideApproval(rows, id, approved);
      && (moved <==> id < |rows| && rows[id].state == Pending)
      && |after| == |rows|
      && (forall k :: 0 <= k < |rows| && (k != id || !moved) ==> after[k] == rows[k])
      && (moved ==> after[id] == rows[id].(state := after[id].state))
      && (moved && approved ==> after[id].state == Approved)
      && (moved && !approved ==> after[id].state == Rejected)
  {
  }

  lemma CreatePends(rows: seq<ApprovalRow>, created: Proposal, p: Proposal)
    requires CreateApproval(rows, created).Ok?
    ensures CountFor(CreateApproval(rows, created).value, p, Pending) == CountFor(rows, p, Pending) + (if p == created then 1 else 0)
  {
    var after := CreateApproval(rows, created).value;
    assert after[..|after| - 1] == rows;
  }

  lemma ConsumeKeepsPending(rows: seq<ApprovalRow>, spent: Proposal, p: Proposal)
    requires ConsumeApproval(rows, spent).Ok?
    ensures CountFor(ConsumeApproval(rows, spent).value.0, p, Pending) == CountFor(rows, p, Pending)
  {
    var (after, moved) := ConsumeApproval(rows, spent).value;
    if moved {
      var i := FirstFor(rows, spent, Approved).value;
      CountAfterUpdate(rows, i, after[i], p, Pending);
    }
  }

  lemma DecideUnpends(rows: seq<ApprovalRow>, id: nat, approved: bool, p: Proposal)
    ensures CountFor(DecideApproval(rows, id, approved).0, p, Pending) <= CountFor(rows, p, Pending)
  {
    var (after, moved) := DecideApproval(rows, id, approved);
    if moved {
      CountAfterUpdate(rows, id, after[id], p, Pending);
    }
  }

  // ---- decisions are final ----

  /** What may become of a row: nothing, a decision while pending, or being spent while approved. */
  predicate MovesTo(before: ApprovalState, after: ApprovalState) {
    after == before || (before.Pending? && !after.Pending?) || (before.Approved? && after.Consumed?)
  }

  /** Every later table still holds each row, unchanged but for a lawful move. */
  predicate Follows(rows: seq<ApprovalRow>, later: seq<ApprovalRow>) {
    |rows| <= |later| && forall i :: 0 <= i < |rows| ==>
      later[i] == rows[i].(state := later[i].state) && MovesTo(rows[i].state, later[i].state)
  }
}
