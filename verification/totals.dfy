/**
  The sum of the contributions of a user's operations, and how it changes
  when one operation is added, replaced or removed.
 */
module Totals {
  import opened Models

  /** What one operation contributes to user `u`'s balance: nothing unless `u` owns it. */
  function Share(op: Operation, u: UserId): real {
    if op.userId == u then Contribution(op.kind, op.value) else 0.0
  }

  /** Σ Share(ops[k], u) over the keys `ks`. */
  ghost function SumOver(ops: map<OpId, Operation>, ks: set<OpId>, u: UserId): real
    requires ks <= ops.Keys
    decreases ks
  {
    if ks == {} then 0.0
    else
      NonEmptyHasMember(ks);
      var k :| k in ks;
      Share(ops[k], u) + SumOver(ops, ks - {k}, u)
  }

  /** Σ contribution(op) over the operations owned by `u`. */
  ghost function Total(ops: map<OpId, Operation>, u: UserId): real {
    SumOver(ops, ops.Keys, u)
  }

  /** The sum does not depend on which key is taken out first. */
  lemma {:induction false} SumRemove(ops: map<OpId, Operation>, ks: set<OpId>, k: OpId, u: UserId)
    requires ks <= ops.Keys && k in ks
    ensures SumOver(ops, ks, u) == Share(ops[k], u) + SumOver(ops, ks - {k}, u)
    decreases ks
  {
    var j :| j in ks && SumOver(ops, ks, u) == Share(ops[j], u) + SumOver(ops, ks - {j}, u);
    if j != k {
      SumRemove(ops, ks - {j}, k, u);
      SumRemove(ops, ks - {k}, j, u);
      assert ks - {j} - {k} == ks - {k} - {j};
    }
  }

  /** The sum only reads the entries under `ks`. */
  lemma {:induction false} SumFrame(ops: map<OpId, Operation>, ops': map<OpId, Operation>, ks: set<OpId>, u: UserId)
    requires ks <= ops.Keys && ks <= ops'.Keys
    requires forall k :: k in ks ==> ops[k] == ops'[k]
    ensures SumOver(ops, ks, u) == SumOver(ops', ks, u)
    decreases ks
  {
    if ks != {} {
      NonEmptyHasMember(ks);
      var j :| j in ks && SumOver(ops, ks, u) == Share(ops[j], u) + SumOver(ops, ks - {j}, u);
      SumRemove(ops', ks, j, u);
      SumFrame(ops, ops', ks - {j}, u);
    }
  }

  /** Keys whose entries contribute nothing to `u` can be left out of the sum. */
  lemma {:induction false} SumDropZero(ops: map<OpId, Operation>, ks: set<OpId>, keep: set<OpId>, u: UserId)
    requires ks <= ops.Keys
    requires forall k :: k in ks && k !in keep ==> Share(ops[k], u) == 0.0
    ensures SumOver(ops, ks * keep, u) == SumOver(ops, ks, u)
    decreases ks
  {
    if ks != {} {
      NonEmptyHasMember(ks);
      var j :| j in ks && SumOver(ops, ks, u) == Share(ops[j], u) + SumOver(ops, ks - {j}, u);
      SumDropZero(ops, ks - {j}, keep, u);
      if j in keep {
        SumRemove(ops, ks * keep, j, u);
        assert ks * keep - {j} == (ks - {j}) * keep;
      } else {
        assert ks * keep == (ks - {j}) * keep;
      }
    }
  }

  /** Removing an operation removes its share. */
  lemma TotalRemove(ops: map<OpId, Operation>, k: OpId, u: UserId)
    requires k in ops
    ensures Total(ops - {k}, u) == Total(ops, u) - Share(ops[k], u)
  {
    SumRemove(ops, ops.Keys, k, u);
    assert (ops - {k}).Keys == ops.Keys - {k};
    SumFrame(ops, ops - {k}, ops.Keys - {k}, u);
  }

  /** Adding a new operation adds its share. */
  lemma TotalInsert(ops: map<OpId, Operation>, k: OpId, op: Operation, u: UserId)
    requires k !in ops
    ensures Total(ops[k := op], u) == Total(ops, u) + Share(op, u)
  {
    TotalRemove(ops[k := op], k, u);
    assert ops[k := op] - {k} == ops;
  }

  /** Replacing an operation swaps its old share for its new one. */
  lemma TotalReplace(ops: map<OpId, Operation>, k: OpId, op: Operation, u: UserId)
    requires k in ops
    ensures Total(ops[k := op], u) == Total(ops, u) - Share(ops[k], u) + Share(op, u)
  {
    TotalRemove(ops[k := op], k, u);
    TotalRemove(ops, k, u);
    assert ops[k := op] - {k} == ops - {k};
  }

  /** Dropping operations that contribute nothing to `u` leaves `u`'s sum alone. */
  lemma TotalRestrict(ops: map<OpId, Operation>, keep: set<OpId>, u: UserId)
    requires forall k :: k in ops && k !in keep ==> Share(ops[k], u) == 0.0
    ensures Total(map k | k in ops && k in keep :: ops[k], u) == Total(ops, u)
  {
    var kept := map k | k in ops && k in keep :: ops[k];
    assert kept.Keys == ops.Keys * keep;
    SumDropZero(ops, ops.Keys, keep, u);
    SumFrame(ops, kept, ops.Keys * keep, u);
  }

  /** A user who owns no operation has a sum of zero. */
  lemma TotalUnowned(ops: map<OpId, Operation>, u: UserId)
    requires forall k :: k in ops ==> ops[k].userId != u
    ensures Total(ops, u) == 0.0
  {
    SumDropZero(ops, ops.Keys, {}, u);
    assert ops.Keys * {} == {};
  }

  /** A user's sum is fixed by the operations carrying that user's id, and by no others. */
  lemma TotalOwned(ops: map<OpId, Operation>, u: UserId)
    ensures Total(OwnedBy(ops, u), u) == Total(ops, u)
  {
    var mine := set k | k in ops && ops[k].userId == u;
    TotalRestrict(ops, mine, u);
    assert OwnedBy(ops, u) == map k | k in ops && k in mine :: ops[k];
  }
}
