/**
  The balance invariant: every user's balance equals a base amount plus the
  signed contributions of the operations that user owns. The base is set
  when the user is created and reset when the profile update overwrites the
  balance; every operation mutation keeps it.
 */
module Consistency {
  import opened Models
  import opened Schemas
  import opened Crud
  import opened Totals

  /** `balance(u) == base(u) + Σ contribution(op)` over the operations owned by `u`, for every user. */
  ghost predicate Consistent(l: Ledger, base: map<UserId, real>) {
    forall u :: u in l.users ==> u in base && l.users[u].balance == base[u] + Total(l.ops, u)
  }

  // ---------------------------------------------------------------- the two primitives

  /** Applying then rolling back the same (type, value) restores the ledger exactly. */
  lemma ApplyThenRollback(l: Ledger, u: UserId, kind: string, value: real)
    requires KnownKind(kind) && u in l.users
    ensures UpdateUsersBalance(l, u, kind, value).Returned?
    ensures RollbackUsersBalance(UpdateUsersBalance(l, u, kind, value).state, u, kind, value) == Returned(l, ())
  {
    var applied := UpdateUsersBalance(l, u, kind, value).state;
    assert applied.users[u].balance - Contribution(kind, value) == l.users[u].balance;
    assert applied.users[u := l.users[u]] == l.users;
  }

  /** Rolling back then applying the same (type, value) restores the ledger exactly. */
  lemma RollbackThenApply(l: Ledger, u: UserId, kind: string, value: real)
    requires KnownKind(kind) && u in l.users
    ensures RollbackUsersBalance(l, u, kind, value).Returned?
    ensures UpdateUsersBalance(RollbackUsersBalance(l, u, kind, value).state, u, kind, value) == Returned(l, ())
  {
    var reversed := RollbackUsersBalance(l, u, kind, value).state;
    assert reversed.users[u].balance + Contribution(kind, value) == l.users[u].balance;
    assert reversed.users[u := l.users[u]] == l.users;
  }

  /** A user's operations as listed by the owner filter carry that user's whole sum. */
  lemma OwnedOperationsCarryTotal(l: Ledger, u: UserId)
    ensures Total(GetOperationsByUser(l, u), u) == Total(l.ops, u)
  {
    TotalOwned(l.ops, u);
  }

  // ---------------------------------------------------------------- operation mutations

  /** `create_operation` keeps every user's base, whether it succeeds or fails. */
  lemma CreateOperationKeepsConsistency(l: Ledger, base: map<UserId, real>, s: OperationCreate)
    requires Stored(l) && Consistent(l, base)
    ensures Consistent(CreateOperation(l, s).state, base)
  {
    var r := CreateOperation(l, s);
    if r.Returned? {
      forall v | v in r.state.users
        ensures r.state.users[v].balance == base[v] + Total(r.state.ops, v)
      {
        TotalInsert(l.ops, r.value, OperationOf(s), v);
      }
    }
  }

  /** A successful `update_operation` keeps every user's base; a failure other than the drift below changes nothing. */
  lemma UpdateOperationKeepsConsistency(l: Ledger, base: map<UserId, real>, id: OpId, s: OperationUpdate)
    requires Consistent(l, base)
    ensures UpdateOperation(l, id, s).Returned? ==> Consistent(UpdateOperation(l, id, s).state, base)
    ensures UpdateOperation(l, id, s).Raised? && (id !in l.ops || KnownKind(s.kind)) ==> UpdateOperation(l, id, s).state == l
  {
    var r := UpdateOperation(l, id, s);
    if r.Returned? {
      var o := l.ops[id];
      forall v | v in r.state.users
        ensures r.state.users[v].balance == base[v] + Total(r.state.ops, v)
      {
        TotalReplace(l.ops, id, Revised(o, s), v);
      }
    }
  }

  /**
    `update_operation` with an unknown new type: it raises ValueError, the
    operation is left as it was, but its owner's balance has lost the old
    contribution, so a consistent ledger stops being consistent.
   */
  lemma UpdateOperationInvalidTypeDrifts(l: Ledger, base: map<UserId, real>, id: OpId, s: OperationUpdate)
    requires Valid(l) && id in l.ops && !KnownKind(s.kind)
    ensures var o := l.ops[id];
      var r := UpdateOperation(l, id, s);
      && r == Raised(r.state, ValueError)
      && r.state.ops == l.ops
      && r.state.users.Keys == l.users.Keys
      && r.state.users[o.userId].balance == l.users[o.userId].balance - Contribution(o.kind, o.value)
      && (Consistent(l, base) && o.value > 0.0 ==> !Consistent(r.state, base))
  {
    var o := l.ops[id];
    var r := UpdateOperation(l, id, s);
    if Consistent(l, base) && o.value > 0.0 {
      assert r.state.users[o.userId].balance != base[o.userId] + Total(r.state.ops, o.userId);
    }
  }

  /**
    The update as evidently intended: the new type is checked before
    anything is reversed, so every failure leaves the ledger untouched.
   */
  function UpdateOperationAtomic(l: Ledger, id: OpId, s: OperationUpdate): (r: Outcome<OpId>)
    ensures id !in l.ops ==> r == Raised(l, IndexError)
    ensures id in l.ops && !KnownKind(s.kind) ==> r == Raised(l, ValueError)
    ensures KnownKind(s.kind) ==> r == UpdateOperation(l, id, s)
    ensures r.Raised? ==> r.state == l
  {
    if id !in l.ops then Raised(l, IndexError)
    else if !KnownKind(s.kind) then Raised(l, ValueError)
    else UpdateOperation(l, id, s)
  }

  /** The corrected update keeps every user's base on every outcome. */
  lemma UpdateOperationAtomicKeepsConsistency(l: Ledger, base: map<UserId, real>, id: OpId, s: OperationUpdate)
    requires Consistent(l, base)
    ensures Consistent(UpdateOperationAtomic(l, id, s).state, base)
  {
    UpdateOperationKeepsConsistency(l, base, id, s);
  }

  /** `delete_operation` keeps every user's base, whether it deletes, finds nothing or fails. */
  lemma DeleteOperationKeepsConsistency(l: Ledger, base: map<UserId, real>, id: OpId)
    requires Consistent(l, base)
    ensures Consistent(DeleteOperation(l, id).state, base)
  {
    var r := DeleteOperation(l, id);
    if r.Returned? && r.value {
      forall v | v in r.state.users
        ensures r.state.users[v].balance == base[v] + Total(r.state.ops, v)
      {
        TotalRemove(l.ops, id, v);
      }
    }
  }

  /** `delete_operation_by_params` keeps every user's base, whichever matching operation it takes. */
  lemma DeleteOperationByParamsKeepsConsistency(
    l: Ledger, base: map<UserId, real>, value: real, kind: string, createdAt: Timestamp, u: UserId)
    requires Consistent(l, base)
    ensures Consistent(DeleteOperationByParams(l, value, kind, createdAt, u).state, base)
  {
    var target := Operation(value, kind, createdAt, u);
    if exists k :: k in l.ops && l.ops[k] == target {
      var k :| k in l.ops && l.ops[k] == target && DeleteOperationByParams(l, value, kind, createdAt, u) == DeleteOperation(l, k);
      DeleteOperationKeepsConsistency(l, base, k);
    }
  }

  // ---------------------------------------------------------------- user mutations

  /** A new user owns no operation yet, so its base is the balance it was created with. */
  lemma CreateUserSetsBase(l: Ledger, base: map<UserId, real>, s: UserBase)
    requires Valid(l) && Consistent(l, base)
    ensures var r := CreateUser(l, s);
      r.Returned? ==> Consistent(r.state, base[r.value := s.balance])
    ensures CreateUser(l, s).Raised? ==> Consistent(CreateUser(l, s).state, base)
  {
    var r := CreateUser(l, s);
    if r.Returned? {
      TotalUnowned(l.ops, r.value);
    }
  }

  /**
    `update_user_by_phone` overwrites the balance directly, which resets the
    user's base to the new balance minus what its operations contribute;
    nobody else's base moves.
   */
  lemma UpdateUserByPhoneResetsBase(l: Ledger, base: map<UserId, real>, phone: int, s: UserBase)
    requires Stored(l) && Consistent(l, base)
    ensures var r := UpdateUserByPhone(l, phone, s);
      r.Returned? ==> Consistent(r.state, base[r.value := s.balance - Total(l.ops, r.value)])
    ensures UpdateUserByPhone(l, phone, s).Raised? ==> Consistent(UpdateUserByPhone(l, phone, s).state, base)
  {
  }

  // ---------------------------------------------------------------- sequences of mutations

  /** A balance-affecting request on operations. */
  datatype Mutation =
    | Create(create: OperationCreate)
    | Update(id: OpId, update: OperationUpdate)
    | Delete(id: OpId)
  {
    predicate Valid() {
      match this
      case Create(c) => c.Valid()
      case Update(_, u) => u.Valid()
      case Delete(_) => true
    }
  }

  /**
    The committed state after one mutation, whatever it returned or raised,
    with both corrections applied: no user is added or removed.
   */
  function Apply(l: Ledger, m: Mutation): (l': Ledger)
    requires Valid(l) && m.Valid()
    ensures Valid(l')
    ensures l'.users.Keys == l.users.Keys
  {
    match m
    case Create(c) => CreateOperationChecked(l, c).state
    case Update(id, u) => UpdateOperationAtomic(l, id, u).state
    case Delete(id) => DeleteOperation(l, id).state
  }

  /** The committed state after a sequence of mutations: users are never added or removed. */
  function Run(l: Ledger, ms: seq<Mutation>): (l': Ledger)
    requires Valid(l)
    requires forall i :: 0 <= i < |ms| ==> ms[i].Valid()
    ensures Valid(l')
    ensures l'.users.Keys == l.users.Keys
    decreases |ms|
  {
    if ms == [] then l else Run(Apply(l, ms[0]), ms[1..])
  }

  /**
    After any sequence of creates, updates and deletes of operations, every
    balance is still its base plus its operations' contributions, once the
    update checks the new type before reversing anything.
   */
  lemma {:induction false} RunKeepsConsistency(l: Ledger, base: map<UserId, real>, ms: seq<Mutation>)
    requires Valid(l) && Consistent(l, base)
    requires forall i :: 0 <= i < |ms| ==> ms[i].Valid()
    ensures Consistent(Run(l, ms), base)
    decreases |ms|
  {
    if ms != [] {
      var m := ms[0];
      match m {
        case Create(c) => CreateOperationKeepsConsistency(l, base, c);
        case Update(id, u) => UpdateOperationAtomicKeepsConsistency(l, base, id, u);
        case Delete(id) => DeleteOperationKeepsConsistency(l, base, id);
      }
      RunKeepsConsistency(Apply(l, m), base, ms[1..]);
    }
  }
}
