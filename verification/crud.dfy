/**
  The ledger's data-access functions. Each call returns the state the
  database holds once the call is over (what it committed) together with
  either its return value or the exception it raised: a call that raises
  after an intermediate commit leaves that commit behind.
 */
module Crud {
  import opened Models
  import opened Schemas
  import PyStr

  /** The Python exception classes the calls raise; the routes dispatch on the class. */
  datatype Exc =
    | BareException   // a plain `raise Exception`
    | IntegrityError  // the database refusing a second user with the same phone
    | SyntaxError     // a replacement phone that is too short
    | ValueError      // an operation type other than "payment" or "wage"
    | IndexError      // no operation with the given id
    | AttributeError  // `.balance` read on the `None` that a missing user's lookup gives

  datatype Outcome<T> = Returned(state: Ledger, value: T) | Raised(state: Ledger, exc: Exc)

  /** The phone check: the decimal string of the number, sign included, has at least 10 characters. */
  predicate PhoneLengthOk(phone: int) {
    |PyStr.Str(phone)| >= 10
  }

  /**
    The check in numeric terms. A minus sign counts as a character, so a
    negative number passes with nine digits.
   */
  lemma PhoneLengthOkIff(phone: int)
    ensures PhoneLengthOk(phone) <==> phone >= 1_000_000_000 || phone <= -100_000_000
  {
    PyStr.StrLength(phone, 9);
    assert PyStr.Pow10(8) == 100_000_000;
    assert PyStr.Pow10(9) == 1_000_000_000;
  }

  /**
    The boundary for non-negative phones: every number of at most nine digits
    is rejected, every ten-digit number accepted. A negative nine-digit
    number passes, because its sign is counted as a character.
   */
  lemma PhoneLengthBoundary()
    ensures forall p :: 0 <= p < 1_000_000_000 ==> !PhoneLengthOk(p)
    ensures forall p :: 1_000_000_000 <= p < 10_000_000_000 ==> PhoneLengthOk(p)
    ensures PhoneLengthOk(-123_456_789)
  {
    forall p | 0 <= p < 10_000_000_000 {
      PhoneLengthOkIff(p);
    }
    PhoneLengthOkIff(-123_456_789);
  }

  // ---------------------------------------------------------------- users

  /** `create_user`: the length check first, then the UNIQUE constraint on commit. */
  function CreateUser(l: Ledger, s: UserBase): (r: Outcome<UserId>)
    requires Stored(l)
    ensures !PhoneLengthOk(s.phone) ==> r == Raised(l, BareException)
    ensures PhoneLengthOk(s.phone) && PhoneTaken(l.users, s.phone) ==> r == Raised(l, IntegrityError)
    ensures r.Returned? <==> PhoneLengthOk(s.phone) && !PhoneTaken(l.users, s.phone)
    ensures r.Returned? ==>
      && r.value !in l.users
      && r.state.users == l.users[r.value := UserOf(s)]
      && r.state.ops == l.ops
      && Stored(r.state)
    ensures Valid(l) && s.Valid() ==> Valid(r.state)
  {
    if !PhoneLengthOk(s.phone) then Raised(l, BareException)
    else if PhoneTaken(l.users, s.phone) then Raised(l, IntegrityError)
    else
      var id := l.nextUserId;
      Returned(l.(users := l.users[id := UserOf(s)], nextUserId := id + 1), id)
  }

  /** `get_user`: the row stored under the id, if any. */
  function GetUser(l: Ledger, id: UserId): (r: Option<User>)
    ensures r.Some? <==> id in l.users
    ensures r.Some? ==> r.value == l.users[id]
  {
    if id in l.users then Some(l.users[id]) else None
  }

  /** `get_user_by_phone`: with phones unique, the match is the only one. */
  function GetUserByPhone(l: Ledger, phone: int): (r: Option<UserId>)
    requires UniquePhones(l.users)
    ensures r.None? <==> !PhoneTaken(l.users, phone)
    ensures r.Some? ==> r.value in l.users && l.users[r.value].phone == phone
    ensures r.Some? ==> forall k :: k in l.users && l.users[k].phone == phone ==> k == r.value
  {
    if PhoneTaken(l.users, phone) then
      var k :| k in l.users && l.users[k].phone == phone;
      Some(k)
    else None
  }

  /** Every stored user is found again by its own phone. */
  lemma GetUserByPhoneFindsEveryUser(l: Ledger, k: UserId)
    requires UniquePhones(l.users) && k in l.users
    ensures GetUserByPhone(l, l.users[k].phone) == Some(k)
  {
  }

  /**
    `update_user_by_phone`: the lookup fails before the new phone is checked;
    on success all five fields are overwritten, the balance included. A new
    phone held by a different user makes the commit fail.
   */
  function UpdateUserByPhone(l: Ledger, phone: int, s: UserBase): (r: Outcome<UserId>)
    requires Stored(l)
    ensures !PhoneTaken(l.users, phone) ==> r == Raised(l, BareException)
    ensures PhoneTaken(l.users, phone) && !PhoneLengthOk(s.phone) ==> r == Raised(l, SyntaxError)
    ensures PhoneTaken(l.users, phone) && PhoneLengthOk(s.phone) && s.phone != phone && PhoneTaken(l.users, s.phone) ==>
      r == Raised(l, IntegrityError)
    ensures r.Returned? <==>
      PhoneTaken(l.users, phone) && PhoneLengthOk(s.phone) && (s.phone == phone || !PhoneTaken(l.users, s.phone))
    ensures r.Raised? ==> r.state == l
    ensures r.Returned? ==>
      && r.value in l.users
      && l.users[r.value].phone == phone
      && r.state == l.(users := l.users[r.value := UserOf(s)])
    ensures Valid(l) && s.Valid() ==> Valid(r.state)
  {
    match GetUserByPhone(l, phone)
    case None => Raised(l, BareException)
    case Some(k) =>
      if !PhoneLengthOk(s.phone) then Raised(l, SyntaxError)
      else if exists j :: j in l.users && j != k && l.users[j].phone == s.phone then Raised(l, IntegrityError)
      else Returned(l.(users := l.users[k := UserOf(s)]), k)
  }

  /** `delete_user`: removes the row only; operations that name the user are not touched. */
  function DeleteUser(l: Ledger, u: UserId): (r: Outcome<bool>)
    ensures r.Returned? && (r.value <==> u in l.users)
    ensures r.state == l.(users := l.users - {u})
    ensures Valid(l) && (forall k :: k in l.ops ==> l.ops[k].userId != u) ==> Valid(r.state)
  {
    if u in l.users then Returned(l.(users := l.users - {u}), true) else Returned(l, false)
  }

  // ---------------------------------------------------------------- balance

  /**
    `update_users_balance`: a payment takes `value` off, a wage adds it; any
    other type raises before the balance is touched, and for a known type a
    missing user fails on the `None` lookup result.
   */
  function UpdateUsersBalance(l: Ledger, u: UserId, kind: string, value: real): (r: Outcome<()>)
    ensures !KnownKind(kind) ==> r == Raised(l, ValueError)
    ensures KnownKind(kind) && u !in l.users ==> r == Raised(l, AttributeError)
    ensures KnownKind(kind) && u in l.users ==>
      r == Returned(WithBalance(l, u, l.users[u].balance + Contribution(kind, value)), ())
  {
    if kind == Payment then
      if u in l.users then Returned(WithBalance(l, u, l.users[u].balance - value), ())
      else Raised(l, AttributeError)
    else if kind == Wage then
      if u in l.users then Returned(WithBalance(l, u, l.users[u].balance + value), ())
      else Raised(l, AttributeError)
    else Raised(l, ValueError)
  }

  /** `rollback_users_balance`: the opposite effect, with the same failure order. */
  function RollbackUsersBalance(l: Ledger, u: UserId, kind: string, value: real): (r: Outcome<()>)
    ensures !KnownKind(kind) ==> r == Raised(l, ValueError)
    ensures KnownKind(kind) && u !in l.users ==> r == Raised(l, AttributeError)
    ensures KnownKind(kind) && u in l.users ==>
      r == Returned(WithBalance(l, u, l.users[u].balance - Contribution(kind, value)), ())
  {
    if kind == Wage then
      if u in l.users then Returned(WithBalance(l, u, l.users[u].balance - value), ())
      else Raised(l, AttributeError)
    else if kind == Payment then
      if u in l.users then Returned(WithBalance(l, u, l.users[u].balance + value), ())
      else Raised(l, AttributeError)
    else Raised(l, ValueError)
  }

  // ---------------------------------------------------------------- operations

  /**
    `create_operation`. Its guard tests a coroutine object, which is always
    true, so the owner's existence is only noticed inside the balance update:
    a bad type raises ValueError even for a missing user. The operation is
    stored only after the balance update succeeded.
   */
  function CreateOperation(l: Ledger, s: OperationCreate): (r: Outcome<OpId>)
    requires Stored(l)
    ensures !KnownKind(s.kind) ==> r == Raised(l, ValueError)
    ensures KnownKind(s.kind) && s.userId !in l.users ==> r == Raised(l, AttributeError)
    ensures r.Returned? <==> KnownKind(s.kind) && s.userId in l.users
    ensures r.Returned? ==>
      && r.value !in l.ops
      && r.state.ops == l.ops[r.value := OperationOf(s)]
      && r.state.users == WithBalance(l, s.userId, l.users[s.userId].balance + Contribution(s.kind, s.value)).users
      && Stored(r.state)
    ensures Valid(l) && s.Valid() ==> Valid(r.state)
  {
    var applied := UpdateUsersBalance(l, s.userId, s.kind, s.value);
    if applied.Raised? then Raised(applied.state, applied.exc)
    else
      var id := applied.state.nextOpId;
      Returned(applied.state.(ops := applied.state.ops[id := OperationOf(s)], nextOpId := id + 1), id)
  }

  /**
    The guard of `create_operation` never sees the user (the lookup is not
    awaited), so a missing owner with an unknown type is reported as a bad
    type rather than as a missing user.
   */
  lemma CreateOperationSkipsOwnerCheck(l: Ledger, s: OperationCreate)
    requires Stored(l) && s.userId !in l.users && !KnownKind(s.kind)
    ensures CreateOperation(l, s) == Raised(l, ValueError)
  {
  }

  /** `create_operation` with the owner check it evidently intended: a missing user is refused first. */
  function CreateOperationChecked(l: Ledger, s: OperationCreate): (r: Outcome<OpId>)
    requires Stored(l)
    ensures s.userId !in l.users ==> r == Raised(l, BareException)
    ensures s.userId in l.users && !KnownKind(s.kind) ==> r == Raised(l, ValueError)
    ensures r.Returned? <==> KnownKind(s.kind) && s.userId in l.users
    ensures r.Returned? ==> r == CreateOperation(l, s)
    ensures r.Raised? ==> r.state == l
    ensures Valid(l) && s.Valid() ==> Valid(r.state)
  {
    if s.userId !in l.users then Raised(l, BareException) else CreateOperation(l, s)
  }

  /** `get_operations_by_user`: exactly the operations carrying the user's id. */
  function GetOperationsByUser(l: Ledger, u: UserId): (r: map<OpId, Operation>)
    ensures forall k :: k in r <==> k in l.ops && l.ops[k].userId == u
    ensures forall k :: k in r ==> r[k] == l.ops[k]
  {
    OwnedBy(l.ops, u)
  }

  /** `get_operations_by_date`: the user's operations stamped with exactly `date`. */
  function GetOperationsByDate(l: Ledger, u: UserId, date: Timestamp): (r: map<OpId, Operation>)
    ensures forall k :: k in r <==> k in GetOperationsByUser(l, u) && l.ops[k].createdAt == date
    ensures forall k :: k in r ==> r[k] == l.ops[k]
  {
    map k | k in l.ops && l.ops[k].userId == u && l.ops[k].createdAt == date :: l.ops[k]
  }

  /** The date filters split a user's operations: each one is listed under its own instant and no other. */
  lemma DateFilterSplitsOwned(l: Ledger, u: UserId, k: OpId)
    requires k in GetOperationsByUser(l, u)
    ensures k in GetOperationsByDate(l, u, l.ops[k].createdAt)
    ensures forall d :: k in GetOperationsByDate(l, u, d) ==> d == l.ops[k].createdAt
  {
  }

  /** The operation `o` after an update with body `s`: same id, same owner. */
  function Revised(o: Operation, s: OperationUpdate): Operation {
    o.(value := s.value, kind := s.kind, createdAt := s.createdAt)
  }

  /**
    `update_operation`: reverse the stored effect (committed at once), then
    apply the new one. When the new type is unknown the reversal stays
    committed and the edited fields are never committed.
   */
  function UpdateOperation(l: Ledger, id: OpId, s: OperationUpdate): (r: Outcome<OpId>)
    ensures id !in l.ops ==> r == Raised(l, IndexError)
    ensures id in l.ops && !KnownKind(l.ops[id].kind) ==> r == Raised(l, ValueError)
    ensures id in l.ops && KnownKind(l.ops[id].kind) && l.ops[id].userId !in l.users ==>
      r == Raised(l, AttributeError)
    ensures id in l.ops && KnownKind(l.ops[id].kind) && l.ops[id].userId in l.users ==>
      var o := l.ops[id];
      var reversed := WithBalance(l, o.userId, l.users[o.userId].balance - Contribution(o.kind, o.value));
      if KnownKind(s.kind) then
        r == Returned(
          WithBalance(l, o.userId, reversed.users[o.userId].balance + Contribution(s.kind, s.value))
            .(ops := l.ops[id := Revised(o, s)]),
          id)
      else
        r == Raised(reversed, ValueError)
    ensures r.Returned? ==> id in r.state.ops && r.state.ops[id].userId == l.ops[id].userId
    ensures Valid(l) && s.Valid() ==> Valid(r.state)
  {
    if id !in l.ops then Raised(l, IndexError)
    else
      var o := l.ops[id];
      var reversed := RollbackUsersBalance(l, o.userId, o.kind, o.value);
      if reversed.Raised? then Raised(reversed.state, reversed.exc)
      else
        var o' := Revised(o, s);
        var applied := UpdateUsersBalance(reversed.state, o'.userId, o'.kind, o'.value);
        if applied.Raised? then Raised(reversed.state, applied.exc)
        else Returned(applied.state.(ops := applied.state.ops[id := o']), id)
  }

  /** Reverse the effect of the stored operation `k`, then remove it. */
  function DropOperation(l: Ledger, k: OpId): (r: Outcome<bool>)
    requires k in l.ops
  {
    var o := l.ops[k];
    var reversed := RollbackUsersBalance(l, o.userId, o.kind, o.value);
    if reversed.Raised? then Raised(reversed.state, reversed.exc)
    else Returned(reversed.state.(ops := reversed.state.ops - {k}), true)
  }

  /** `delete_operation`: false and no change for an unknown id. */
  function DeleteOperation(l: Ledger, id: OpId): (r: Outcome<bool>)
    ensures id !in l.ops ==> r == Returned(l, false)
    ensures id in l.ops && !KnownKind(l.ops[id].kind) ==> r == Raised(l, ValueError)
    ensures id in l.ops && KnownKind(l.ops[id].kind) && l.ops[id].userId !in l.users ==>
      r == Raised(l, AttributeError)
    ensures id in l.ops && KnownKind(l.ops[id].kind) && l.ops[id].userId in l.users ==>
      var o := l.ops[id];
      r == Returned(
        WithBalance(l, o.userId, l.users[o.userId].balance - Contribution(o.kind, o.value))
          .(ops := l.ops - {id}),
        true)
    ensures Valid(l) ==> Valid(r.state) && r.Returned? && (r.value <==> id in l.ops)
  {
    if id !in l.ops then Returned(l, false) else DropOperation(l, id)
  }

  /**
    `delete_operation_by_params`: finds an operation equal in all four
    fields. Which one is taken among several equal ones depends on storage
    order, so the choice is left open here.
   */
  ghost function DeleteOperationByParams(l: Ledger, value: real, kind: string, createdAt: Timestamp, u: UserId): (r: Outcome<bool>)
    ensures (forall k :: k in l.ops ==> l.ops[k] != Operation(value, kind, createdAt, u)) ==> r == Returned(l, false)
    ensures (exists k :: k in l.ops && l.ops[k] == Operation(value, kind, createdAt, u)) ==>
      exists k :: k in l.ops && l.ops[k] == Operation(value, kind, createdAt, u) && r == DeleteOperation(l, k)
  {
    var target := Operation(value, kind, createdAt, u);
    if exists k :: k in l.ops && l.ops[k] == target then
      var k :| k in l.ops && l.ops[k] == target;
      DropOperation(l, k)
    else Returned(l, false)
  }
}
