/**
  The HTTP handlers for users and operations: which exception becomes which
  status, which notification follows a success, and the cascade that deletes
  a user's operations before the user.
 */
module Routes {
  import opened Models
  import opened Schemas
  import opened Crud
  import opened Totals
  import opened Consistency
  import PyStr

  datatype Body =
    | UserBody(id: UserId, user: User)
    | OperationBody(id: OpId, op: Operation)
    | Message(text: string)
    | Operations(ops: map<OpId, Operation>)

  /** A successful answer (status 200) or an error status with its detail text. */
  datatype Response = Ok(body: Body) | HttpError(status: int, detail: string)

  /** A notification broadcast to the connected clients. */
  datatype Event =
    | Welcomed(name: string, surname: string)
    | UserUpdated(id: UserId)
    | UserDeleted(id: UserId)
    | OperationAdded(userId: UserId)
    | OperationUpdated(id: OpId)
    | OperationDeleted(id: OpId)
    | OperationOfUserDeleted(userId: UserId)

  /** The text each notification carries. */
  function Text(e: Event): (t: string) {
    match e
    case Welcomed(name, surname) => "Welcome new user : " + name + " " + surname
    case UserUpdated(id) => "User updated: #" + PyStr.Str(id)
    case UserDeleted(id) => "User deleted: #" + PyStr.Str(id)
    case OperationAdded(u) => "User #" + PyStr.Str(u) + " added new operation"
    case OperationUpdated(id) => "Operation updated: #" + PyStr.Str(id)
    case OperationDeleted(id) => "Operation deleted: #" + PyStr.Str(id)
    case OperationOfUserDeleted(u) => "Deleted operation of user #" + PyStr.Str(u)
  }

  /** An id printed between fixed texts can be read back, so equal texts name equal ids. */
  lemma FramedIdReadsBack(pre: string, post: string, a: int, b: int)
    requires pre + PyStr.Str(a) + post == pre + PyStr.Str(b) + post
    ensures a == b
  {
    var t := pre + PyStr.Str(a) + post;
    assert PyStr.Str(a) == t[|pre|..|t| - |post|];
    assert PyStr.Str(b) == t[|pre|..|t| - |post|];
    PyStr.StrRoundTrip(a);
    PyStr.StrRoundTrip(b);
  }

  /** An id printed after a fixed text can be read back, so equal texts name equal ids. */
  lemma PrefixedIdReadsBack(pre: string, a: int, b: int)
    requires pre + PyStr.Str(a) == pre + PyStr.Str(b)
    ensures a == b
  {
    var t := pre + PyStr.Str(a);
    assert PyStr.Str(a) == t[|pre|..];
    assert PyStr.Str(b) == t[|pre|..];
    PyStr.StrRoundTrip(a);
    PyStr.StrRoundTrip(b);
  }

  /** Both notifications carry an id and come from the same handler. */
  predicate SameKind(e: Event, f: Event) {
    || (e.UserUpdated? && f.UserUpdated?)
    || (e.UserDeleted? && f.UserDeleted?)
    || (e.OperationAdded? && f.OperationAdded?)
    || (e.OperationUpdated? && f.OperationUpdated?)
    || (e.OperationDeleted? && f.OperationDeleted?)
    || (e.OperationOfUserDeleted? && f.OperationOfUserDeleted?)
  }

  /** A client reading two notifications of the same kind can tell which ids they name. */
  lemma TextNamesTheId(e: Event, f: Event)
    requires SameKind(e, f) && Text(e) == Text(f)
    ensures e == f
  {
    match e
    case UserUpdated(a) =>
      PrefixedIdReadsBack("User updated: #", a, f.id);
    case UserDeleted(a) =>
      PrefixedIdReadsBack("User deleted: #", a, f.id);
    case OperationAdded(a) =>
      FramedIdReadsBack("User #", " added new operation", a, f.userId);
    case OperationUpdated(a) =>
      PrefixedIdReadsBack("Operation updated: #", a, f.id);
    case OperationDeleted(a) =>
      PrefixedIdReadsBack("Operation deleted: #", a, f.id);
    case OperationOfUserDeleted(a) =>
      PrefixedIdReadsBack("Deleted operation of user #", a, f.userId);
  }

  /** What a handler leaves behind: the committed ledger, the answer, the notifications sent. */
  datatype Reply = Reply(state: Ledger, resp: Response, sent: seq<Event>)

  const NotFound: int := 404
  const Forbidden: int := 403
  const NotAcceptable: int := 406
  const ServerError: int := 500

  const UserNotFound: string := "User not found"
  const OperationNotFound: string := "Operation not found"
  const WrongType: string := "Wrong type(only wage or payment)"
  const WrongPhoneLength: string := "Wrong phone number length"
  const NotUnique: string := "Input is not UNIQUE"

  /** A notification goes out after, and only after, a successful mutation, exactly once. */
  predicate NotifiesOnSuccess(r: Reply) {
    && (r.resp.Ok? ==> |r.sent| == 1)
    && (!r.resp.Ok? ==> r.sent == [])
  }

  // ---------------------------------------------------------------- users

  /** The except clauses of `create_user_route`, in order. */
  function CreateUserError(e: Exc): Response {
    if e == ValueError then HttpError(NotAcceptable, "Wrong input type")
    else if e == IntegrityError then HttpError(NotAcceptable, NotUnique)
    else HttpError(NotAcceptable, WrongPhoneLength)
  }

  /** `create_user_route`: both rejections are 406; the length check wins over uniqueness. */
  function CreateUserRoute(l: Ledger, s: UserBase): (r: Reply)
    requires Stored(l)
    ensures !PhoneLengthOk(s.phone) ==> r == Reply(l, HttpError(NotAcceptable, WrongPhoneLength), [])
    ensures PhoneLengthOk(s.phone) && PhoneTaken(l.users, s.phone) ==> r == Reply(l, HttpError(NotAcceptable, NotUnique), [])
    ensures r.resp.Ok? <==> PhoneLengthOk(s.phone) && !PhoneTaken(l.users, s.phone)
    ensures r.resp.Ok? ==>
      && r.sent == [Welcomed(s.name, s.surname)]
      && r.resp.body.UserBody?
      && r.resp.body.id !in l.users
      && r.state.users == l.users[r.resp.body.id := UserOf(s)]
      && r.resp.body.user == UserOf(s)
    ensures r.resp.Ok? ==> r.state.ops == l.ops
    ensures NotifiesOnSuccess(r)
    ensures Valid(l) && s.Valid() ==> Valid(r.state)
  {
    match CreateUser(l, s)
    case Returned(st, id) => Reply(st, Ok(UserBody(id, st.users[id])), [Welcomed(s.name, s.surname)])
    case Raised(st, e) => Reply(st, CreateUserError(e), [])
  }

  /** `read_user`. */
  function ReadUser(l: Ledger, id: UserId): (r: Response)
    ensures r.Ok? <==> id in l.users
    ensures r.Ok? ==> r.body == UserBody(id, l.users[id])
    ensures !r.Ok? ==> r == HttpError(NotFound, UserNotFound)
  {
    match GetUser(l, id)
    case Some(user) => Ok(UserBody(id, user))
    case None => HttpError(NotFound, UserNotFound)
  }

  /** `read_user_by_phone`: 404 for an unknown phone, 403 for a wrong password. */
  function ReadUserByPhone(l: Ledger, phone: int, password: string): (r: Response)
    requires UniquePhones(l.users)
    ensures !PhoneTaken(l.users, phone) ==> r == HttpError(NotFound, UserNotFound)
    ensures r == HttpError(Forbidden, "Wrong password") <==>
      exists k :: k in l.users && l.users[k].phone == phone && l.users[k].password != password
    ensures r.Ok? <==> exists k :: k in l.users && l.users[k].phone == phone && l.users[k].password == password
    ensures r.Ok? ==> r.body.UserBody? && r.body.id in l.users && r.body.user == l.users[r.body.id]
  {
    match GetUserByPhone(l, phone)
    case None => HttpError(NotFound, UserNotFound)
    case Some(k) =>
      if l.users[k].password == password then Ok(UserBody(k, l.users[k]))
      else HttpError(Forbidden, "Wrong password")
  }

  /** The except clauses of `update_user_by_phone_route`: a short phone is 406, anything else 404. */
  function UpdateUserError(e: Exc): Response {
    if e == SyntaxError then HttpError(NotAcceptable, WrongPhoneLength)
    else HttpError(NotFound, UserNotFound)
  }

  /**
    `update_user_by_phone_route`. A new phone that belongs to someone else is
    refused on commit, and that refusal also answers "User not found".
   */
  function UpdateUserByPhoneRoute(l: Ledger, phone: int, s: UserBase): (r: Reply)
    requires Stored(l)
    ensures !PhoneTaken(l.users, phone) ==> r == Reply(l, HttpError(NotFound, UserNotFound), [])
    ensures PhoneTaken(l.users, phone) && !PhoneLengthOk(s.phone) ==>
      r == Reply(l, HttpError(NotAcceptable, WrongPhoneLength), [])
    ensures PhoneTaken(l.users, phone) && PhoneLengthOk(s.phone) && s.phone != phone && PhoneTaken(l.users, s.phone) ==>
      r == Reply(l, HttpError(NotFound, UserNotFound), [])
    ensures r.resp.Ok? ==>
      && r.resp.body.UserBody?
      && r.resp.body.id in l.users
      && l.users[r.resp.body.id].phone == phone
      && r.state == l.(users := l.users[r.resp.body.id := UserOf(s)])
      && r.sent == [UserUpdated(r.resp.body.id)]
    ensures r.resp.Ok? <==>
      PhoneTaken(l.users, phone) && PhoneLengthOk(s.phone) && (s.phone == phone || !PhoneTaken(l.users, s.phone))
    ensures NotifiesOnSuccess(r)
    ensures Valid(l) && s.Valid() ==> Valid(r.state)
  {
    match UpdateUserByPhone(l, phone, s)
    case Returned(st, k) => Reply(st, Ok(UserBody(k, st.users[k])), [UserUpdated(k)])
    case Raised(st, e) => Reply(st, UpdateUserError(e), [])
  }

  /** The ledger once a user and every operation carrying its id are gone. */
  function WithoutUser(l: Ledger, u: UserId): (l': Ledger) {
    l.(users := l.users - {u}, ops := map k | k in l.ops && l.ops[k].userId != u :: l.ops[k])
  }

  /**
    `delete_user_route`: every operation of the user is deleted through
    `delete_operation` (each reversing its effect), then the user. No
    operation is left naming the deleted id.
   */
  method DeleteUserRoute(l: Ledger, u: UserId) returns (r: Reply)
    requires Valid(l)
    ensures u in l.users ==> r == Reply(WithoutUser(l, u), Ok(Message("User deleted")), [UserDeleted(u)])
    ensures u !in l.users ==> r == Reply(l, HttpError(NotFound, UserNotFound), [])
    ensures forall k :: k in r.state.ops ==> r.state.ops[k].userId != u
    ensures Valid(r.state)
  {
    var cur := l;
    var pending := GetOperationsByUser(l, u).Keys;
    while pending != {}
      invariant pending <= l.ops.Keys
      invariant forall k :: k in pending ==> l.ops[k].userId == u
      invariant cur.ops == map k | k in l.ops && (l.ops[k].userId != u || k in pending) :: l.ops[k]
      invariant cur.users.Keys == l.users.Keys
      invariant forall v :: v in l.users && v != u ==> cur.users[v] == l.users[v]
      invariant cur.nextUserId == l.nextUserId && cur.nextOpId == l.nextOpId
      decreases pending
    {
      NonEmptyHasMember(pending);
      var k :| k in pending;
      var deleted := DeleteOperation(cur, k);
      cur := deleted.state;
      pending := pending - {k};
    }
    assert cur.users - {u} == l.users - {u};
    var removed := DeleteUser(cur, u);
    if removed.value {
      r := Reply(removed.state, Ok(Message("User deleted")), [UserDeleted(u)]);
    } else {
      assert cur.users == l.users;
      assert forall k :: k in l.ops ==> l.ops[k].userId != u;
      assert cur.ops == l.ops;
      r := Reply(removed.state, HttpError(NotFound, UserNotFound), []);
    }
  }

  /** Deleting a user together with its operations keeps every other user's base. */
  lemma DeleteUserRouteKeepsConsistency(l: Ledger, base: map<UserId, real>, u: UserId)
    requires Consistent(l, base)
    ensures Consistent(WithoutUser(l, u), base)
  {
    var after := WithoutUser(l, u);
    var keep := set k | k in l.ops && l.ops[k].userId != u;
    assert after.ops == map k | k in l.ops && k in keep :: l.ops[k];
    forall v | v in after.users
      ensures after.users[v].balance == base[v] + Total(after.ops, v)
    {
      TotalRestrict(l.ops, keep, v);
    }
  }

  // ---------------------------------------------------------------- operations

  /** The except clauses of `create_operation_route`: a bad type is 406, anything else 404. */
  function CreateOperationError(e: Exc): Response {
    if e == ValueError then HttpError(NotAcceptable, WrongType)
    else HttpError(NotFound, UserNotFound)
  }

  /** `create_operation_route`: a bad type answers 406 even when the user does not exist. */
  function CreateOperationRoute(l: Ledger, s: OperationCreate): (r: Reply)
    requires Stored(l)
    ensures !KnownKind(s.kind) ==> r == Reply(l, HttpError(NotAcceptable, WrongType), [])
    ensures KnownKind(s.kind) && s.userId !in l.users ==> r == Reply(l, HttpError(NotFound, UserNotFound), [])
    ensures r.resp.Ok? <==> KnownKind(s.kind) && s.userId in l.users
    ensures r.resp.Ok? ==>
      && r.resp.body.OperationBody?
      && r.resp.body.id !in l.ops
      && r.resp.body.op == OperationOf(s)
      && r.state.ops == l.ops[r.resp.body.id := OperationOf(s)]
      && s.userId in r.state.users
      && r.state.users[s.userId].balance == l.users[s.userId].balance + Contribution(s.kind, s.value)
      && r.sent == [OperationAdded(s.userId)]
    ensures r.resp.Ok? ==>
      r.state.users == WithBalance(l, s.userId, l.users[s.userId].balance + Contribution(s.kind, s.value)).users
    ensures NotifiesOnSuccess(r)
    ensures Valid(l) && s.Valid() ==> Valid(r.state)
  {
    match CreateOperation(l, s)
    case Returned(st, id) => Reply(st, Ok(OperationBody(id, st.ops[id])), [OperationAdded(st.ops[id].userId)])
    case Raised(st, e) => Reply(st, CreateOperationError(e), [])
  }

  /** `read_operations_by_user`: an empty result is answered 404. */
  function ReadOperationsByUser(l: Ledger, u: UserId): (r: Response)
    ensures r.Ok? <==> exists k :: k in l.ops && l.ops[k].userId == u
    ensures r.Ok? ==> r.body == Operations(OwnedBy(l.ops, u))
    ensures !r.Ok? ==> r == HttpError(NotFound, "Operations not found")
  {
    var ops := GetOperationsByUser(l, u);
    if ops.Keys != {} then NonEmptyHasMember(ops.Keys); Ok(Operations(ops)) else HttpError(NotFound, "Operations not found")
  }

  /** `read_operations_by_date`: an empty result is answered 404. */
  function ReadOperationsByDate(l: Ledger, u: UserId, date: Timestamp): (r: Response)
    ensures r.Ok? <==> exists k :: k in l.ops && l.ops[k].userId == u && l.ops[k].createdAt == date
    ensures r.Ok? ==> r.body == Operations(GetOperationsByDate(l, u, date))
    ensures !r.Ok? ==> r == HttpError(NotFound, "Operations not found")
  {
    var ops := GetOperationsByDate(l, u, date);
    if ops.Keys != {} then NonEmptyHasMember(ops.Keys); Ok(Operations(ops)) else HttpError(NotFound, "Operations not found")
  }

  /** The except clauses of `update_operation_route`, in order. */
  function UpdateOperationError(e: Exc): Response {
    if e == IndexError then HttpError(NotFound, OperationNotFound)
    else if e == ValueError then HttpError(NotAcceptable, WrongType)
    else HttpError(NotFound, UserNotFound)
  }

  /**
    `update_operation_route`. On a stored ledger: an unknown id is 404 with
    no change; an unknown new type is 406 and leaves the owner's balance
    short by the old contribution; otherwise the update succeeds.
   */
  function UpdateOperationRoute(l: Ledger, id: OpId, s: OperationUpdate): (r: Reply)
    ensures id !in l.ops ==> r == Reply(l, HttpError(NotFound, OperationNotFound), [])
    ensures id in l.ops && KnownKind(l.ops[id].kind) && l.ops[id].userId !in l.users ==>
      r == Reply(l, HttpError(NotFound, UserNotFound), [])
    ensures Valid(l) && id in l.ops && !KnownKind(s.kind) ==>
      var o := l.ops[id];
      r == Reply(
        WithBalance(l, o.userId, l.users[o.userId].balance - Contribution(o.kind, o.value)),
        HttpError(NotAcceptable, WrongType),
        [])
    ensures Valid(l) ==> (r.resp.Ok? <==> id in l.ops && KnownKind(s.kind))
    ensures r.resp.Ok? ==>
      && id in l.ops
      && r.resp.body == OperationBody(id, Revised(l.ops[id], s))
      && r.state.ops == l.ops[id := Revised(l.ops[id], s)]
      && r.sent == [OperationUpdated(id)]
    ensures r.resp.Ok? ==>
      var o := l.ops[id];
      && o.userId in l.users
      && r.state.users == WithBalance(
           l, o.userId,
           l.users[o.userId].balance - Contribution(o.kind, o.value) + Contribution(s.kind, s.value)).users
    ensures NotifiesOnSuccess(r)
    ensures Valid(l) && s.Valid() ==> Valid(r.state)
  {
    match UpdateOperation(l, id, s)
    case Returned(st, k) => Reply(st, Ok(OperationBody(k, st.ops[k])), [OperationUpdated(k)])
    case Raised(st, e) => Reply(st, UpdateOperationError(e), [])
  }

  /**
    The answer of the two delete-operation handlers. Only ValueError is
    caught; any other exception escapes the handler as a server error.
   */
  function DeleteOutcome(d: Outcome<bool>, event: Event): (r: Reply)
    ensures d == Returned(d.state, true) ==> r == Reply(d.state, Ok(Message("Operation deleted")), [event])
    ensures d == Returned(d.state, false) ==> r == Reply(d.state, HttpError(NotFound, OperationNotFound), [])
    ensures d == Raised(d.state, ValueError) ==> r == Reply(d.state, HttpError(NotAcceptable, WrongType), [])
    ensures d.Raised? && d.exc != ValueError ==> r == Reply(d.state, HttpError(ServerError, "Internal Server Error"), [])
    ensures NotifiesOnSuccess(r)
    ensures r.state == d.state
  {
    match d
    case Returned(st, true) => Reply(st, Ok(Message("Operation deleted")), [event])
    case Returned(st, false) => Reply(st, HttpError(NotFound, OperationNotFound), [])
    case Raised(st, ValueError) => Reply(st, HttpError(NotAcceptable, WrongType), [])
    case Raised(st, _) => Reply(st, HttpError(ServerError, "Internal Server Error"), [])
  }

  /** `delete_operation_route`: on a valid ledger, 200 when the id exists and 404 otherwise. */
  function DeleteOperationRoute(l: Ledger, id: OpId): (r: Reply)
    ensures id !in l.ops ==> r == Reply(l, HttpError(NotFound, OperationNotFound), [])
    ensures Valid(l) && id in l.ops ==>
      var o := l.ops[id];
      r == Reply(
        WithBalance(l, o.userId, l.users[o.userId].balance - Contribution(o.kind, o.value)).(ops := l.ops - {id}),
        Ok(Message("Operation deleted")),
        [OperationDeleted(id)])
    ensures Valid(l) ==> Valid(r.state)
  {
    DeleteOutcome(DeleteOperation(l, id), OperationDeleted(id))
  }

  /** `delete_operation_by_params_route`: 404 when no operation matches all four fields. */
  ghost function DeleteOperationByParamsRoute(l: Ledger, u: UserId, value: real, kind: string, createdAt: Timestamp): (r: Reply)
    ensures (forall k :: k in l.ops ==> l.ops[k] != Operation(value, kind, createdAt, u)) ==>
      r == Reply(l, HttpError(NotFound, OperationNotFound), [])
    ensures Valid(l) && (exists k :: k in l.ops && l.ops[k] == Operation(value, kind, createdAt, u)) ==>
      exists k :: k in l.ops && l.ops[k] == Operation(value, kind, createdAt, u) &&
        r == Reply(
          WithBalance(l, u, l.users[u].balance - Contribution(kind, value)).(ops := l.ops - {k}),
          Ok(Message("Operation deleted")),
          [OperationOfUserDeleted(u)])
    ensures Valid(l) ==> Valid(r.state)
  {
    DeleteOutcome(DeleteOperationByParams(l, value, kind, createdAt, u), OperationOfUserDeleted(u))
  }
}
