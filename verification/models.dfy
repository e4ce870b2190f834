/**
  The two stored tables of the ledger: users and their balance-affecting
  operations, each keyed by an integer primary key.
 */
module Models {

  type UserId = int
  type OpId = int

  /** The instant an operation carries (`created_at`); only compared for equality. */
  type Timestamp = int

  datatype Option<T> = None | Some(value: T)

  /** A row of `users`; its primary key is the map key it is stored under. */
  datatype User = User(phone: int, name: string, surname: string, password: string, balance: real)

  /** A row of `operations`; `userId` is the foreign key to the owning user. */
  datatype Operation = Operation(value: real, kind: string, createdAt: Timestamp, userId: UserId)

  /**
    The committed contents of the database. Primary keys come from two
    counters, as a database sequence hands them out.
   */
  datatype Ledger = Ledger(
    users: map<UserId, User>,
    ops: map<OpId, Operation>,
    nextUserId: UserId,
    nextOpId: OpId)

  const Wage: string := "wage"
  const Payment: string := "payment"
  const MinPasswordLength: nat := 8

  /** The only operation types the balance logic accepts. */
  predicate KnownKind(kind: string) {
    kind == Wage || kind == Payment
  }

  /** The signed effect of an operation on its owner's balance: `+value` for a wage, `-value` for a payment. */
  function Contribution(kind: string, value: real): real {
    if kind == Wage then value else if kind == Payment then -value else 0.0
  }

  /** `l` with user `u`'s balance overwritten by `b`, everything else as it was. */
  function WithBalance(l: Ledger, u: UserId, b: real): (l': Ledger)
    requires u in l.users
  {
    l.(users := l.users[u := l.users[u].(balance := b)])
  }

  /** The UNIQUE constraint on `users.phone`. */
  predicate UniquePhones(users: map<UserId, User>) {
    forall a, b :: a in users && b in users && a != b ==> users[a].phone != users[b].phone
  }

  /** Some user already has this phone. */
  predicate PhoneTaken(users: map<UserId, User>, phone: int) {
    exists k :: k in users && users[k].phone == phone
  }

  /** What the database itself enforces: fresh primary keys and unique phones. */
  predicate Stored(l: Ledger) {
    && (forall k :: k in l.users ==> k < l.nextUserId)
    && (forall k :: k in l.ops ==> k < l.nextOpId)
    && UniquePhones(l.users)
  }

  /**
    The invariant of every state the HTTP routes can reach: the stored facts,
    every operation owned by an existing user, of a known type and a
    non-negative value, and every password of the schema's minimum length.
   */
  predicate Valid(l: Ledger) {
    && Stored(l)
    && (forall k :: k in l.ops ==> l.ops[k].userId in l.users)
    && (forall k :: k in l.ops ==> KnownKind(l.ops[k].kind) && l.ops[k].value >= 0.0)
    && (forall k :: k in l.users ==> |l.users[k].password| >= MinPasswordLength)
  }

  /** A non-empty set has a member (the form the choice operator `:|` needs). */
  lemma NonEmptyHasMember(s: set<int>)
    requires s != {}
    ensures exists x :: x in s
  {
    if forall x :: x !in s {
      assert false;
    }
  }

  /** Operations owned by `u`, each under its own key. */
  function OwnedBy(ops: map<OpId, Operation>, u: UserId): map<OpId, Operation> {
    map k | k in ops && ops[k].userId == u :: ops[k]
  }
}
