# Ledger service model

A Dafny model of a small FastAPI/SQLAlchemy ledger service. The service keeps
two tables:

- **users**: phone, name, surname, password and balance.
- **operations**: a value, a type, a timestamp and the owning user's id.

Every operation of type `wage` adds its value to its owner's balance, and
every operation of type `payment` subtracts it. Creating, editing and
deleting an operation adjusts the owner's balance to match. Deleting a user
first deletes each of that user's operations through the same path.

The model is functional.

- A `Ledger` holds the committed contents of both tables. It also holds two
  primary-key counters.
- Each data-access call returns an `Outcome`: either `Returned(state, value)`
  or `Raised(state, exception)`. In both cases `state` is what is committed
  after the call, so a failure that has already committed part of its work
  shows in the model.
- Exceptions are named by their Python class. The HTTP handlers are modelled
  in the order of their `except` clauses.

Modules:

- `PyStr`: Python's `str()` of an integer, and its length. The phone check
  counts characters.
- `Models`: the rows, the ledger, and the two invariants.
  - `Stored`: fresh keys and unique phones, which the database enforces.
  - `Valid`: `Stored`, plus every operation has an existing owner, a known
    type and a non-negative value, and every password has at least 8
    characters. This holds for every state the handlers can reach.
- `Schemas`: request bodies and the constraints their fields carry.
- `Crud`: the data-access functions.
- `Totals`: the signed sum of one user's operations, and how it changes when
  one operation is added, replaced or removed.
- `Consistency`: the balance invariant. Every balance equals a per-user base
  plus the contributions of the operations that user owns.
- `Routes`: the user and operation handlers. This covers the status codes,
  the notifications, and the cascade in the user-delete handler.
- `Scenarios`: one user's balance followed through a wage, a payment, an edit
  and a deletion.

The handlers in `Routes` model the code as written, including the two
defects listed under Findings. `Consistency.Run` and
`Consistency.RunKeepsConsistency` use the corrected definitions instead.

## Model

| member | source | states |
|---|---|---|
| PyStr.Digits | crud.py:12 | the decimal form of a natural number is non-empty, all digits, and has no leading zero |
| PyStr.DigitsRoundTrip | crud.py:12 | reading back the decimal digits of `n` gives `n` |
| PyStr.StrRoundTrip | crud.py:12 | reading back `str(n)`, sign included, gives `n` for every integer |
| PyStr.DigitsLength | crud.py:12 | `n` has more than `k` digits exactly when `n >= 10^k` |
| PyStr.StrLength | crud.py:12 | `len(str(n)) > k` exactly when `n >= 10^k` (non-negative `n`) or `-n >= 10^(k-1)` (negative `n`, the sign takes one character) |
| Crud.PhoneLengthOkIff | crud.py:12-13 | the length check passes exactly for phones `>= 1_000_000_000` or `<= -100_000_000` |
| Crud.PhoneLengthBoundary | crud.py:35-36 | every non-negative phone below 1_000_000_000 is refused and every non-negative ten-digit phone accepted; a negative nine-digit phone passes, since its sign counts as a character |
| Crud.CreateUser | crud.py:10-17 | a short phone raises before anything is stored; a taken phone raises IntegrityError; otherwise exactly one user is added under a fresh id; operations unchanged; both invariants kept |
| Crud.GetUser | crud.py:24-25 | finds the row stored under the id, and nothing exactly when the id is unknown |
| Crud.GetUserByPhone | crud.py:28-29 | finds the one user with that phone, or nothing exactly when nobody has it |
| Crud.GetUserByPhoneFindsEveryUser | crud.py:28-29 | every stored user is found again by its own phone |
| Crud.UpdateUserByPhone | crud.py:32-46 | unknown phone: a bare Exception; a short new phone: SyntaxError; a new phone held by another user: IntegrityError; every failure commits nothing; succeeds exactly otherwise, replacing only that user's row |
| Crud.DeleteUser | crud.py:73-79 | reports whether the user existed and removes only that user; a ledger with no operation of that user stays valid |
| Crud.UpdateUsersBalance | crud.py:49-58 | an unknown type raises ValueError whether or not the user exists, before any balance is touched; a missing user raises AttributeError; otherwise only that balance moves, by +value for a wage and -value for a payment |
| Crud.RollbackUsersBalance | crud.py:61-70 | the mirror of the balance update: the same errors; otherwise it undoes the contribution |
| Crud.CreateOperation | crud.py:83-92 | an unknown type raises ValueError even for a missing user; a missing user raises AttributeError; otherwise the owner's balance moves by the contribution and the operation is stored under a fresh id |
| Crud.CreateOperationSkipsOwnerCheck | crud.py:84 | a missing owner together with an unknown type is reported as a bad type |
| Crud.CreateOperationChecked | crud.py:84-92 | with the owner check in force: a missing user is refused first with no change; otherwise it behaves as the original |
| Crud.GetOperationsByUser | crud.py:99-100 | exactly the operations whose owner is the user, unchanged |
| Crud.GetOperationsByDate | crud.py:103-104 | exactly the user's operations stamped with that instant |
| Crud.DateFilterSplitsOwned | crud.py:103-104 | each of a user's operations is listed under its own instant and under no other |
| Consistency.OwnedOperationsCarryTotal | crud.py:99-100 | the operations the owner filter lists carry the user's whole signed sum |
| Crud.UpdateOperation | crud.py:107-119 | unknown id: IndexError with no change; otherwise the old contribution is reversed; a known new type applies the new contribution and replaces the row; an unknown one raises ValueError with the reversal committed and the row unchanged; the owner never changes, since the update body has no owner field (schemas.py:38-41) |
| Crud.DeleteOperation | crud.py:122-129 | unknown id: false with no change; otherwise the contribution is reversed and only that row removed; on a valid ledger it always returns, true exactly when the id existed |
| Crud.DeleteOperationByParams | crud.py:132-139 | no operation equal in all four fields: false with no change; otherwise the same as deleting one matching operation by id |
| Consistency.ApplyThenRollback | crud.py:49-70 | rolling back a just-applied (type, value) restores the ledger exactly |
| Consistency.RollbackThenApply | crud.py:49-70 | applying a just-rolled-back (type, value) restores the ledger exactly |
| Consistency.CreateOperationKeepsConsistency | crud.py:83-92 | creating an operation, successfully or not, keeps every balance equal to its base plus its operations' contributions |
| Consistency.UpdateOperationKeepsConsistency | crud.py:107-119 | a successful update keeps the balance invariant; a failure other than the unknown new type changes nothing |
| Consistency.UpdateOperationInvalidTypeDrifts | crud.py:107-119 | an update to an unknown type raises ValueError, leaves the row as it was, but takes the old contribution off the balance, which breaks the invariant whenever the value is positive |
| Consistency.UpdateOperationAtomic | crud.py:107-119 | the update with the new type checked first: every failure leaves the ledger unchanged; with a known type it agrees with the original |
| Consistency.UpdateOperationAtomicKeepsConsistency | crud.py:107-119 | the corrected update keeps the balance invariant on every outcome |
| Consistency.DeleteOperationKeepsConsistency | crud.py:122-129 | deleting an operation keeps the balance invariant on every outcome |
| Consistency.DeleteOperationByParamsKeepsConsistency | crud.py:132-139 | deleting by fields keeps the balance invariant, whichever matching operation is taken |
| Consistency.CreateUserSetsBase | crud.py:10-17 | a new user starts with a base equal to its initial balance; nobody else's base moves |
| Consistency.UpdateUserByPhoneResetsBase | crud.py:41 | overwriting the balance resets only that user's base, to the new balance minus its operations' contributions |
| Consistency.Apply | crud.py:83-139 | one operation mutation, with both corrections applied, keeps the ledger valid and adds or removes no user |
| Consistency.Run | crud.py:83-139 | any sequence of such mutations keeps the ledger valid and adds or removes no user |
| Consistency.RunKeepsConsistency | crud.py:83-139 | after any sequence of corrected creates, updates and deletes, every balance is still its base plus its operations' contributions |
| Routes.FramedIdReadsBack | routes.py:148 | an id printed between fixed texts is recovered from the text |
| Routes.PrefixedIdReadsBack | routes.py:122 | an id printed after a fixed text is recovered from the text |
| Routes.TextNamesTheId | routes.py:122-209 | two notifications of the same kind with the same text name the same id |
| Routes.CreateUserRoute | routes.py:71-83 | a short phone gives 406 "Wrong phone number length"; a taken phone gives 406 "Input is not UNIQUE"; success adds exactly that user, leaves the operations untouched and sends exactly one welcome notification |
| Routes.ReadUser | routes.py:92-98 | 200 with the stored row exactly when the id exists, otherwise 404 "User not found" |
| Routes.ReadUserByPhone | routes.py:101-110 | unknown phone gives 404; a wrong password gives 403; 200 exactly when the phone's user has that password |
| Routes.UpdateUserByPhoneRoute | routes.py:113-123 | unknown phone gives 404; a short new phone gives 406; a new phone held by someone else also gives 404 "User not found"; 200 exactly in the remaining case, replacing that user's row and sending one notification |
| Routes.DeleteUserRoute | routes.py:126-136 | an existing user is removed with all of that user's operations and one notification; an unknown user gives 404 with no change; no operation is left naming the deleted id |
| Routes.DeleteUserRouteKeepsConsistency | routes.py:126-136 | the cascade keeps every remaining user's balance equal to its base plus its operations' contributions |
| Routes.CreateOperationRoute | routes.py:140-149 | an unknown type gives 406 even for a missing user; otherwise a missing user gives 404; success stores the operation, moves the owner's balance by its contribution, leaves every other user's row alone and sends one notification |
| Routes.ReadOperationsByUser | routes.py:158-163 | 200 exactly when the user owns an operation, listing exactly those; otherwise 404 "Operations not found" |
| Routes.ReadOperationsByDate | routes.py:166-172 | 200 exactly when the user owns an operation stamped at that instant, listing exactly those; otherwise 404 "Operations not found" |
| Routes.UpdateOperationRoute | routes.py:175-186 | unknown id gives 404 with no change; a missing owner gives 404 "User not found" with no change; an unknown type gives 406 but leaves the owner's balance short by the old contribution; on a valid ledger it succeeds exactly otherwise, replacing the row, moving the owner's balance by the new contribution minus the old, touching no other user, and sending one notification |
| Routes.DeleteOutcome | routes.py:191-199 | true gives 200 "Operation deleted" with one notification; false gives 404 "Operation not found"; ValueError gives 406; any other exception escapes as 500; the committed state is the data layer's |
| Routes.DeleteOperationRoute | routes.py:189-199 | unknown id gives 404 with no change; on a valid ledger an existing id gives 200, reverses the contribution and removes only that row |
| Routes.DeleteOperationByParamsRoute | routes.py:202-212 | no matching operation gives 404 with no change; on a valid ledger a match gives 200 and removes one matching operation |
| Scenarios.Walkthrough | crud.py:83-129 | balances 0, 100, 60, 110, 150 after a wage of 100, a payment of 40, raising the wage to 150 and deleting the payment; a "refund" raises ValueError and changes nothing |

## Left out

- The WebSocket endpoint, the connection manager and the broadcast fan-out (routes.py:23-67) are not modelled. A notification is recorded as an `Event` in the handler's reply. Delivery, failures and offline clients are not modelled.
- `main.py` (application wiring), `database.py` (engine and session) and `get_users`/`get_operations` (whole-table reads with no logic) are not part of this model.
- The SQLAlchemy session is not modelled. Each `commit` becomes one committed state. Field edits that are never committed are assumed to be discarded when the request's session closes.
- Floating-point `balance` and `value` are modelled as exact reals. Rounding is not modelled.
- `created_at` is an abstract integer instant. Its `datetime.now` default is not used, because both schemas require the field.
- `.first()` on a query with several matches depends on storage order. `Crud.DeleteOperationByParams` leaves the choice among equal operations open, so it is a ghost function. `Routes.DeleteOperationByParamsRoute` is ghost for the same reason.
- Primary keys come from monotone counters. The database may reuse a freed id; the model never does.
- Crud.DeleteUser: does not model the ORM setting `user_id` to NULL on the deleted user's remaining operations. Its contract only promises validity when no operation refers to the user. The handler deletes those operations first.
- Routes.DeleteUserRoute: requires a valid ledger. On a ledger with an orphaned or mistyped operation, the source's loop would escape with a server error part-way through. States the handlers can reach never have one.
- Routes.DeleteOperationRoute: only its behaviour on valid ledgers is stated in full. On an invalid ledger an uncaught exception becomes a 500, which `Routes.DeleteOutcome` records.
- Request-body validation failures (FastAPI's 422 answers) are not modelled. The route contracts take the `Valid()` of a body as a hypothesis where they need it.
- The read handlers answer with a list in storage order (`.all()`, crud.py:100 and crud.py:104). The model answers with a map keyed by id, so the order of the listed operations is not modelled.
- Crud.CreateUser: phones and ids are unbounded integers. The width of the database's `Integer` columns (models.py:11-12, 22, 26) is not modelled, because the engine in `database.py` is not part of this model. A phone wider than the column would fail at commit (crud.py:15).
- Routes.CreateUserRoute: for the same reason, the 406 "Wrong phone number length" that `except Exception` (routes.py:79-80) gives for a phone too wide for its column is not modelled; the model answers 200.
- Password storage and comparison are plain string equality, as in the source. Hashing and any security concerns are not modelled.
- Concurrent requests are not modelled. Each handler runs to completion on one ledger.

## Findings

| source | as written | input that shows it | evidently intended | confidence | as-written member | corrected member |
|---|---|---|---|---|---|---|
| crud.py:107-119 | the old contribution is reversed and committed (crud.py:110, via crud.py:69) before the new type is checked (crud.py:114, raising at crud.py:56) | an operation of type "wage" with value 100, then an update with type "refund": ValueError, the row still says wage 100, the balance is 100 lower | check the new type before reversing, so a failed update changes nothing | not executed | Consistency.UpdateOperationInvalidTypeDrifts | Consistency.UpdateOperationAtomic |
| crud.py:84 | `if get_user(...)` tests an un-awaited coroutine, which is always true, so the `else` branch never runs | a body naming user 7 on a ledger without user 7, with type "refund": answered 406 "Wrong type" instead of 404 "User not found" | refuse a missing user before anything else | not executed | Crud.CreateOperationSkipsOwnerCheck | Crud.CreateOperationChecked |
