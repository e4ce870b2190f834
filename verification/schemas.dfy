/**
  The request bodies, with the field constraints the schema layer checks
  before any ledger logic runs.
 */
module Schemas {
  import opened Models

  /** `UserBase` / `UserCreate`: a user's fields; the password has a minimum length. */
  datatype UserBase = UserBase(phone: int, name: string, surname: string, balance: real, password: string) {
    predicate Valid() {
      |password| >= MinPasswordLength
    }
  }

  /** A user body that omits `balance`: the balance defaults to zero. */
  function UserBaseDefault(phone: int, name: string, surname: string, password: string): UserBase
  {
    UserBase(phone, name, surname, 0.0, password)
  }

  /** `OperationCreate`: `kind` is any string here; only the balance logic restricts it. */
  datatype OperationCreate = OperationCreate(value: real, kind: string, userId: UserId, createdAt: Timestamp) {
    predicate Valid() {
      value >= 0.0
    }
  }

  /** `OperationUpdate`: no owner field, so an update cannot move an operation to another user. */
  datatype OperationUpdate = OperationUpdate(value: real, kind: string, createdAt: Timestamp) {
    predicate Valid() {
      value >= 0.0
    }
  }

  /** The `users` row built from a body. */
  function UserOf(s: UserBase): User {
    User(s.phone, s.name, s.surname, s.password, s.balance)
  }

  /** The `operations` row built from a body. */
  function OperationOf(s: OperationCreate): Operation {
    Operation(s.value, s.kind, s.createdAt, s.userId)
  }
}
