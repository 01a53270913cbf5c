/** Identifiers and errors of the domain layer (`AccountId`, `NotFoundException`, `DuplicateException`). */
module Domain {
  import Format

  /** A 128-bit UUID value. */
  type Uuid = x: nat | x < 0x1_0000_0000_0000_0000_0000_0000_0000_0000

  /** A Java `int`. */
  newtype Int32 = x: int | -0x8000_0000 <= x < 0x8000_0000

  datatype AccountId = AccountId(value: Uuid)

  /** `AccountId.toString()`: "AccountId(<uuid>)". */
  function AccountIdText(id: AccountId): (s: string)
    ensures |s| == 47
    ensures s[..10] == "AccountId(" && s[10..46] == Format.UuidText(id.value) && s[46] == ')'
  {
    "AccountId(" + Format.UuidText(id.value) + ")"
  }

  /** The exceptions the core raises. `NullPointer` is the dereference of a missing withdrawal. */
  datatype Failure = NotFound(message: string) | Duplicate(message: string) | NullPointer

  /** Message of the `NotFoundException` raised by account lookups. */
  function AccountNotFoundMessage(id: AccountId): string
  {
    "Account " + AccountIdText(id) + " is not found"
  }

  /** Message of the `DuplicateException` raised when saving an existing account id. */
  function DuplicateAccountMessage(id: AccountId): string
  {
    "Account with id " + AccountIdText(id) + " already exists"
  }
}
