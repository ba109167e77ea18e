/** The vocabulary of the identity service: roles, statuses, the two constant
    tables that govern them, and one datatype per table row. */
module Domain {

  datatype Option<+T> = None | Some(value: T)

  type UserId = nat
  type OtpId = nat
  type TokenId = nat
  type Phone = string
  /** Whole seconds. */
  type Time = int

  function Min(a: int, b: int): int {
    if a <= b then a else b
  }

  datatype Role = User | Driver | Merchant | Admin

  datatype Status = PendingVerification | PendingKyc | Active | Suspended

  /** Roles that are only granted by a KYC decision. */
  predicate KycRequired(role: Role) {
    role.Driver? || role.Merchant?
  }

  function AllowedTransitions(current: Status): set<Status> {
    match current
    case PendingVerification => {Active, PendingKyc, Suspended}
    case PendingKyc => {Active, Suspended}
    case Active => {Suspended}
    case Suspended => {Active}
  }

  predicate CanTransition(current: Status, target: Status) {
    target in AllowedTransitions(current)
  }

  predicate SessionAllowed(status: Status) {
    status in {Active, PendingKyc}
  }

  predicate AdminSettable(status: Status) {
    status in {Active, Suspended}
  }

  datatype Account = Account(
    phone: Phone, fullName: Option<string>, role: Role, status: Status,
    requested: Option<Role>, createdAt: Time, updatedAt: Time)
  {
    predicate NeedsKycFor(target: Role) {
      KycRequired(target) && role != target
    }
  }

  /** A keyed hash, abstracted as an injective constructor. */
  datatype Digest = Digest(of: string)

  datatype OtpCode = OtpCode(
    phone: Phone, codeHash: Digest, expiresAt: Time, createdAt: Time,
    consumedAt: Option<Time>, attempts: nat)
  {
    predicate IsExpired(now: Time) {
      expiresAt <= now
    }
  }

  datatype RefreshToken = RefreshToken(
    owner: UserId, hash: Digest, device: Option<string>, expiresAt: Time,
    createdAt: Time, revokedAt: Option<Time>)

  /** Row of the status audit; `actor` is None when the system made the change. */
  datatype StatusChange = StatusChange(
    user: UserId, before: Status, after: Status, reason: Option<string>, actor: Option<UserId>, at: Time)

  /** Row of the role audit; `granted` is None when the row grants nothing. */
  datatype RoleChange = RoleChange(
    user: UserId, before: Role, granted: Option<Role>, requested: Option<Role>,
    reason: Option<string>, actor: Option<UserId>, at: Time)

  datatype Event =
    | UserRegistered(user: UserId, phone: Phone, role: Role)
    | UserUpdated(user: UserId, phone: Phone, role: Role, fields: seq<string>)
    | UserRoleChanged(user: UserId, phone: Phone, role: Role, oldRole: Role, newRole: Role)
    | UserStatusChanged(user: UserId, phone: Phone, role: Role, oldStatus: Status,
                        newStatus: Status, reason: Option<string>)
  {
    /** The wire name: a suspension is announced as such, every other status
        change goes out as a plain update. */
    function Name(): string {
      match this
      case UserRegistered(_, _, _) => "user.registered"
      case UserUpdated(_, _, _, _) => "user.updated"
      case UserRoleChanged(_, _, _, _, _) => "user.role_changed"
      case UserStatusChanged(_, _, _, _, newStatus, _) =>
        if newStatus.Suspended? then "user.suspended" else "user.updated"
    }
  }
}
