/** The records the store and the ceremonies exchange. */
module Types {
  import opened Wrappers

  type UserId = string

  /** A challenge as the options generator encodes it (base64url text). */
  type Challenge = string

  /** Credential IDs are compared by value. The lookup in the store writes the
      response's `id` string into this field, so an ID is modelled as a string. */
  type CredentialId = string

  /** A transport hint such as "usb", "ble" or "internal". */
  type Transport = string

  type Bytes = seq<bv8>

  datatype DeviceType = SingleDevice | MultiDevice

  /** A registered authenticator as the store keeps it. */
  datatype Authenticator = Authenticator(
    credentialID: CredentialId,
    credentialPublicKey: Bytes,
    counter: nat,
    credentialDeviceType: DeviceType,
    credentialBackedUp: bool,
    transports: Option<seq<Transport>>)

  /** A row of the user table; `currentChallenge` is absent until a ceremony sets it. */
  datatype UserModel = UserModel(id: UserId, username: string, currentChallenge: Option<Challenge>)

  /** The ways a call can throw. */
  datatype Error =
      /** The store's own guard: no row or no authenticator list for the user. */
    | UserNotFound(userId: UserId)
      /** `getUserFromDB(id)!` was undefined, so the next property access throws. */
    | UndefinedUser(userId: UserId)
      /** The authentication ceremony found no authenticator to verify against. */
    | AuthenticatorNotFound(credentialId: CredentialId)
      /** The library verifier threw, with its message. */
    | VerificationError(reason: string)
      /** The verifier returned no `registrationInfo`, so destructuring it throws. */
    | MissingRegistrationInfo

  /** JavaScript truthiness of a string. */
  predicate Truthy(s: string) {
    s != ""
  }
}
