/** The registration ceremony: issue options with a challenge, verify the browser's
    response against that challenge, and store the new authenticator. The library's
    option generator and verifier are outside the model: the generator's challenge
    is a parameter and the verifier is a function parameter. */
module Registration {
  import opened Wrappers
  import opened Types
  import opened Constants
  import opened Db
  import opened CredentialDescriptors

  /** The arguments the ceremony hands to the option generator, with the challenge
      the generator chose. */
  datatype RegistrationOptions = RegistrationOptions(
    rpName: string,
    rpID: string,
    userID: UserId,
    userName: string,
    challenge: Challenge,
    attestationType: string,
    excludeCredentials: seq<CredentialDescriptor>,
    residentKey: string,
    userVerification: string)

  datatype AttestationResponse = AttestationResponse(
    clientDataJSON: string,
    attestationObject: string,
    transports: Option<seq<Transport>>)

  /** The browser's registration response, as posted. */
  datatype RegistrationResponse = RegistrationResponse(id: string, rawId: string, response: AttestationResponse)

  /** What the verifier extracts from a verified attestation. */
  datatype RegistrationInfo = RegistrationInfo(
    credentialPublicKey: Bytes,
    credentialID: CredentialId,
    counter: nat,
    credentialDeviceType: DeviceType,
    credentialBackedUp: bool)

  datatype RegistrationVerification = RegistrationVerification(
    verified: bool,
    registrationInfo: Option<RegistrationInfo>)

  /** The verifier's arguments: the response and the values it must match. */
  datatype RegistrationRequest = RegistrationRequest(
    response: RegistrationResponse,
    expectedChallenge: Option<Challenge>,
    expectedOrigin: string,
    expectedRPID: string)

  /** The library's registration verifier: it returns a verification or throws with a message. */
  type RegistrationVerifier = RegistrationRequest -> Result<RegistrationVerification, string>

  /** The options carry the relying party's constants, the user's identity, the
      fixed policy values, the challenge, and one exclusion entry per existing
      authenticator of the user. */
  ghost predicate OptionsFor(o: RegistrationOptions, user: UserModel, existing: seq<Authenticator>, challenge: Challenge) {
    && o.rpName == RpName
    && o.rpID == RpId
    && o.userID == user.id
    && o.userName == user.username
    && o.challenge == challenge
    && o.attestationType == "none"
    && o.excludeCredentials == Descriptors(existing)
    && o.residentKey == "preferred"
    && o.userVerification == "preferred"
  }

  /** What the verifier is asked to check a response from this user against. */
  function Expected(s: Store, user: UserModel, body: RegistrationResponse): RegistrationRequest {
    RegistrationRequest(body, GetUserCurrentChallenge(s, user), Origin, RpId)
  }

  /** A new record holding the verifier's findings and the client-declared transports. */
  ghost predicate CopiedFrom(a: Authenticator, info: RegistrationInfo, transports: Option<seq<Transport>>) {
    && a.credentialID == info.credentialID
    && a.credentialPublicKey == info.credentialPublicKey
    && a.counter == info.counter
    && a.credentialDeviceType == info.credentialDeviceType
    && a.credentialBackedUp == info.credentialBackedUp
    && a.transports == transports
  }

  /** The record a registration stores: the verifier's findings and the
      client-declared transports. */
  function NewAuthenticator(info: RegistrationInfo, transports: Option<seq<Transport>>): Authenticator {
    Authenticator(info.credentialID, info.credentialPublicKey, info.counter,
                  info.credentialDeviceType, info.credentialBackedUp, transports)
  }

  function GenerateRegOptions(s: Store, loggedInUserId: UserId, challenge: Challenge): (r: Step<RegistrationOptions>)
    ensures loggedInUserId !in s.users ==> r == Step(Failure(UndefinedUser(loggedInUserId)), s)
    ensures r.outcome.Failure? ==> r.store == s
    ensures loggedInUserId in s.users ==>
      var user := s.users[loggedInUserId];
      && (r.outcome.Success? <==> user.id in s.users)
      && (r.outcome.Success? ==>
            && OptionsFor(r.outcome.value, user, GetUserAuthenticators(s, user), challenge)
            && ChallengeReplaced(s, r.store, user, r.outcome.value.challenge))
  {
    match GetUserFromDB(s, loggedInUserId)
    case None => Step(Failure(UndefinedUser(loggedInUserId)), s)
    case Some(user) =>
      var options := RegistrationOptions(
        RpName, RpId, user.id, user.username, challenge, "none",
        Descriptors(GetUserAuthenticators(s, user)), "preferred", "preferred");
      match SetUserCurrentChallenge(s, user, options.challenge)
      case Failure(e) => Step(Failure(e), s)
      case Success(s') => Step(Success(options), s')
  }

  /** Builds the record from the verifier's `registrationInfo` (throwing when there is
      none) and appends it to the user's list. `verified` is not looked at. */
  function SaveNewUserAuthenticator(s: Store, user: UserModel, verification: RegistrationVerification, transports: Option<seq<Transport>>)
    : (r: Result<Store, Error>)
    ensures verification.registrationInfo.None? ==> r == Failure(MissingRegistrationInfo)
    ensures verification.registrationInfo.Some? ==>
      && (r.Success? <==> user.id in s.authenticators)
      && (r.Success? ==> exists a :: CopiedFrom(a, verification.registrationInfo.value, transports) && Appended(s, r.value, user, a))
      && (r.Failure? ==> r.error == UserNotFound(user.id))
  {
    match verification.registrationInfo
    case None => Failure(MissingRegistrationInfo)
    case Some(info) =>
      var newAuthenticator := NewAuthenticator(info, transports);
      assert CopiedFrom(newAuthenticator, info, transports);
      SaveNewUserAuthenticatorInDB(s, user, newAuthenticator)
  }

  function VerifyRegResponse(s: Store, loggedInUserId: UserId, body: RegistrationResponse, verify: RegistrationVerifier)
    : (r: Step<RegistrationVerification>)
    ensures loggedInUserId !in s.users ==> r == Step(Failure(UndefinedUser(loggedInUserId)), s)
    ensures r.outcome.Failure? ==> r.store == s
    ensures r.store.users == s.users
    ensures loggedInUserId in s.users ==>
      var user := s.users[loggedInUserId];
      var v := verify(Expected(s, user, body));
      && (v.Failure? ==> r.outcome == Failure(VerificationError(v.error)))
      && (v.Success? && v.value.registrationInfo.None? ==> r.outcome == Failure(MissingRegistrationInfo))
      && (v.Success? && v.value.registrationInfo.Some? && user.id !in s.authenticators ==>
            r.outcome == Failure(UserNotFound(user.id)))
      && (r.outcome.Success? <==> v.Success? && v.value.registrationInfo.Some? && user.id in s.authenticators)
      && (r.outcome.Success? ==>
            && r.outcome.value == v.value
            && exists a :: CopiedFrom(a, v.value.registrationInfo.value, body.response.transports)
                        && Appended(s, r.store, user, a))
  {
    match GetUserFromDB(s, loggedInUserId)
    case None => Step(Failure(UndefinedUser(loggedInUserId)), s)
    case Some(user) =>
      var expectedChallenge := GetUserCurrentChallenge(s, user);
      match verify(RegistrationRequest(body, expectedChallenge, Origin, RpId))
      case Failure(reason) => Step(Failure(VerificationError(reason)), s)
      case Success(verification) =>
        match SaveNewUserAuthenticator(s, user, verification, body.response.transports)
        case Failure(e) => Step(Failure(e), s)
        case Success(s') => Step(Success(verification), s')
  }

  /** A verifier that returns `verified: false` together with a `registrationInfo`
      still gets its credential stored: the flag is never consulted. */
  lemma UnverifiedIsStillSaved(s: Store, loggedInUserId: UserId, body: RegistrationResponse, verify: RegistrationVerifier)
    requires loggedInUserId in s.users && s.users[loggedInUserId].id in s.authenticators
    requires verify(Expected(s, s.users[loggedInUserId], body)).Success?
    requires !verify(Expected(s, s.users[loggedInUserId], body)).value.verified
    requires verify(Expected(s, s.users[loggedInUserId], body)).value.registrationInfo.Some?
    ensures VerifyRegResponse(s, loggedInUserId, body, verify).outcome == Success(verify(Expected(s, s.users[loggedInUserId], body)).value)
    ensures |GetUserAuthenticators(VerifyRegResponse(s, loggedInUserId, body, verify).store, s.users[loggedInUserId])|
         == |GetUserAuthenticators(s, s.users[loggedInUserId])| + 1
  {
  }

  /** Issuing options and then verifying asks the verifier to match exactly the
      challenge those options carried, even if an older challenge was pending. */
  lemma VerifierSeesIssuedChallenge(s: Store, loggedInUserId: UserId, challenge: Challenge, body: RegistrationResponse)
    requires GenerateRegOptions(s, loggedInUserId, challenge).outcome.Success?
    ensures
      var issued := GenerateRegOptions(s, loggedInUserId, challenge);
      var user := issued.store.users[loggedInUserId];
      Expected(issued.store, user, body) == RegistrationRequest(body, Some(issued.outcome.value.challenge), Origin, RpId)
  {
  }

  /** After a successful registration, the next options exclude every earlier
      credential, in order, followed by the new one. */
  lemma NextOptionsExcludeNewCredential(
    s: Store, loggedInUserId: UserId, body: RegistrationResponse, verify: RegistrationVerifier, challenge: Challenge)
    requires VerifyRegResponse(s, loggedInUserId, body, verify).outcome.Success?
    requires s.users[loggedInUserId].id == loggedInUserId
    ensures
      var registered := VerifyRegResponse(s, loggedInUserId, body, verify);
      var user := s.users[loggedInUserId];
      var info := registered.outcome.value.registrationInfo.value;
      var next := GenerateRegOptions(registered.store, loggedInUserId, challenge);
      && next.outcome.Success?
      && |next.outcome.value.excludeCredentials| == |GetUserAuthenticators(s, user)| + 1
      && next.outcome.value.excludeCredentials[..|GetUserAuthenticators(s, user)|] == Descriptors(GetUserAuthenticators(s, user))
      && next.outcome.value.excludeCredentials[|GetUserAuthenticators(s, user)|]
           == CredentialDescriptor(info.credentialID, PublicKey, body.response.transports)
  {
  }
}
