/** The authentication ceremony: issue options listing the user's authenticators,
    look up the authenticator named in the response, hand it to the verifier, and
    store the counter the verifier reports. */
module Authentication {
  import opened Wrappers
  import opened Types
  import opened Constants
  import opened Db
  import opened CredentialDescriptors

  /** The arguments the ceremony hands to the option generator, with the challenge
      the generator chose. */
  datatype AuthenticationOptions = AuthenticationOptions(
    rpID: string,
    challenge: Challenge,
    allowCredentials: seq<CredentialDescriptor>,
    userVerification: string)

  datatype AssertionResponse = AssertionResponse(
    clientDataJSON: string,
    authenticatorData: string,
    signature: string,
    userHandle: Option<string>)

  /** The browser's authentication response, as posted. */
  datatype AuthenticationResponse = AuthenticationResponse(id: string, rawId: string, response: AssertionResponse)

  datatype AuthenticationInfo = AuthenticationInfo(credentialID: CredentialId, newCounter: nat)

  datatype AuthenticationVerification = AuthenticationVerification(
    verified: bool,
    authenticationInfo: AuthenticationInfo)

  /** The verifier's arguments: the response, the values it must match, and the
      stored authenticator whose key and counter it checks against. */
  datatype AuthenticationRequest = AuthenticationRequest(
    response: AuthenticationResponse,
    expectedChallenge: Option<Challenge>,
    expectedOrigin: string,
    expectedRPID: string,
    authenticator: Authenticator)

  /** The library's authentication verifier: it returns a verification or throws with a message. */
  type AuthenticationVerifier = AuthenticationRequest -> Result<AuthenticationVerification, string>

  /** The options carry the relying-party ID, the challenge, the fixed
      user-verification policy, and one allow entry per authenticator of the user. */
  ghost predicate OptionsFor(o: AuthenticationOptions, existing: seq<Authenticator>, challenge: Challenge) {
    && o.rpID == RpId
    && o.challenge == challenge
    && o.allowCredentials == Descriptors(existing)
    && o.userVerification == "preferred"
  }

  function GenerateAuthOptions(s: Store, loggedInUserId: UserId, challenge: Challenge): (r: Step<AuthenticationOptions>)
    ensures loggedInUserId !in s.users ==> r == Step(Failure(UndefinedUser(loggedInUserId)), s)
    ensures r.outcome.Failure? ==> r.store == s
    ensures loggedInUserId in s.users ==>
      var user := s.users[loggedInUserId];
      && (r.outcome.Success? <==> user.id in s.users)
      && (r.outcome.Success? ==>
            && OptionsFor(r.outcome.value, GetUserAuthenticators(s, user), challenge)
            && ChallengeReplaced(s, r.store, user, r.outcome.value.challenge))
  {
    match GetUserFromDB(s, loggedInUserId)
    case None => Step(Failure(UndefinedUser(loggedInUserId)), s)
    case Some(user) =>
      var options := AuthenticationOptions(
        RpId, challenge, Descriptors(GetUserAuthenticators(s, user)), "preferred");
      match SetUserCurrentChallenge(s, user, options.challenge)
      case Failure(e) => Step(Failure(e), s)
      case Success(s') => Step(Success(options), s')
  }

  /** Stores the verifier's `newCounter` verbatim on the looked-up authenticator's
      entries; `verified` is not looked at. */
  function SaveUpdatedAuthenticator(s: Store, user: UserModel, authenticator: Authenticator, verification: AuthenticationVerification)
    : (r: Result<Store, Error>)
    ensures r.Failure? <==> user.id !in s.authenticators
    ensures r.Failure? ==> r.error == UserNotFound(user.id)
    ensures r.Success? ==>
      && CounterSet(GetUserAuthenticators(s, user), GetUserAuthenticators(r.value, user),
                    authenticator.credentialID, verification.authenticationInfo.newCounter)
      && r.value.users == s.users
      && OtherListsUnchanged(s, r.value, user.id)
  {
    SaveUpdatedAuthenticatorCounter(s, user, authenticator, verification.authenticationInfo.newCounter)
  }

  /** `expectedOrigin` is a parameter: the source passes a name it never imports. */
  function VerifyAuthResponse(
    s: Store, loggedInUserId: UserId, response: AuthenticationResponse,
    expectedOrigin: string, verify: AuthenticationVerifier)
    : (r: Step<AuthenticationVerification>)
    ensures loggedInUserId !in s.users ==> r == Step(Failure(UndefinedUser(loggedInUserId)), s)
    ensures r.store.users == s.users
    ensures r.outcome.Failure? ==> CountersKept(s, r.store)
    ensures loggedInUserId in s.users ==>
      var user := s.users[loggedInUserId];
      var list := GetUserAuthenticators(s, user);
      && OtherListsUnchanged(s, r.store, user.id)
      && (list == [] || !Truthy(response.id) ==> r.outcome == Failure(AuthenticatorNotFound(response.id)))
      && (list == [] ==> r.store == s)
      && (!Truthy(response.id) ==> AllRenamed(list, GetUserAuthenticators(r.store, user), response.id))
      && (list != [] && Truthy(response.id) ==>
            var looked := list[0].(credentialID := response.id);
            var renamed := list[0 := looked];
            var v := verify(AuthenticationRequest(response, GetUserCurrentChallenge(s, user), expectedOrigin, RpId, looked));
            && (v.Failure? ==> r.outcome == Failure(VerificationError(v.error)))
            && (v.Failure? ==> GetUserAuthenticators(r.store, user) == renamed)
            && (v.Success? ==> r.outcome == Success(v.value))
            && (v.Success? ==> CounterSet(renamed, GetUserAuthenticators(r.store, user),
                                          looked.credentialID, v.value.authenticationInfo.newCounter)))
  {
    match GetUserFromDB(s, loggedInUserId)
    case None => Step(Failure(UndefinedUser(loggedInUserId)), s)
    case Some(user) =>
      var expectedChallenge := GetUserCurrentChallenge(s, user);
      var lookup := GetUserAuthenticator(s, user, response.id);
      match lookup.found
      case None => Step(Failure(AuthenticatorNotFound(response.id)), lookup.store)
      case Some(authenticator) =>
        match verify(AuthenticationRequest(response, expectedChallenge, expectedOrigin, RpId, authenticator))
        case Failure(reason) => Step(Failure(VerificationError(reason)), lookup.store)
        case Success(verification) =>
          match SaveUpdatedAuthenticator(lookup.store, user, authenticator, verification)
          case Failure(e) => Step(Failure(e), lookup.store)
          case Success(s') => Step(Success(verification), s')
  }

  /** The stored counter does not depend on the verifier's `verified` flag. */
  lemma CounterUpdateIgnoresVerified(s: Store, user: UserModel, authenticator: Authenticator,
                                     verification: AuthenticationVerification, verified: bool)
    ensures SaveUpdatedAuthenticator(s, user, authenticator, verification.(verified := verified))
         == SaveUpdatedAuthenticator(s, user, authenticator, verification)
  {
  }
}
