/** The store and ceremonies as their names promise: a lookup by strict equality that
    leaves the store alone, and a save that starts a list for a known user who has
    none. Everything else is the code as written. */
module Intended {
  import opened Wrappers
  import opened Types
  import opened Constants
  import opened Db
  import opened CredentialDescriptors
  import Registration
  import Authentication

  /** The index of the first entry carrying the ID, if there is one. */
  function FirstWithId(entries: seq<Authenticator>, credentialId: CredentialId): (r: Option<nat>)
    ensures r.Some? ==>
      && r.value < |entries|
      && entries[r.value].credentialID == credentialId
      && forall j :: 0 <= j < r.value ==> entries[j].credentialID != credentialId
    ensures r.None? ==> forall j :: 0 <= j < |entries| ==> entries[j].credentialID != credentialId
    decreases |entries|
  {
    if entries == [] then None
    else if entries[0].credentialID == credentialId then Some(0)
    else
      match FirstWithId(entries[1..], credentialId)
      case None => None
      case Some(i) => Some(i + 1)
  }

  /** The user's authenticator with exactly this ID; reading it changes nothing. */
  function FindAuthenticator(s: Store, user: UserModel, credentialId: CredentialId): (r: Option<Authenticator>)
    ensures r.Some? <==> exists i :: 0 <= i < |GetUserAuthenticators(s, user)|
                                   && GetUserAuthenticators(s, user)[i].credentialID == credentialId
    ensures r.Some? ==> r.value in GetUserAuthenticators(s, user) && r.value.credentialID == credentialId
  {
    var list := GetUserAuthenticators(s, user);
    match FirstWithId(list, credentialId)
    case None => None
    case Some(i) => Some(list[i])
  }

  /** Appends to the user's list, starting one if the user has none; throws only
      for a user the table does not hold. */
  function SaveNewAuthenticator(s: Store, user: UserModel, authenticator: Authenticator): (r: Result<Store, Error>)
    ensures r.Success? <==> user.id in s.users
    ensures r.Failure? ==> r.error == UserNotFound(user.id)
    ensures r.Success? ==>
      && GetUserAuthenticators(r.value, user) == GetUserAuthenticators(s, user) + [authenticator]
      && r.value.users == s.users
      && r.value.authenticators.Keys == s.authenticators.Keys + {user.id}
      && forall id :: id in s.authenticators && id != user.id ==> r.value.authenticators[id] == s.authenticators[id]
  {
    if user.id !in s.users then Failure(UserNotFound(user.id))
    else Success(s.(authenticators := s.authenticators[user.id := GetUserAuthenticators(s, user) + [authenticator]]))
  }

  /** Registration with the lazily created list. */
  function VerifyRegResponse(s: Store, loggedInUserId: UserId, body: Registration.RegistrationResponse,
                             verify: Registration.RegistrationVerifier)
    : (r: Step<Registration.RegistrationVerification>)
    ensures loggedInUserId !in s.users ==> r == Step(Failure(UndefinedUser(loggedInUserId)), s)
    ensures r.outcome.Failure? ==> r.store == s
    ensures r.store.users == s.users
    ensures loggedInUserId in s.users ==>
      var user := s.users[loggedInUserId];
      var v := verify(Registration.Expected(s, user, body));
      && (r.outcome.Success? <==> v.Success? && v.value.registrationInfo.Some? && user.id in s.users)
      && (r.outcome.Success? ==>
            && r.outcome.value == v.value
            && GetUserAuthenticators(r.store, user)
               == GetUserAuthenticators(s, user) + [Registration.NewAuthenticator(v.value.registrationInfo.value, body.response.transports)]
            && r.store.authenticators.Keys == s.authenticators.Keys + {user.id}
            && forall id :: id in s.authenticators && id != user.id ==> r.store.authenticators[id] == s.authenticators[id])
  {
    match GetUserFromDB(s, loggedInUserId)
    case None => Step(Failure(UndefinedUser(loggedInUserId)), s)
    case Some(user) =>
      match verify(Registration.RegistrationRequest(body, GetUserCurrentChallenge(s, user), Origin, RpId))
      case Failure(reason) => Step(Failure(VerificationError(reason)), s)
      case Success(verification) =>
        match verification.registrationInfo
        case None => Step(Failure(MissingRegistrationInfo), s)
        case Some(info) =>
          match SaveNewAuthenticator(s, user, Registration.NewAuthenticator(info, body.response.transports))
          case Failure(e) => Step(Failure(e), s)
          case Success(s') => Step(Success(verification), s')
  }

  /** Authentication with the strict lookup: the verifier sees the stored entry whose
      ID the response names, and only entries with that ID get the new counter. */
  function VerifyAuthResponse(
    s: Store, loggedInUserId: UserId, response: Authentication.AuthenticationResponse,
    expectedOrigin: string, verify: Authentication.AuthenticationVerifier)
    : (r: Step<Authentication.AuthenticationVerification>)
    ensures loggedInUserId !in s.users ==> r == Step(Failure(UndefinedUser(loggedInUserId)), s)
    ensures r.outcome.Failure? ==> r.store == s
    ensures r.store.users == s.users
    ensures loggedInUserId in s.users ==>
      var user := s.users[loggedInUserId];
      var list := GetUserAuthenticators(s, user);
      && OtherListsUnchanged(s, r.store, user.id)
      && ((forall i :: 0 <= i < |list| ==> list[i].credentialID != response.id) ==>
            r.outcome == Failure(AuthenticatorNotFound(response.id)))
      && ((exists i :: 0 <= i < |list| && list[i].credentialID == response.id) ==>
              var v := verify(Authentication.AuthenticationRequest(
                         response, GetUserCurrentChallenge(s, user), expectedOrigin, RpId,
                         FindAuthenticator(s, user, response.id).value));
              && (v.Success? <==> r.outcome.Success?)
              && (v.Success? ==> r.outcome == Success(v.value))
              && (v.Failure? ==> r.outcome == Failure(VerificationError(v.error))))
      && (r.outcome.Success? ==>
            exists a :: a in list && a.credentialID == response.id
              && var v := verify(Authentication.AuthenticationRequest(
                                   response, GetUserCurrentChallenge(s, user), expectedOrigin, RpId, a));
              && v.Success?
              && r.outcome.value == v.value
              && CounterSet(list, GetUserAuthenticators(r.store, user),
                                           response.id, v.value.authenticationInfo.newCounter))
  {
    match GetUserFromDB(s, loggedInUserId)
    case None => Step(Failure(UndefinedUser(loggedInUserId)), s)
    case Some(user) =>
      match FindAuthenticator(s, user, response.id)
      case None => Step(Failure(AuthenticatorNotFound(response.id)), s)
      case Some(authenticator) =>
        var expected := Authentication.AuthenticationRequest(
          response, GetUserCurrentChallenge(s, user), expectedOrigin, RpId, authenticator);
        match verify(expected)
        case Failure(reason) => Step(Failure(VerificationError(reason)), s)
        case Success(verification) =>
          match Authentication.SaveUpdatedAuthenticator(s, user, authenticator, verification)
          case Failure(e) => Step(Failure(e), s)
          case Success(s') => Step(Success(verification), s')
  }

  /** The two lookups agree, and the assigning one leaves the store as it was,
      exactly in the case the assignment is harmless: the first entry already
      carries the queried ID. */
  lemma LookupsAgreeWhenFirstMatches(s: Store, user: UserModel, credentialId: CredentialId)
    requires Truthy(credentialId)
    requires GetUserAuthenticators(s, user) != [] && GetUserAuthenticators(s, user)[0].credentialID == credentialId
    ensures GetUserAuthenticator(s, user, credentialId).found == FindAuthenticator(s, user, credentialId)
    ensures GetUserAuthenticator(s, user, credentialId).store == s
  {
    var list := GetUserAuthenticators(s, user);
    assert list[0 := list[0]] == list;
    assert s.authenticators[user.id := list] == s.authenticators;
  }

  /** From process start: issue registration options, register a credential, issue
      authentication options, authenticate with it. The allow list names exactly the
      new credential and the stored counter becomes the verifier's `newCounter`. */
  lemma RegisterThenAuthenticate(
    c1: Challenge, body: Registration.RegistrationResponse, verifyReg: Registration.RegistrationVerifier,
    c2: Challenge, response: Authentication.AuthenticationResponse, expectedOrigin: string,
    verifyAuth: Authentication.AuthenticationVerifier)
    requires verifyReg(Registration.RegistrationRequest(body, Some(c1), Origin, RpId)).Success?
    requires verifyReg(Registration.RegistrationRequest(body, Some(c1), Origin, RpId)).value.registrationInfo.Some?
    requires response.id == verifyReg(Registration.RegistrationRequest(body, Some(c1), Origin, RpId)).value.registrationInfo.value.credentialID
    requires forall q :: verifyAuth(q).Success?
    ensures
      var info := verifyReg(Registration.RegistrationRequest(body, Some(c1), Origin, RpId)).value.registrationInfo.value;
      var a := Registration.NewAuthenticator(info, body.response.transports);
      var user := Initial.users["some-id-1"];
      var s1 := Registration.GenerateRegOptions(Initial, "some-id-1", c1).store;
      var s2 := VerifyRegResponse(s1, "some-id-1", body, verifyReg);
      var s3 := Authentication.GenerateAuthOptions(s2.store, "some-id-1", c2);
      var s4 := VerifyAuthResponse(s3.store, "some-id-1", response, expectedOrigin, verifyAuth);
      && s2.outcome.Success?
      && GetUserAuthenticators(s2.store, user) == [a]
      && s3.outcome.Success?
      && s3.outcome.value.allowCredentials == [CredentialDescriptor(info.credentialID, PublicKey, body.response.transports)]
      && s4.outcome.Success?
      && GetUserAuthenticators(s4.store, user)
         == [a.(counter := verifyAuth(Authentication.AuthenticationRequest(
                 response, Some(c2), expectedOrigin, RpId, a)).value.authenticationInfo.newCounter)]
  {
  }
}
