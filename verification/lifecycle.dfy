/** The store over any sequence of ceremony calls from process start. Nothing in the
    program ever creates an authenticator list, so every reachable store has the
    seeded user table and no list at all: registration can never save, and
    authentication can never find an authenticator. */
module Lifecycle {
  import opened Wrappers
  import opened Types
  import opened Db
  import Registration
  import Authentication

  /** One of the four ceremony entry points, with what the outside world supplies:
      the generated challenge, the posted response and the library verifier. */
  datatype Call =
    | BeginRegistration(userId: UserId, challenge: Challenge)
    | FinishRegistration(userId: UserId, body: Registration.RegistrationResponse, verifyReg: Registration.RegistrationVerifier)
    | BeginAuthentication(userId: UserId, challenge: Challenge)
    | FinishAuthentication(userId: UserId, response: Authentication.AuthenticationResponse,
                           expectedOrigin: string, verifyAuth: Authentication.AuthenticationVerifier)

  /** The store after one call, whether it returned or threw. */
  function Apply(s: Store, c: Call): Store {
    match c
    case BeginRegistration(id, challenge) => Registration.GenerateRegOptions(s, id, challenge).store
    case FinishRegistration(id, body, verify) => Registration.VerifyRegResponse(s, id, body, verify).store
    case BeginAuthentication(id, challenge) => Authentication.GenerateAuthOptions(s, id, challenge).store
    case FinishAuthentication(id, response, origin, verify) =>
      Authentication.VerifyAuthResponse(s, id, response, origin, verify).store
  }

  function Run(s: Store, calls: seq<Call>): Store
    decreases |calls|
  {
    if calls == [] then s else Run(Apply(s, calls[0]), calls[1..])
  }

  /** Seeded users (challenges aside) and no authenticator list. */
  ghost predicate Inv(s: Store) {
    SeededUsers(s) && s.authenticators == map[]
  }

  lemma ApplyPreservesInv(s: Store, c: Call)
    requires Inv(s)
    ensures Inv(Apply(s, c))
  {
    match c
    case BeginRegistration(id, challenge) =>
    case FinishRegistration(id, body, verify) =>
    case BeginAuthentication(id, challenge) =>
    case FinishAuthentication(id, response, origin, verify) =>
  }

  lemma {:induction false} RunPreservesInv(s: Store, calls: seq<Call>)
    requires Inv(s)
    ensures Inv(Run(s, calls))
    decreases |calls|
  {
    if calls != [] {
      ApplyPreservesInv(s, calls[0]);
      RunPreservesInv(Apply(s, calls[0]), calls[1..]);
    }
  }

  /** Whatever has happened, the user table answers for exactly the seeded ids. */
  lemma ReachableUserLookup(calls: seq<Call>, userId: UserId)
    ensures GetUserFromDB(Run(Initial, calls), userId).Some? <==> GetUserFromDB(Initial, userId).Some?
    ensures GetUserFromDB(Run(Initial, calls), userId).Some? ==>
      GetUserFromDB(Run(Initial, calls), userId).value.(currentChallenge := None) == GetUserFromDB(Initial, userId).value
  {
    RunPreservesInv(Initial, calls);
    SeededLookup(Run(Initial, calls), userId);
  }

  /** Whatever has happened, saving a new authenticator throws. */
  lemma SaveNewAlwaysFails(calls: seq<Call>, user: UserModel, a: Authenticator)
    ensures SaveNewUserAuthenticatorInDB(Run(Initial, calls), user, a) == Failure(UserNotFound(user.id))
  {
    RunPreservesInv(Initial, calls);
  }

  /** Whatever has happened and whatever the verifier says, finishing a registration
      fails and leaves the store as it was. When the verifier does return a
      `registrationInfo`, the failure is the store's "user not found". */
  lemma RegistrationNeverSaves(calls: seq<Call>, userId: UserId, body: Registration.RegistrationResponse,
                               verify: Registration.RegistrationVerifier)
    ensures Registration.VerifyRegResponse(Run(Initial, calls), userId, body, verify).outcome.Failure?
    ensures Registration.VerifyRegResponse(Run(Initial, calls), userId, body, verify).store == Run(Initial, calls)
    ensures GetUserFromDB(Run(Initial, calls), userId).Some? ==>
      var v := verify(Registration.Expected(Run(Initial, calls), GetUserFromDB(Run(Initial, calls), userId).value, body));
      v.Success? && v.value.registrationInfo.Some? ==>
        Registration.VerifyRegResponse(Run(Initial, calls), userId, body, verify).outcome == Failure(UserNotFound(userId))
  {
    RunPreservesInv(Initial, calls);
  }

  /** Whatever has happened, both kinds of options list no credential, and issuing
      them succeeds for exactly the seeded users. */
  lemma OptionsListNothing(calls: seq<Call>, userId: UserId, challenge: Challenge)
    ensures Registration.GenerateRegOptions(Run(Initial, calls), userId, challenge).outcome.Success?
        <==> GetUserFromDB(Initial, userId).Some?
    ensures Registration.GenerateRegOptions(Run(Initial, calls), userId, challenge).outcome.Success? ==>
      Registration.GenerateRegOptions(Run(Initial, calls), userId, challenge).outcome.value.excludeCredentials == []
    ensures Authentication.GenerateAuthOptions(Run(Initial, calls), userId, challenge).outcome.Success?
        <==> GetUserFromDB(Initial, userId).Some?
    ensures Authentication.GenerateAuthOptions(Run(Initial, calls), userId, challenge).outcome.Success? ==>
      Authentication.GenerateAuthOptions(Run(Initial, calls), userId, challenge).outcome.value.allowCredentials == []
  {
    RunPreservesInv(Initial, calls);
  }

  /** Whatever has happened, finishing an authentication for a seeded user fails
      before the verifier is consulted, and nothing in the store changes. */
  lemma AuthenticationNeverFinds(calls: seq<Call>, userId: UserId, response: Authentication.AuthenticationResponse,
                                 expectedOrigin: string, verify: Authentication.AuthenticationVerifier)
    requires GetUserFromDB(Initial, userId).Some?
    ensures Authentication.VerifyAuthResponse(Run(Initial, calls), userId, response, expectedOrigin, verify)
         == Step(Failure(AuthenticatorNotFound(response.id)), Run(Initial, calls))
  {
    RunPreservesInv(Initial, calls);
  }

  /** Finishing a ceremony, whatever its outcome, leaves every user's challenge in
      place: a challenge is never consumed, so it can be presented again. */
  lemma FinishKeepsChallenge(s: Store, c: Call, user: UserModel)
    requires c.FinishRegistration? || c.FinishAuthentication?
    ensures GetUserCurrentChallenge(Apply(s, c), user) == GetUserCurrentChallenge(s, user)
  {
  }
}
