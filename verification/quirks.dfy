/** Concrete inputs on which the store behaves as written rather than as its names
    suggest. */
module Quirks {
  import opened Wrappers
  import opened Types
  import opened Db
  import Authentication

  /** A store in which the first seeded user owns exactly the given list. */
  function WithList(entries: seq<Authenticator>): Store {
    Store(Initial.users, map["some-id-1" := entries])
  }

  /** Looking up the second of two credentials returns the FIRST one, renamed to the
      queried ID, and leaves two entries with that ID in the store; the first
      credential's own ID is gone. */
  lemma LookupReturnsFirstEntry(a: Authenticator, b: Authenticator)
    requires a.credentialID != b.credentialID && Truthy(b.credentialID)
    ensures
      var user := Initial.users["some-id-1"];
      var r := GetUserAuthenticator(WithList([a, b]), user, b.credentialID);
      && r.found == Some(a.(credentialID := b.credentialID))
      && GetUserAuthenticators(r.store, user) == [a.(credentialID := b.credentialID), b]
      && forall e :: e in GetUserAuthenticators(r.store, user) ==> e.credentialID != a.credentialID
  {
  }

  /** Looking up the empty ID finds nothing, yet renames every entry to the empty ID. */
  lemma EmptyLookupRenamesAll(a: Authenticator, b: Authenticator)
    ensures
      var user := Initial.users["some-id-1"];
      var r := GetUserAuthenticator(WithList([a, b]), user, "");
      && r.found == None
      && GetUserAuthenticators(r.store, user) == [a.(credentialID := ""), b.(credentialID := "")]
  {
  }

  /** After that lookup, a successful authentication of the second credential writes
      the new counter onto BOTH entries, since both now carry its ID. */
  lemma AuthenticationBumpsBoth(a: Authenticator, b: Authenticator,
                                response: Authentication.AuthenticationResponse,
                                expectedOrigin: string, verify: Authentication.AuthenticationVerifier)
    requires a.credentialID != b.credentialID && Truthy(b.credentialID)
    requires response.id == b.credentialID
    requires forall q :: verify(q).Success?
    ensures
      var r := Authentication.VerifyAuthResponse(WithList([a, b]), "some-id-1", response, expectedOrigin, verify);
      && r.outcome.Success?
      && var n := r.outcome.value.authenticationInfo.newCounter;
         GetUserAuthenticators(r.store, Initial.users["some-id-1"])
         == [a.(credentialID := b.credentialID, counter := n), b.(counter := n)]
  {
  }
}
