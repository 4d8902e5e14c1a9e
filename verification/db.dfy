/** The in-memory store: a fixed user table and a per-user list of authenticators,
    with the seven operations the ceremonies use. Every operation is a pure function
    from the store; one that can throw returns a `Result`. */
module Db {
  import opened Wrappers
  import opened Types

  datatype Store = Store(
    users: map<UserId, UserModel>,
    authenticators: map<UserId, seq<Authenticator>>)

  /** The store at process start: three seeded users and no authenticator list at all. */
  const Initial: Store := Store(
    map[
      "some-id-1" := UserModel("some-id-1", "some-username-1", None),
      "some-id-2" := UserModel("some-id-2", "some-username-2", None),
      "some-id-3" := UserModel("some-id-3", "some-username-3", None)],
    map[])

  /** What `find` with an assigning callback leaves behind: the entry it returned
      (if any) and the list after its side effects. */
  datatype Found = Found(found: Option<Authenticator>, entries: seq<Authenticator>)

  /** A lookup's answer together with the store it leaves behind. */
  datatype Lookup = Lookup(found: Option<Authenticator>, store: Store)

  /** The result of a ceremony step: what it returned or threw, and the store it left
      behind. A throw does not undo mutations made before it, so the store is kept
      on both paths. */
  datatype Step<+T> = Step(outcome: Result<T, Error>, store: Store)

  function GetUserFromDB(s: Store, userId: UserId): Option<UserModel> {
    if userId in s.users then Some(s.users[userId]) else None
  }

  function GetUserAuthenticators(s: Store, user: UserModel): (r: seq<Authenticator>)
    ensures user.id in s.authenticators ==> r == s.authenticators[user.id]
    ensures user.id !in s.authenticators ==> r == []
  {
    if user.id in s.authenticators then s.authenticators[user.id] else []
  }

  function GetUserCurrentChallenge(s: Store, user: UserModel): Option<Challenge> {
    if user.id in s.users then s.users[user.id].currentChallenge else None
  }

  /** Appends to the user's list; throws when the user has no list. An empty list
      is truthy in JavaScript, so only a missing list fails. */
  function SaveNewUserAuthenticatorInDB(s: Store, user: UserModel, authenticator: Authenticator)
    : (r: Result<Store, Error>)
    ensures r.Failure? <==> user.id !in s.authenticators
    ensures r.Failure? ==> r.error == UserNotFound(user.id)
    ensures r.Success? ==> Appended(s, r.value, user, authenticator)
  {
    if user.id !in s.authenticators then Failure(UserNotFound(user.id))
    else
      var list := s.authenticators[user.id];
      Success(s.(authenticators := s.authenticators[user.id := list + [authenticator]]))
  }

  /** The `find` in `getUserAuthenticator`, whose callback ASSIGNS the queried ID to
      each entry it visits and answers with the assigned value's truthiness: a
      non-empty ID stops at the first entry; an empty ID visits (and rewrites) them all. */
  function FindAssigning(entries: seq<Authenticator>, credentialId: CredentialId): (r: Found)
    ensures |r.entries| == |entries|
    ensures forall i :: 0 <= i < |entries| ==>
      r.entries[i] == entries[i].(credentialID := r.entries[i].credentialID)
    ensures r.found.Some? <==> entries != [] && Truthy(credentialId)
    ensures r.found.Some? ==>
      && r.found.value == entries[0].(credentialID := credentialId)
      && r.entries == entries[0 := r.found.value]
    ensures !Truthy(credentialId) ==> AllRenamed(entries, r.entries, credentialId)
    decreases |entries|
  {
    if entries == [] then Found(None, entries)
    else
      var visited := entries[0].(credentialID := credentialId);
      if Truthy(credentialId) then Found(Some(visited), [visited] + entries[1..])
      else
        var rest := FindAssigning(entries[1..], credentialId);
        Found(rest.found, [visited] + rest.entries)
  }

  /** Looks up "the" authenticator for a credential ID. Because of the assignment in
      the callback, a non-empty ID returns the FIRST entry of the list, renamed to the
      queried ID, and the renaming stays in the store; no other field changes. */
  function GetUserAuthenticator(s: Store, user: UserModel, credentialId: CredentialId): (r: Lookup)
    ensures r.found.Some? <==> GetUserAuthenticators(s, user) != [] && Truthy(credentialId)
    ensures r.found.Some? ==>
      var list := GetUserAuthenticators(s, user);
      && r.found.value == list[0].(credentialID := credentialId)
      && GetUserAuthenticators(r.store, user) == list[0 := r.found.value]
    ensures r.store.users == s.users
    ensures OtherListsUnchanged(s, r.store, user.id)
    ensures OnlyIdsChanged(GetUserAuthenticators(s, user), GetUserAuthenticators(r.store, user))
    ensures !Truthy(credentialId) ==>
      AllRenamed(GetUserAuthenticators(s, user), GetUserAuthenticators(r.store, user), credentialId)
    ensures GetUserAuthenticators(s, user) == [] ==> r.store == s
  {
    if user.id !in s.authenticators then Lookup(None, s)
    else
      var f := FindAssigning(s.authenticators[user.id], credentialId);
      Lookup(f.found, s.(authenticators := s.authenticators[user.id := f.entries]))
  }

  /** The `map` in `saveUpdatedAuthenticatorCounter`: entries with the given ID get
      the new counter, the rest are kept as they are. */
  function SetCounter(entries: seq<Authenticator>, credentialId: CredentialId, newCounter: nat)
    : (r: seq<Authenticator>)
    ensures CounterSet(entries, r, credentialId, newCounter)
    decreases |entries|
  {
    if entries == [] then []
    else
      var head := if entries[0].credentialID != credentialId then entries[0]
                  else entries[0].(counter := newCounter);
      [head] + SetCounter(entries[1..], credentialId, newCounter)
  }

  /** Rewrites the counter of every entry of the user's list whose ID equals the
      given authenticator's; throws when the user has no list. */
  function SaveUpdatedAuthenticatorCounter(s: Store, user: UserModel, authenticator: Authenticator, newCounter: nat)
    : (r: Result<Store, Error>)
    ensures r.Failure? <==> user.id !in s.authenticators
    ensures r.Failure? ==> r.error == UserNotFound(user.id)
    ensures r.Success? ==>
      CounterSet(GetUserAuthenticators(s, user), GetUserAuthenticators(r.value, user),
                 authenticator.credentialID, newCounter)
    ensures r.Success? ==> r.value.users == s.users
    ensures r.Success? ==> OtherListsUnchanged(s, r.value, user.id)
  {
    if user.id !in s.authenticators then Failure(UserNotFound(user.id))
    else
      var list := s.authenticators[user.id];
      Success(s.(authenticators := s.authenticators[user.id := SetCounter(list, authenticator.credentialID, newCounter)]))
  }

  /** Remembers a challenge on the user's row, overwriting any earlier one; throws
      for a user the table does not hold. */
  function SetUserCurrentChallenge(s: Store, user: UserModel, challenge: Challenge): (r: Result<Store, Error>)
    ensures r.Failure? <==> GetUserFromDB(s, user.id).None?
    ensures r.Failure? ==> r.error == UserNotFound(user.id)
    ensures r.Success? ==> ChallengeReplaced(s, r.value, user, challenge)
  {
    if user.id !in s.users then Failure(UserNotFound(user.id))
    else Success(s.(users := s.users[user.id := s.users[user.id].(currentChallenge := Some(challenge))]))
  }

  /** `s'` is `s` with `authenticator` appended at the end of the user's list: earlier
      entries, other users' lists and the user table are kept. */
  ghost predicate Appended(s: Store, s': Store, user: UserModel, authenticator: Authenticator) {
    var before := GetUserAuthenticators(s, user);
    var after := GetUserAuthenticators(s', user);
    && user.id in s'.authenticators
    && |after| == |before| + 1
    && after[..|before|] == before
    && after[|before|] == authenticator
    && s'.users == s.users
    && OtherListsUnchanged(s, s', user.id)
  }

  /** `s'` is `s` with the user's current challenge set to `challenge`: whatever was
      there before is gone, and nothing else in the store differs. */
  ghost predicate ChallengeReplaced(s: Store, s': Store, user: UserModel, challenge: Challenge) {
    && GetUserCurrentChallenge(s', user) == Some(challenge)
    && s'.users.Keys == s.users.Keys
    && user.id in s.users
    && s'.users[user.id].(currentChallenge := None) == s.users[user.id].(currentChallenge := None)
    && (forall id :: id in s.users && id != user.id ==> s'.users[id] == s.users[id])
    && s'.authenticators == s.authenticators
  }

  /** No list appears or disappears, no list changes length, and no counter changes. */
  ghost predicate CountersKept(s: Store, s': Store) {
    && s'.authenticators.Keys == s.authenticators.Keys
    && forall id :: id in s.authenticators ==>
         && |s'.authenticators[id]| == |s.authenticators[id]|
         && forall i :: 0 <= i < |s.authenticators[id]| ==>
              s'.authenticators[id][i].counter == s.authenticators[id][i].counter
  }

  /** Every list other than `userId`'s is kept, and no list appears or disappears. */
  ghost predicate OtherListsUnchanged(s: Store, s': Store, userId: UserId) {
    && s'.authenticators.Keys == s.authenticators.Keys
    && forall id :: id in s.authenticators && id != userId ==> s'.authenticators[id] == s.authenticators[id]
  }

  /** `after` is `before` with the counter of every entry named `credentialId` set to
      `newCounter` and every other entry left alone. */
  ghost predicate CounterSet(before: seq<Authenticator>, after: seq<Authenticator>, credentialId: CredentialId, newCounter: nat) {
    && |after| == |before|
    && (forall i :: 0 <= i < |before| && before[i].credentialID == credentialId ==>
          after[i] == before[i].(counter := newCounter))
    && (forall i :: 0 <= i < |before| && before[i].credentialID != credentialId ==>
          after[i] == before[i])
  }

  /** `after` is `before` with every entry's credential ID set to `credentialId`. */
  ghost predicate AllRenamed(before: seq<Authenticator>, after: seq<Authenticator>, credentialId: CredentialId) {
    && |after| == |before|
    && forall i :: 0 <= i < |before| ==> after[i] == before[i].(credentialID := credentialId)
  }

  /** `after` is `before` with, at most, some credential IDs rewritten. */
  ghost predicate OnlyIdsChanged(before: seq<Authenticator>, after: seq<Authenticator>) {
    && |after| == |before|
    && forall i :: 0 <= i < |before| ==> after[i] == before[i].(credentialID := after[i].credentialID)
  }

  /** The user table holds exactly the seeded rows, up to their current challenges. */
  ghost predicate SeededUsers(s: Store) {
    && s.users.Keys == Initial.users.Keys
    && forall id :: id in s.users ==> s.users[id].(currentChallenge := None) == Initial.users[id]
  }

  /** The seeded table answers for exactly the three seeded ids, with the record whose
      `id` is the key and which holds no challenge yet. */
  lemma InitialUserLookup(userId: UserId)
    ensures GetUserFromDB(Initial, userId).Some? <==>
      userId == "some-id-1" || userId == "some-id-2" || userId == "some-id-3"
    ensures GetUserFromDB(Initial, userId).Some? ==>
      var u := GetUserFromDB(Initial, userId).value;
      u.id == userId && u.currentChallenge == None && u.username == "some-username-" + [userId[8]]
  {
  }

  /** In any store whose table is the seeded one, lookup succeeds for exactly the seeded ids. */
  lemma SeededLookup(s: Store, userId: UserId)
    requires SeededUsers(s)
    ensures GetUserFromDB(s, userId).Some? <==> GetUserFromDB(Initial, userId).Some?
    ensures GetUserFromDB(s, userId).Some? ==>
      GetUserFromDB(s, userId).value.(currentChallenge := None) == GetUserFromDB(Initial, userId).value
  {
  }

  /** Reading back a challenge returns the one most recently set. */
  lemma GetAfterSet(s: Store, user: UserModel, c: Challenge)
    requires SetUserCurrentChallenge(s, user, c).Success?
    ensures GetUserCurrentChallenge(SetUserCurrentChallenge(s, user, c).value, user) == Some(c)
  {
  }

  /** Setting twice is the same as setting the second value once: a new challenge
      replaces the old one, and there is never more than one per user. */
  lemma SetOverwrites(s: Store, user: UserModel, c1: Challenge, c2: Challenge)
    requires SetUserCurrentChallenge(s, user, c1).Success?
    ensures SetUserCurrentChallenge(SetUserCurrentChallenge(s, user, c1).value, user, c2)
         == SetUserCurrentChallenge(s, user, c2)
  {
    var s1 := SetUserCurrentChallenge(s, user, c1).value;
    assert s1.users[user.id].(currentChallenge := Some(c2)) == s.users[user.id].(currentChallenge := Some(c2));
    assert s1.users[user.id := s1.users[user.id].(currentChallenge := Some(c2))]
        == s.users[user.id := s.users[user.id].(currentChallenge := Some(c2))];
  }
}
