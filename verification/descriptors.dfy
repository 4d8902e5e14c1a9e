/** The `{id, type, transports}` entries both ceremonies derive from the user's
    authenticators: the exclusion list at registration, the allow list at authentication. */
module CredentialDescriptors {
  import opened Wrappers
  import opened Types

  /** The only credential type either ceremony names. */
  const PublicKey: string := "public-key"

  datatype CredentialDescriptor = CredentialDescriptor(
    id: CredentialId,
    credentialType: string,
    transports: Option<seq<Transport>>)

  function Describe(a: Authenticator): CredentialDescriptor {
    CredentialDescriptor(a.credentialID, PublicKey, a.transports)
  }

  /** The descriptor list, one entry per authenticator, in the same order. */
  function Descriptors(authenticators: seq<Authenticator>): (r: seq<CredentialDescriptor>)
    ensures |r| == |authenticators|
    ensures forall i :: 0 <= i < |authenticators| ==>
      && r[i].id == authenticators[i].credentialID
      && r[i].credentialType == PublicKey
      && r[i].transports == authenticators[i].transports
    decreases |authenticators|
  {
    if authenticators == [] then []
    else [Describe(authenticators[0])] + Descriptors(authenticators[1..])
  }

  /** Appending an authenticator appends its descriptor. */
  lemma DescriptorsAppend(authenticators: seq<Authenticator>, a: Authenticator)
    ensures Descriptors(authenticators + [a]) == Descriptors(authenticators) + [Describe(a)]
  {
  }
}
