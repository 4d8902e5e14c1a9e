/** The relying party's identity, fixed at deployment and consumed by both ceremonies. */
module Constants {

  /** Human-readable title of the relying party. */
  const RpName: string := "SimpleWebAuthn Example"

  /** The relying-party ID, a domain. */
  const RpId: string := "localhost"

  /** The origin registrations and authentications must come from; built from `RpId`
      exactly as the template literal in the source builds it. */
  const Origin: string := "http://" + RpId + ":3000"
}
