/** `JwtStrategy.validate`: once passport has checked a bearer token's
    signature and expiry, the decoded claims are turned into the request's
    principal. */
module JwtStrategy {
  import opened JsValues

  /** `{ userId, email }`, what protected handlers see as `req.user`. */
  datatype Principal = Principal(userId: Value, email: Value)

  /** `validate(payload)`: the subject claim becomes the user id, the email
      claim is passed through. */
  function Validate(payload: JsObject): (r: Principal)
    ensures r.userId == Field(payload, "sub") && r.email == Field(payload, "email")
  {
    Principal(Field(payload, "sub"), Field(payload, "email"))
  }

  /** Claims other than `sub` and `email` (the signer's `iat` and `exp`, or
      anything else) make no difference to the principal. */
  lemma ValidateIgnoresOtherClaims(payload: JsObject, extra: JsObject)
    requires "sub" !in extra && "email" !in extra
    ensures Validate(payload + extra) == Validate(payload)
    ensures Validate(extra) == Principal(Undefined, Undefined)
  {
  }
}
