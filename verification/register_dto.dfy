/** `RegisterDto`: the registration body the class describes. The register
    route takes an untyped body, so nothing applies this class to requests;
    it is modelled as the acceptance condition it declares. */
module RegisterDto {
  import opened JsValues
  import opened ClassValidator

  const InvalidEmail := "Enter a valid email"
  const PasswordTooShort := "Password must be at least 6 characters long"

  const Spec: seq<Property> := [
    Property("email", false, [
      Check(IsEmail, InvalidEmail),
      Check(IsNotEmpty, ShouldNotBeEmpty("email"))]),
    Property("name", false, [
      Check(IsString, MustBeString("name")),
      Check(IsNotEmpty, ShouldNotBeEmpty("name"))]),
    Property("password", false, [
      Check(IsString, MustBeString("password")),
      Check(MinLength(6), PasswordTooShort)]),
    Property("displayImage", true, [
      Check(IsString, MustBeString("displayImage"))]),
    Property("role", true, [
      Check(IsString, MustBeString("role"))])]

  /** Acceptance written out from the decorators: only declared properties;
      a non-empty e-mail address; a non-empty name; a password of at least
      six characters; display image and role absent, null or any string. */
  predicate WellFormed(body: JsObject, isEmail: EmailFormat) {
    && body.Keys <= {"email", "name", "password", "displayImage", "role"}
    && NonEmptyString(Field(body, "email")) && isEmail(Field(body, "email").s)
    && NonEmptyString(Field(body, "name"))
    && Field(body, "password").Str? && TextLength(Field(body, "password").s) >= 6
    && StringOrNullish(Field(body, "displayImage"))
    && StringOrNullish(Field(body, "role"))
  }

  lemma PropertiesOk(body: JsObject, isEmail: EmailFormat)
    ensures PropertyOk(Spec[0], body, isEmail) <==>
              NonEmptyString(Field(body, "email")) && isEmail(Field(body, "email").s)
    ensures PropertyOk(Spec[1], body, isEmail) <==> NonEmptyString(Field(body, "name"))
    ensures PropertyOk(Spec[2], body, isEmail) <==>
              Field(body, "password").Str? && TextLength(Field(body, "password").s) >= 6
    ensures PropertyOk(Spec[3], body, isEmail) <==> StringOrNullish(Field(body, "displayImage"))
    ensures PropertyOk(Spec[4], body, isEmail) <==> StringOrNullish(Field(body, "role"))
  {
    TwoChecks(Spec[0], body, isEmail);
    TwoChecks(Spec[1], body, isEmail);
    TwoChecks(Spec[2], body, isEmail);
    OneCheck(Spec[3], body, isEmail);
    OneCheck(Spec[4], body, isEmail);
  }

  /** The names the class declares, which the whitelist lets through. */
  lemma DeclaredNames()
    ensures Declared(Spec) == {"email", "name", "password", "displayImage", "role"}
  {
    assert && Spec[0].name == "email"
           && Spec[1].name == "name"
           && Spec[2].name == "password"
           && Spec[3].name == "displayImage"
           && Spec[4].name == "role";
  }

  /** Every declared property passes exactly when each one does. */
  lemma EveryPropertyOk(body: JsObject, isEmail: EmailFormat)
    ensures (forall i :: 0 <= i < |Spec| ==> PropertyOk(Spec[i], body, isEmail)) <==>
              && PropertyOk(Spec[0], body, isEmail)
              && PropertyOk(Spec[1], body, isEmail)
              && PropertyOk(Spec[2], body, isEmail)
              && PropertyOk(Spec[3], body, isEmail)
              && PropertyOk(Spec[4], body, isEmail)
  {
    if && PropertyOk(Spec[0], body, isEmail)
       && PropertyOk(Spec[1], body, isEmail)
       && PropertyOk(Spec[2], body, isEmail)
       && PropertyOk(Spec[3], body, isEmail)
       && PropertyOk(Spec[4], body, isEmail)
    {
      forall i | 0 <= i < |Spec| ensures PropertyOk(Spec[i], body, isEmail) {
        assert i == 0 || i == 1 || i == 2 || i == 3 || i == 4;
      }
    }
  }

  /** The validator accepts exactly the well-formed bodies. */
  lemma ErrorsEmptyIffWellFormed(body: JsObject, isEmail: EmailFormat)
    ensures Errors(Spec, body, isEmail) == {} <==> WellFormed(body, isEmail)
  {
    DeclaredNames();
    EveryPropertyOk(body, isEmail);
    PropertiesOk(body, isEmail);
  }
}
