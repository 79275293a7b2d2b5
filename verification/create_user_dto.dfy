/** `CreateUserDto`: the body for creating a user, with the role restricted
    to the two known roles. */
module CreateUserDto {
  import opened JsValues
  import opened ClassValidator

  /** `@IsIn(['user', 'admin'])`. */
  const Roles: seq<string> := ["user", "admin"]

  const RoleNotAllowed := MustBeOneOf("role", Roles)

  const Spec: seq<Property> := [
    Property("email", false, [
      Check(IsEmail, MustBeEmail("email")),
      Check(IsNotEmpty, ShouldNotBeEmpty("email"))]),
    Property("name", false, [
      Check(IsString, MustBeString("name")),
      Check(IsNotEmpty, ShouldNotBeEmpty("name"))]),
    Property("password", false, [
      Check(IsString, MustBeString("password")),
      Check(MinLength(6), MustBeLongerThan("password", 6))]),
    Property("displayImage", true, [
      Check(IsString, MustBeString("displayImage"))]),
    Property("role", true, [
      Check(IsIn(Roles), RoleNotAllowed)])]

  /** Acceptance written out from the decorators: only declared properties;
      a non-empty e-mail address; a non-empty name; a password of at least
      six characters; display image absent, null or any string; role absent,
      null, "user" or "admin". */
  predicate WellFormed(body: JsObject, isEmail: EmailFormat) {
    && body.Keys <= {"email", "name", "password", "displayImage", "role"}
    && NonEmptyString(Field(body, "email")) && isEmail(Field(body, "email").s)
    && NonEmptyString(Field(body, "name"))
    && Field(body, "password").Str? && TextLength(Field(body, "password").s) >= 6
    && StringOrNullish(Field(body, "displayImage"))
    && Field(body, "role") in {Undefined, Null, Str("user"), Str("admin")}
  }

  lemma PropertiesOk(body: JsObject, isEmail: EmailFormat)
    ensures PropertyOk(Spec[0], body, isEmail) <==>
              NonEmptyString(Field(body, "email")) && isEmail(Field(body, "email").s)
    ensures PropertyOk(Spec[1], body, isEmail) <==> NonEmptyString(Field(body, "name"))
    ensures PropertyOk(Spec[2], body, isEmail) <==>
              Field(body, "password").Str? && TextLength(Field(body, "password").s) >= 6
    ensures PropertyOk(Spec[3], body, isEmail) <==> StringOrNullish(Field(body, "displayImage"))
    ensures PropertyOk(Spec[4], body, isEmail) <==>
              Field(body, "role") in {Undefined, Null, Str("user"), Str("admin")}
  {
    TwoChecks(Spec[0], body, isEmail);
    TwoChecks(Spec[1], body, isEmail);
    TwoChecks(Spec[2], body, isEmail);
    OneCheck(Spec[3], body, isEmail);
    OneCheck(Spec[4], body, isEmail);
  }

  /** The names the class declares, which the whitelist lets through. */
  lemma DeclaredNames()
    ensures Declared(Spec) == {"email", "name", "password", "displayImage", "role"}
  {
    assert && Spec[0].name == "email"
           && Spec[1].name == "name"
           && Spec[2].name == "password"
           && Spec[3].name == "displayImage"
           && Spec[4].name == "role";
  }

  /** Every declared property passes exactly when each one does. */
  lemma EveryPropertyOk(body: JsObject, isEmail: EmailFormat)
    ensures (forall i :: 0 <= i < |Spec| ==> PropertyOk(Spec[i], body, isEmail)) <==>
              && PropertyOk(Spec[0], body, isEmail)
              && PropertyOk(Spec[1], body, isEmail)
              && PropertyOk(Spec[2], body, isEmail)
              && PropertyOk(Spec[3], body, isEmail)
              && PropertyOk(Spec[4], body, isEmail)
  {
    if && PropertyOk(Spec[0], body, isEmail)
       && PropertyOk(Spec[1], body, isEmail)
       && PropertyOk(Spec[2], body, isEmail)
       && PropertyOk(Spec[3], body, isEmail)
       && PropertyOk(Spec[4], body, isEmail)
    {
      forall i | 0 <= i < |Spec| ensures PropertyOk(Spec[i], body, isEmail) {
        assert i == 0 || i == 1 || i == 2 || i == 3 || i == 4;
      }
    }
  }

  /** The validator accepts exactly the well-formed bodies. */
  lemma ErrorsEmptyIffWellFormed(body: JsObject, isEmail: EmailFormat)
    ensures Errors(Spec, body, isEmail) == {} <==> WellFormed(body, isEmail)
  {
    DeclaredNames();
    EveryPropertyOk(body, isEmail);
    PropertiesOk(body, isEmail);
  }

  /** The role message is reported exactly when a role is given that is
      neither "user" nor "admin". */
  lemma RoleNotAllowedReported(body: JsObject, isEmail: EmailFormat)
    ensures RoleNotAllowed in Errors(Spec, body, isEmail) <==>
              Field(body, "role") !in {Undefined, Null, Str("user"), Str("admin")}
  {
    PropertiesOk(body, isEmail);
    if Field(body, "role") !in {Undefined, Null, Str("user"), Str("admin")} {
      FailureReported(Spec, body, isEmail, 4, 0);
    } else {
      forall i, j | 0 <= i < |Spec| && Fails(Spec[i], j, body, isEmail)
        ensures Spec[i].checks[j].message != RoleNotAllowed
      {
        assert i < 4;
        assert Spec[i].checks[j].message[0] != 'r';
      }
      assert RoleNotAllowed[..9] != "property " by {
        assert RoleNotAllowed[..9][0] == 'r';
      }
      MessageNotReported(Spec, body, isEmail, RoleNotAllowed);
    }
  }
}
