/** `UserDto` (authentication): a user as the auth layer describes it. */
module UserDto {
  import opened JsValues
  import opened ClassValidator

  const Spec: seq<Property> := [
    Property("id", false, [
      Check(IsNotEmpty, ShouldNotBeEmpty("id"))]),
    Property("email", false, [
      Check(IsEmail, MustBeEmail("email"))]),
    Property("name", true, [
      Check(IsString, MustBeString("name"))]),
    Property("displayImage", true, [
      Check(IsString, MustBeString("displayImage"))]),
    Property("isVerified", false, [
      Check(IsBoolean, MustBeBoolean("isVerified"))]),
    Property("role", true, [
      Check(IsString, MustBeString("role"))])]

  /** Acceptance written out from the decorators: only declared properties;
      an id that is present and not the empty string (of any type); an
      e-mail address; a boolean verification flag; name, display image and
      role absent, null or any string. */
  predicate WellFormed(body: JsObject, isEmail: EmailFormat) {
    && body.Keys <= {"id", "email", "name", "displayImage", "isVerified", "role"}
    && Field(body, "id") !in {Undefined, Null, Str("")}
    && Field(body, "email").Str? && isEmail(Field(body, "email").s)
    && Field(body, "isVerified").Bool?
    && StringOrNullish(Field(body, "name"))
    && StringOrNullish(Field(body, "displayImage"))
    && StringOrNullish(Field(body, "role"))
  }

  lemma PropertiesOk(body: JsObject, isEmail: EmailFormat)
    ensures PropertyOk(Spec[0], body, isEmail) <==> Field(body, "id") !in {Undefined, Null, Str("")}
    ensures PropertyOk(Spec[1], body, isEmail) <==>
              Field(body, "email").Str? && isEmail(Field(body, "email").s)
    ensures PropertyOk(Spec[2], body, isEmail) <==> StringOrNullish(Field(body, "name"))
    ensures PropertyOk(Spec[3], body, isEmail) <==> StringOrNullish(Field(body, "displayImage"))
    ensures PropertyOk(Spec[4], body, isEmail) <==> Field(body, "isVerified").Bool?
    ensures PropertyOk(Spec[5], body, isEmail) <==> StringOrNullish(Field(body, "role"))
  {
    OneCheck(Spec[0], body, isEmail);
    OneCheck(Spec[1], body, isEmail);
    OneCheck(Spec[2], body, isEmail);
    OneCheck(Spec[3], body, isEmail);
    OneCheck(Spec[4], body, isEmail);
    OneCheck(Spec[5], body, isEmail);
  }

  /** The names the class declares, which the whitelist lets through. */
  lemma DeclaredNames()
    ensures Declared(Spec) == {"id", "email", "name", "displayImage", "isVerified", "role"}
  {
    assert && Spec[0].name == "id"
           && Spec[1].name == "email"
           && Spec[2].name == "name"
           && Spec[3].name == "displayImage"
           && Spec[4].name == "isVerified"
           && Spec[5].name == "role";
  }

  /** Every declared property passes exactly when each one does. */
  lemma EveryPropertyOk(body: JsObject, isEmail: EmailFormat)
    ensures (forall i :: 0 <= i < |Spec| ==> PropertyOk(Spec[i], body, isEmail)) <==>
              && PropertyOk(Spec[0], body, isEmail)
              && PropertyOk(Spec[1], body, isEmail)
              && PropertyOk(Spec[2], body, isEmail)
              && PropertyOk(Spec[3], body, isEmail)
              && PropertyOk(Spec[4], body, isEmail)
              && PropertyOk(Spec[5], body, isEmail)
  {
    if && PropertyOk(Spec[0], body, isEmail)
       && PropertyOk(Spec[1], body, isEmail)
       && PropertyOk(Spec[2], body, isEmail)
       && PropertyOk(Spec[3], body, isEmail)
       && PropertyOk(Spec[4], body, isEmail)
       && PropertyOk(Spec[5], body, isEmail)
    {
      forall i | 0 <= i < |Spec| ensures PropertyOk(Spec[i], body, isEmail) {
        assert i == 0 || i == 1 || i == 2 || i == 3 || i == 4 || i == 5;
      }
    }
  }

  /** The validator accepts exactly the well-formed bodies. */
  lemma ErrorsEmptyIffWellFormed(body: JsObject, isEmail: EmailFormat)
    ensures Errors(Spec, body, isEmail) == {} <==> WellFormed(body, isEmail)
  {
    DeclaredNames();
    EveryPropertyOk(body, isEmail);
    PropertiesOk(body, isEmail);
  }
}
