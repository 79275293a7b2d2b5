/** The declarative request validation the DTO classes rely on: each
    property carries a list of constraint decorators, `@IsOptional()` skips
    a `null` or `undefined` property, and the global validation pipe
    (`whitelist: true, forbidNonWhitelisted: true`) also rejects every
    property the class does not declare. A body is rejected with the set of
    messages of every constraint it breaks. */
module ClassValidator {
  import opened JsValues
  import opened Strings

  /** The constraint decorators the DTOs use. */
  datatype Constraint =
    | IsNotEmpty                 // not '', null or undefined
    | IsString
    | MinLength(min: nat)        // a string at least this long, by `TextLength`
    | MaxLength(max: nat)        // a string at most this long, by `TextLength`
    | IsBoolean
    | IsEmail                    // a string of e-mail form
    | IsIn(allowed: seq<string>)

  /** The variation selectors U+FE0E and U+FE0F, which choose text or emoji
      presentation of the character before them. */
  predicate IsVariationSelector(c: char) {
    c == '\U{FE0E}' || c == '\U{FE0F}'
  }

  /** The length the length constraints measure: code points (a surrogate
      pair is one), not counting variation selectors. */
  function TextLength(s: string): (n: nat)
    ensures n <= |s|
  {
    if |s| == 0 then 0
    else (if IsVariationSelector(s[0]) then 0 else 1) + TextLength(s[1..])
  }

  /** The measured length is the number of characters less the number of
      variation selectors. */
  lemma {:induction false} TextLengthCounts(s: string)
    ensures TextLength(s) + multiset(s)['\U{FE0E}'] + multiset(s)['\U{FE0F}'] == |s|
  {
    if |s| > 0 {
      TextLengthCounts(s[1..]);
      assert s == [s[0]] + s[1..];
      assert multiset(s) == multiset{s[0]} + multiset(s[1..]);
    }
  }

  /** The validator's default messages, for decorators given no message of
      their own: the property name followed by the constraint's wording. */
  function MustBeString(property: string): string {
    property + " must be a string"
  }

  function ShouldNotBeEmpty(property: string): string {
    property + " should not be empty"
  }

  function MustBeEmail(property: string): string {
    property + " must be an email"
  }

  function MustBeBoolean(property: string): string {
    property + " must be a boolean value"
  }

  function MustBeLongerThan(property: string, min: nat): string {
    property + " must be longer than or equal to " + Decimal(min) + " characters"
  }

  function MustBeOneOf(property: string, allowed: seq<string>): string
    requires |allowed| >= 1
  {
    property + " must be one of the following values: " + Join(allowed, ", ")
  }

  /** A decorator with the message it reports on failure. */
  datatype Check = Check(constraint: Constraint, message: string)

  /** A declared property: its name, whether `@IsOptional()` is on it, and
      its other decorators. */
  datatype Property = Property(name: string, optional: bool, checks: seq<Check>)

  /** The e-mail grammar belongs to the validator library; it is a parameter. */
  type EmailFormat = string -> bool

  predicate Satisfies(c: Constraint, v: Value, isEmail: EmailFormat) {
    match c
    case IsNotEmpty => v != Str("") && !Nullish(v)
    case IsString => v.Str?
    case MinLength(n) => v.Str? && TextLength(v.s) >= n
    case MaxLength(n) => v.Str? && TextLength(v.s) <= n
    case IsBoolean => v.Bool?
    case IsEmail => v.Str? && isEmail(v.s)
    case IsIn(allowed) => v.Str? && v.s in allowed
  }

  /** Value shapes in which the DTOs' acceptance conditions are stated. */
  predicate NonEmptyString(v: Value) {
    v.Str? && v.s != ""
  }

  predicate StringOrNullish(v: Value) {
    v.Str? || Nullish(v)
  }

  /** `@IsOptional()` on a `null` or `undefined` value turns the other checks off. */
  predicate Skipped(p: Property, body: JsObject) {
    p.optional && Nullish(Field(body, p.name))
  }

  /** The property passes: skipped, or every one of its checks holds. */
  predicate PropertyOk(p: Property, body: JsObject, isEmail: EmailFormat) {
    Skipped(p, body)
    || forall j :: 0 <= j < |p.checks| ==> Satisfies(p.checks[j].constraint, Field(body, p.name), isEmail)
  }

  /** A property with a single check passes when skipped or when it holds. */
  lemma OneCheck(p: Property, body: JsObject, isEmail: EmailFormat)
    requires |p.checks| == 1
    ensures PropertyOk(p, body, isEmail) <==>
              Skipped(p, body) || Satisfies(p.checks[0].constraint, Field(body, p.name), isEmail)
  {
  }

  /** A property with two checks passes when skipped or when both hold. */
  lemma TwoChecks(p: Property, body: JsObject, isEmail: EmailFormat)
    requires |p.checks| == 2
    ensures PropertyOk(p, body, isEmail) <==>
              || Skipped(p, body)
              || (&& Satisfies(p.checks[0].constraint, Field(body, p.name), isEmail)
                  && Satisfies(p.checks[1].constraint, Field(body, p.name), isEmail))
  {
    var v := Field(body, p.name);
    if Satisfies(p.checks[0].constraint, v, isEmail) && Satisfies(p.checks[1].constraint, v, isEmail) {
      forall j | 0 <= j < |p.checks|
        ensures Satisfies(p.checks[j].constraint, v, isEmail)
      {
        assert j == 0 || j == 1;
      }
    }
  }

  /** The check `j` of `p` fires on this body. */
  predicate Fails(p: Property, j: int, body: JsObject, isEmail: EmailFormat) {
    && 0 <= j < |p.checks|
    && !Skipped(p, body)
    && !Satisfies(p.checks[j].constraint, Field(body, p.name), isEmail)
  }

  function PropertyErrors(p: Property, body: JsObject, isEmail: EmailFormat): (r: set<string>)
    ensures r == {} <==> PropertyOk(p, body, isEmail)
    ensures forall j :: Fails(p, j, body, isEmail) ==> p.checks[j].message in r
    ensures forall m :: m in r ==> exists j :: Fails(p, j, body, isEmail) && p.checks[j].message == m
  {
    if Skipped(p, body) then {}
    else
      var r := set j | 0 <= j < |p.checks| && Fails(p, j, body, isEmail) :: p.checks[j].message;
      assert forall j :: Fails(p, j, body, isEmail) ==> p.checks[j].message in r;
      r
  }

  function Declared(props: seq<Property>): set<string> {
    set i | 0 <= i < |props| :: props[i].name
  }

  /** The whitelist's message for a property the class does not declare. */
  function UnknownPropertyMessage(k: string): string {
    "property " + k + " should not exist"
  }

  function UnknownPropertyErrors(props: seq<Property>, body: JsObject): (r: set<string>)
    ensures r == {} <==> body.Keys <= Declared(props)
    ensures forall k :: k in body && k !in Declared(props) ==> UnknownPropertyMessage(k) in r
  {
    var r := set k | k in body && k !in Declared(props) :: UnknownPropertyMessage(k);
    assert forall k :: k in body && k !in Declared(props) ==> UnknownPropertyMessage(k) in r;
    r
  }

  function DeclaredErrors(props: seq<Property>, body: JsObject, isEmail: EmailFormat): (r: set<string>)
    ensures r == {} <==> forall i :: 0 <= i < |props| ==> PropertyOk(props[i], body, isEmail)
    ensures forall i, j :: 0 <= i < |props| && Fails(props[i], j, body, isEmail)
              ==> props[i].checks[j].message in r
    ensures forall m :: m in r ==>
              exists i, j :: && 0 <= i < |props|
                             && Fails(props[i], j, body, isEmail)
                             && props[i].checks[j].message == m
  {
    if |props| == 0 then {}
    else
      var rest := DeclaredErrors(props[1..], body, isEmail);
      assert forall i :: 1 <= i < |props| ==> props[i] == props[1..][i - 1];
      PropertyErrors(props[0], body, isEmail) + rest
  }

  /** Every message the validation pipe reports for this body. */
  function Errors(props: seq<Property>, body: JsObject, isEmail: EmailFormat): (r: set<string>)
    ensures r == {} <==>
              && body.Keys <= Declared(props)
              && forall i :: 0 <= i < |props| ==> PropertyOk(props[i], body, isEmail)
  {
    UnknownPropertyErrors(props, body) + DeclaredErrors(props, body, isEmail)
  }

  /** A message is reported if and only if some declared check fires with
      that message, or it is the whitelist's message for an undeclared
      property of the body. */
  lemma ErrorsExactly(props: seq<Property>, body: JsObject, isEmail: EmailFormat, m: string)
    ensures m in Errors(props, body, isEmail) <==>
              || (exists k :: k in body && k !in Declared(props) && m == UnknownPropertyMessage(k))
              || (exists i, j :: 0 <= i < |props| && Fails(props[i], j, body, isEmail)
                                && props[i].checks[j].message == m)
  {
  }

  /** A check that fires is reported with its message. */
  lemma FailureReported(props: seq<Property>, body: JsObject, isEmail: EmailFormat, i: int, j: int)
    requires 0 <= i < |props| && Fails(props[i], j, body, isEmail)
    ensures props[i].checks[j].message in Errors(props, body, isEmail)
  {
  }

  /** A message is not reported when it is not a whitelist message and no
      check that fires carries it. */
  lemma MessageNotReported(props: seq<Property>, body: JsObject, isEmail: EmailFormat, m: string)
    requires |m| < 9 || m[..9] != "property "
    requires forall i, j :: 0 <= i < |props| && Fails(props[i], j, body, isEmail) ==>
               props[i].checks[j].message != m
    ensures m !in Errors(props, body, isEmail)
  {
    forall k | k in body && k !in Declared(props)
      ensures UnknownPropertyMessage(k) != m
    {
      assert UnknownPropertyMessage(k)[..9] == "property ";
    }
    ErrorsExactly(props, body, isEmail, m);
  }
}
