/** `CreatePostDto`: the body of a post-creation request, after the
    validation pipe's transformation step has rewritten `published`. */
module CreatePostDto {
  import opened Wrappers
  import opened JsValues
  import opened ClassValidator

  const TitleRequired := "Title is required"
  const TitleTooShort := "Title must be at least 5 characters long"
  const TitleTooLong := "Title is too long"
  const ContentTooLong := "Content is too long"
  const PublishedNotBoolean := MustBeBoolean("published")

  const Spec: seq<Property> := [
    Property("title", false, [
      Check(IsNotEmpty, TitleRequired),
      Check(IsString, MustBeString("title")),
      Check(MinLength(5), TitleTooShort),
      Check(MaxLength(150), TitleTooLong)]),
    Property("content", true, [
      Check(IsString, MustBeString("content")),
      Check(MaxLength(5000), ContentTooLong)]),
    Property("published", true, [
      Check(IsBoolean, PublishedNotBoolean)])]

  /** No property of this class is checked for e-mail form. */
  function NoEmailCheck(s: string): bool {
    false
  }

  /** `@Transform(({ value }) => value === 'true' || value === true)`. */
  function PublishedFlag(v: Value): (r: Value)
    ensures r.Bool?
    ensures r.b <==> v == Str("true") || v == Bool(true)
  {
    Bool(v == Str("true") || v == Bool(true))
  }

  /** The transformation runs only on properties the body actually has. */
  function Transform(body: JsObject): (r: JsObject)
    ensures r.Keys == body.Keys
    ensures forall k :: k in body && k != "published" ==> r[k] == body[k]
    ensures "published" in body ==> r["published"] == PublishedFlag(body["published"])
  {
    if "published" in body then body["published" := PublishedFlag(body["published"])] else body
  }

  /** The accepted post: the typed properties of the DTO instance. */
  datatype Post = Post(title: string, content: Option<string>, published: Option<bool>)

  /** The acceptance condition written out directly from the decorators: only
      declared properties; a title of 5 to 150 characters; content absent,
      null, or a string of at most 5000 characters; `published` anything. */
  predicate WellFormed(body: JsObject) {
    && body.Keys <= {"title", "content", "published"}
    && Field(body, "title").Str? && 5 <= TextLength(Field(body, "title").s) <= 150
    && (|| Nullish(Field(body, "content"))
        || (Field(body, "content").Str? && TextLength(Field(body, "content").s) <= 5000))
  }

  function Errors(body: JsObject): set<string> {
    ClassValidator.Errors(Spec, Transform(body), NoEmailCheck)
  }

  lemma DeclaredNames()
    ensures Declared(Spec) == {"title", "content", "published"}
  {
    assert Spec[0].name == "title" && Spec[1].name == "content" && Spec[2].name == "published";
  }

  lemma TitleOk(t: JsObject)
    ensures PropertyOk(Spec[0], t, NoEmailCheck) <==>
              Field(t, "title").Str? && 5 <= TextLength(Field(t, "title").s) <= 150
  {
    var p, v := Spec[0], Field(t, "title");
    if v.Str? && 5 <= TextLength(v.s) <= 150 {
      assert v != Str("");
      forall j | 0 <= j < |p.checks|
        ensures Satisfies(p.checks[j].constraint, v, NoEmailCheck)
      {
      }
    } else {
      assert !Satisfies(p.checks[2].constraint, v, NoEmailCheck)
          || !Satisfies(p.checks[3].constraint, v, NoEmailCheck);
    }
  }

  lemma ContentOk(t: JsObject)
    ensures PropertyOk(Spec[1], t, NoEmailCheck) <==>
              || Nullish(Field(t, "content"))
              || (Field(t, "content").Str? && TextLength(Field(t, "content").s) <= 5000)
  {
    var p, v := Spec[1], Field(t, "content");
    if v.Str? && TextLength(v.s) <= 5000 {
      forall j | 0 <= j < |p.checks|
        ensures Satisfies(p.checks[j].constraint, v, NoEmailCheck)
      {
      }
    } else if !Nullish(v) {
      assert !Satisfies(p.checks[1].constraint, v, NoEmailCheck);
    }
  }

  lemma PublishedOk(body: JsObject)
    ensures PropertyOk(Spec[2], Transform(body), NoEmailCheck)
  {
    var p, v := Spec[2], Field(Transform(body), "published");
    if !Nullish(v) {
      forall j | 0 <= j < |p.checks|
        ensures Satisfies(p.checks[j].constraint, v, NoEmailCheck)
      {
      }
    }
  }

  /** The rule engine run on the transformed body accepts exactly the
      well-formed bodies. */
  lemma ErrorsEmptyIffWellFormed(body: JsObject)
    ensures Errors(body) == {} <==> WellFormed(body)
  {
    DeclaredNames();
    var t := Transform(body);
    assert Field(t, "title") == Field(body, "title");
    assert Field(t, "content") == Field(body, "content");
    TitleOk(t);
    ContentOk(t);
    PublishedOk(body);
  }

  /** The validation pipe: the typed post, or every message that fired. */
  function Validate(body: JsObject): (r: Result<Post, set<string>>)
    ensures r.Success? <==> WellFormed(body)
    ensures r.Failure? ==> r.error != {}
    ensures r.Success? ==>
              && Field(body, "title") == Str(r.value.title)
              && 5 <= TextLength(r.value.title) <= 150
              && (r.value.content.None? ==> Nullish(Field(body, "content")))
              && (r.value.content.Some? ==>
                    && Field(body, "content") == Str(r.value.content.value)
                    && TextLength(r.value.content.value) <= 5000)
              && ("published" !in body ==> r.value.published.None?)
              && ("published" in body ==>
                    r.value.published == Some(body["published"] in {Str("true"), Bool(true)}))
  {
    ErrorsEmptyIffWellFormed(body);
    var errors := Errors(body);
    if errors != {} then Failure(errors)
    else
      var content := Field(body, "content");
      Success(Post(
        Field(body, "title").s,
        if content.Str? then Some(content.s) else None,
        if "published" in body then Some(PublishedFlag(body["published"]).b) else None))
  }

  /** "Title is required" is reported exactly when the title is missing,
      null or the empty string. */
  lemma TitleRequiredReported(body: JsObject)
    ensures TitleRequired in Errors(body) <==> Field(body, "title") in {Undefined, Null, Str("")}
  {
    var t := Transform(body);
    assert Field(t, "title") == Field(body, "title");
    if Field(body, "title") in {Undefined, Null, Str("")} {
      FailureReported(Spec, t, NoEmailCheck, 0, 0);
    } else {
      forall i, j | 0 <= i < |Spec| && Fails(Spec[i], j, t, NoEmailCheck)
        ensures Spec[i].checks[j].message != TitleRequired
      {
        OnlyFirstCheckSaysRequired(i, j);
      }
      assert TitleRequired[..9][0] == 'T';
      MessageNotReported(Spec, t, NoEmailCheck, TitleRequired);
    }
  }

  /** No decorator but the title's `@IsNotEmpty` carries "Title is required". */
  lemma OnlyFirstCheckSaysRequired(i: int, j: int)
    requires 0 <= i < |Spec| && 0 <= j < |Spec[i].checks| && (i, j) != (0, 0)
    ensures Spec[i].checks[j].message != TitleRequired
  {
    // Tell the literal messages apart by one character: the title's other
    // messages differ from "Title is required" at index 6 or 9, and no
    // message of another property starts with 'T'.
    if i == 0 {
      assert Spec[i].checks[j].message[6] != 'i' || Spec[i].checks[j].message[9] != 'r';
    } else {
      assert Spec[i].checks[j].message[0] != 'T';
    }
  }

  /** After the transformation `published` is always a boolean, so it never
      makes a request fail, whatever was sent. */
  lemma PublishedNeverRejected(body: JsObject)
    ensures PublishedNotBoolean !in Errors(body)
  {
    var t := Transform(body);
    forall i, j | 0 <= i < |Spec| && Fails(Spec[i], j, t, NoEmailCheck)
      ensures Spec[i].checks[j].message != PublishedNotBoolean
    {
      // Only `published`'s own check carries a message starting with 'p'.
      assert i != 2;
      assert Spec[i].checks[j].message[0] != 'p';
    }
    // The message is not a whitelist message, whose text starts "property ".
    assert PublishedNotBoolean[..9] != "property " by {
      assert PublishedNotBoolean[..9][1] == 'u';
    }
    MessageNotReported(Spec, t, NoEmailCheck, PublishedNotBoolean);
  }
}
