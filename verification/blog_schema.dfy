/**
 * The request schemas of the blog module: `buildPostRequestSchema`, the strict object schema a
 * created or updated post must satisfy, and the `orderBy` field of the pagination query. A
 * request body is a record of field names to values; a schema either accepts it or reports
 * the fields at fault.
 */
module BlogSchema {
  import opened Wrappers
  import opened JsValues
  import SlugUnique

  /** The fields of a post. */
  datatype Field = Title | Content | Summary | Keywords | Description | Slug

  /** The key of a field in the request body. */
  function Name(f: Field): string {
    match f
    case Title => "title"
    case Content => "content"
    case Summary => "summary"
    case Keywords => "keywords"
    case Description => "description"
    case Slug => "slug"
  }

  /** The keys the schema knows. */
  const Fields: set<string> := {"title", "content", "summary", "keywords", "description", "slug"}

  /** What makes a body fail: a field that breaks its rule, or a key the schema does not know. */
  datatype Issue = FieldIssue(field: Field) | UnrecognizedKey(key: string)

  /** The rule of one string field: required or optional, and its length bounds. */
  datatype Rule = Rule(required: bool, minLength: nat, maxLength: Option<nat>)

  /** The rule of each field. */
  function RuleOf(f: Field): Rule {
    match f
    case Title => Rule(true, 1, Some(200))
    case Content => Rule(true, 1, None)
    case Summary => Rule(false, 0, Some(300))
    case Keywords => Rule(false, 0, Some(200))
    case Description => Rule(false, 0, Some(300))
    case Slug => Rule(false, 0, Some(250))
  }

  /** The value of `key`, `undefined` when the key is absent. */
  function Get(body: map<string, Value>, key: string): Value {
    if key in body then body[key] else Undefined
  }

  /** Whether a value meets a rule: a string within the bounds, or `undefined` if optional. */
  predicate Meets(v: Value, rule: Rule) {
    if v.Undefined? then !rule.required
    else v.Str? && rule.minLength <= |v.s| && (rule.maxLength.None? || |v.s| <= rule.maxLength.value)
  }

  /** The slug as the uniqueness refinement receives it. */
  function SlugArgument(body: map<string, Value>): Option<string> {
    var v := Get(body, "slug");
    if v.Str? then Some(v.s) else None
  }

  /** Whether the uniqueness refinement, when there is one, rejects the slug. */
  predicate Refused(body: map<string, Value>, validator: Option<Option<string> -> bool>) {
    validator.Some? && !validator.value(SlugArgument(body))
  }

  /** Whether field `f` of the body breaks its rule or, for the slug, the refinement. */
  predicate Fails(body: map<string, Value>, validator: Option<Option<string> -> bool>, f: Field) {
    !Meets(Get(body, Name(f)), RuleOf(f)) || (f == Slug && Refused(body, validator))
  }

  /**
   * Parsing a body with `buildPostRequestSchema(validator)`: every field is checked against
   * its rule, the slug also against the uniqueness validator when one is given, and every key
   * outside the six fields is unrecognised.
   */
  function ValidatePost(body: map<string, Value>, validator: Option<Option<string> -> bool>): (issues: set<Issue>)
    ensures forall f :: FieldIssue(f) in issues <==> Fails(body, validator, f)
    ensures forall k :: UnrecognizedKey(k) in issues <==> k in body && k !in Fields
  {
    (set f: Field | Fails(body, validator, f) :: FieldIssue(f))
    + (set k | k in body && k !in Fields :: UnrecognizedKey(k))
  }

  /** The rule of each field, spelled out: bounds on string length, required or optional. */
  lemma FieldRules(body: map<string, Value>, validator: Option<Option<string> -> bool>)
    ensures var issues := ValidatePost(body, validator);
      && (FieldIssue(Title) in issues <==>
            !(Get(body, "title").Str? && 1 <= |Get(body, "title").s| <= 200))
      && (FieldIssue(Content) in issues <==>
            !(Get(body, "content").Str? && 1 <= |Get(body, "content").s|))
      && (FieldIssue(Summary) in issues <==>
            !(Get(body, "summary").Undefined? || (Get(body, "summary").Str? && |Get(body, "summary").s| <= 300)))
      && (FieldIssue(Keywords) in issues <==>
            !(Get(body, "keywords").Undefined? || (Get(body, "keywords").Str? && |Get(body, "keywords").s| <= 200)))
      && (FieldIssue(Description) in issues <==>
            !(Get(body, "description").Undefined? || (Get(body, "description").Str? && |Get(body, "description").s| <= 300)))
      && (FieldIssue(Slug) in issues <==>
            || !(Get(body, "slug").Undefined? || (Get(body, "slug").Str? && |Get(body, "slug").s| <= 250))
            || Refused(body, validator))
  {
  }

  /** A body is accepted when it raises no issue. */
  predicate Accepts(body: map<string, Value>, validator: Option<Option<string> -> bool>) {
    ValidatePost(body, validator) == {}
  }

  /**
   * A body is accepted exactly when every field meets its rule, the validator (if any)
   * approves the slug, and no other key is present.
   */
  lemma AcceptsIff(body: map<string, Value>, validator: Option<Option<string> -> bool>)
    ensures Accepts(body, validator) <==>
      && (forall f :: Meets(Get(body, Name(f)), RuleOf(f)))
      && !Refused(body, validator)
      && body.Keys <= Fields
  {
    var issues := ValidatePost(body, validator);
    if Accepts(body, validator) {
      forall k | k in body
        ensures k in Fields
      {
        assert UnrecognizedKey(k) !in issues;
      }
      forall f: Field
        ensures Meets(Get(body, Name(f)), RuleOf(f))
      {
        assert FieldIssue(f) !in issues;
      }
      assert FieldIssue(Slug) !in issues;
    }
    if (forall f :: Meets(Get(body, Name(f)), RuleOf(f))) && !Refused(body, validator) && body.Keys <= Fields {
      assert forall f :: !Fails(body, validator, f);
      assert forall i :: i in issues ==> i.UnrecognizedKey?;
      assert issues == {};
    }
  }

  /** Without a validator the slug is only checked for its length. */
  lemma NoValidatorNoRefinement(body: map<string, Value>, check: Option<string> -> bool)
    requires check(SlugArgument(body))
    ensures ValidatePost(body, None) == ValidatePost(body, Some(check))
  {
  }

  /** Any key besides the six fields makes the body fail, whatever its other fields hold. */
  lemma StrictKeys(body: map<string, Value>, validator: Option<Option<string> -> bool>, k: string)
    requires k in body && k !in Fields
    ensures !Accepts(body, validator)
  {
    assert UnrecognizedKey(k) in ValidatePost(body, validator);
  }

  /** The smallest acceptable post: a one-character title and content, nothing else. */
  lemma MinimalPostAccepted(validator: Option<Option<string> -> bool>)
    requires validator.Some? ==> validator.value(None)
    ensures Accepts(map["title" := Str("t"), "content" := Str("c")], validator)
  {
    var body := map["title" := Str("t"), "content" := Str("c")];
    AcceptsIff(body, validator);
    assert SlugArgument(body) == None;
    forall f: Field
      ensures Meets(Get(body, Name(f)), RuleOf(f))
    {
    }
  }

  /**
   * With the service's uniqueness check as the refinement, a body whose slug another post
   * already holds is refused, and one whose slug nobody else holds passes the refinement.
   */
  lemma TakenSlugRefused(body: map<string, Value>, id: Option<string>,
                         postBySlug: string -> Option<SlugUnique.PostRef>)
    requires Get(body, "slug").Str? && Get(body, "slug").s != ""
    ensures var slug := Get(body, "slug").s;
      var validator := Some((arg: Option<string>) => SlugUnique.IsSlugUnique(id, arg, postBySlug));
      && (postBySlug(slug).Some? && Some(postBySlug(slug).value.id) != id ==> !Accepts(body, validator))
      && (postBySlug(slug).None? || Some(postBySlug(slug).value.id) == id ==> !Refused(body, validator))
  {
    var validator := Some((arg: Option<string>) => SlugUnique.IsSlugUnique(id, arg, postBySlug));
    assert SlugArgument(body) == Some(Get(body, "slug").s);
    assert Refused(body, validator) ==> FieldIssue(Slug) in ValidatePost(body, validator);
  }

  /** The sort orders of the pagination query. */
  datatype Order = Asc | Desc

  /** `z.enum(['asc', 'desc']).optional()`: absent, "asc" or "desc"; anything else fails. */
  function ParseOrderBy(v: Value): (r: Result<Option<Order>>)
    ensures r.Ok? <==> v.Undefined? || v == Str("asc") || v == Str("desc")
    ensures r == Ok(Some(Asc)) <==> v == Str("asc")
    ensures r == Ok(Some(Desc)) <==> v == Str("desc")
  {
    match v
    case Undefined => Ok(None)
    case Str(s) =>
      if s == "asc" then Ok(Some(Asc))
      else if s == "desc" then Ok(Some(Desc))
      else Err("Invalid option: expected one of \"asc\"|\"desc\"")
    case _ => Err("Invalid option: expected one of \"asc\"|\"desc\"")
  }
}
