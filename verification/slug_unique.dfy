/**
 * The two slug-uniqueness checks: `isSlugUnique` of the blog service, which looks the slug up
 * directly, and `slugUniqueValidator` of the submit form, which asks the server. Both close
 * over the id of the post being edited (none when a post is created).
 */
module SlugUnique {
  import opened Wrappers

  /** The part of a stored post the checks read. */
  datatype PostRef = PostRef(id: string)

  /** A slug that is nil or empty is never checked. */
  predicate Unset(slug: Option<string>) {
    slug.None? || slug.value == ""
  }

  /**
   * `isSlugUnique(id)(slug)`: unset slugs are unique; otherwise the slug is unique when no
   * post holds it or the post holding it is the one being edited.
   */
  function IsSlugUnique(id: Option<string>, slug: Option<string>, postBySlug: string -> Option<PostRef>): (unique: bool)
    ensures Unset(slug) ==> unique
    ensures !Unset(slug) ==>
      (unique <==> postBySlug(slug.value).None? || Some(postBySlug(slug.value).value.id) == id)
  {
    if slug.None? || |slug.value| == 0 then true
    else
      var post := postBySlug(slug.value);
      if post.None? || Some(post.value.id) == id then true else false
  }

  /** The server's answer to the by-slug request: its status, the post found, the error text. */
  datatype SlugResponse = SlugResponse(ok: bool, post: Option<PostRef>, message: string)

  /**
   * `slugUniqueValidator(id)(slug)`: unset slugs pass without a request; a failed request
   * throws its message; a post found with another id fails; anything else passes.
   */
  function SlugUniqueValidator(id: Option<string>, slug: Option<string>, request: string -> SlugResponse): (r: Result<bool>)
    ensures Unset(slug) ==> r == Ok(true)
    ensures !Unset(slug) && !request(slug.value).ok ==> r == Err(request(slug.value).message)
    ensures !Unset(slug) && request(slug.value).ok ==>
      r.Ok? && (r.value <==> request(slug.value).post.None? || Some(request(slug.value).post.value.id) == id)
  {
    if slug.None? || |slug.value| == 0 then Ok(true)
    else
      var response := request(slug.value);
      if !response.ok then Err(response.message)
      else if response.post.Some? && Some(response.post.value.id) != id then Ok(false)
      else Ok(true)
  }

  /**
   * When the server answers the by-slug request with the post the service would find, the
   * form's validator and the service's check agree on every slug.
   */
  lemma ValidatorAgreesWithService(id: Option<string>, slug: Option<string>,
                                   request: string -> SlugResponse, postBySlug: string -> Option<PostRef>)
    requires !Unset(slug) ==> request(slug.value).ok && request(slug.value).post == postBySlug(slug.value)
    ensures SlugUniqueValidator(id, slug, request) == Ok(IsSlugUnique(id, slug, postBySlug))
  {
  }

  /** A creation (no id) with a slug that some post already holds is refused. */
  lemma TakenSlugRefusedOnCreate(slug: string, postBySlug: string -> Option<PostRef>)
    requires slug != "" && postBySlug(slug).Some?
    ensures !IsSlugUnique(None, Some(slug), postBySlug)
  {
  }
}
