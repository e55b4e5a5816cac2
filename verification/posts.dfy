/** `Post` (app/models.py) and `Post.from_json`, which turns the JSON body
    of an API request into a new, not yet stored post. */
module Posts {
  import opened Base

  /** A row of `posts`. `id` and `authorId` are `None` until the post is
      stored and given an author. The derived `body_html` is left out. */
  datatype Post = Post(id: Option<int>, body: string, authorId: Option<int>)

  /** What `from_json` raises: `ValidationError` for a missing or empty body;
      a body that is not text gets past the check and is rejected when the
      body listener hands it to the markdown converter. */
  datatype PostError = ValidationError(message: string) | BodyNotText

  /** `Post.from_json(json_post)`. */
  function FromJson(json: Payload): (r: Result<Post, PostError>)
    ensures r.Success? <==> exists s :: Get(json, "body") == JStr(s) && s != ""
    ensures r.Success? ==> JStr(r.value.body) == json["body"]
    ensures r.Success? ==> r.value.id.None? && r.value.authorId.None?
    ensures "body" !in json ==> r == Failure(ValidationError("post does not have a body"))
    ensures "body" in json && json["body"] in {JNull, JStr("")}
            ==> r == Failure(ValidationError("post does not have a body"))
  {
    match Get(json, "body")
    case JNull => Failure(ValidationError("post does not have a body"))
    case JStr(s) =>
      if s == "" then Failure(ValidationError("post does not have a body"))
      else Success(Post(None, s, None))
    case _ => Failure(BodyNotText)
  }

  /** The `body` entry of `Post.to_json`. */
  function BodyJson(p: Post): Payload {
    map["body" := JStr(p.body)]
  }

  /** A post with a non-empty body survives the trip through its JSON body:
      same text, and nothing else carried over. */
  lemma FromJsonRoundTrip(p: Post)
    requires p.body != ""
    ensures FromJson(BodyJson(p)) == Success(p.(id := None, authorId := None))
  {
  }

  /** Any whitespace-only text is accepted verbatim: the check is for
      `None` and `''` and nothing else. */
  lemma FromJsonAcceptsBlank(s: string)
    requires |s| > 0 && forall i :: 0 <= i < |s| ==> s[i] in {' ', '\t', '\n', '\r'}
    ensures FromJson(map["body" := JStr(s)]) == Success(Post(None, s, None))
  {
  }
}
