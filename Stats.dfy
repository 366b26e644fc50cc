/** The statistics calls `process_question` makes, as abstract events: the
    request is logged first (without a category), its category is updated
    unless the reply's tag is `'error'`, and the response is logged last.  The
    SQLite store itself is not part of this model. */
module Stats {
  import opened Wrappers
  import opened Engine

  /** Python's truth test on an optional string: `None` and `''` are false. */
  predicate Truthy(v: Option<string>)
  {
    v.Some? && v.value != ""
  }

  datatype StatsEvent =
    | LogRequest(userId: string, username: string, question: string)
    | UpdateCategory(category: string)
    | LogResponse(text: string, category: string)

  /** The calls made for one message.  A logged request always gets a row id,
      which is a positive, hence true, integer. */
  function StatsEvents(userId: Option<string>, username: Option<string>, question: string, reply: Reply)
    : (es: seq<StatsEvent>)
    ensures es == [] <==> !(Truthy(userId) && Truthy(username))
    ensures es != [] ==> |es| == (if TagText(reply.tag) != "error" then 3 else 2)
    ensures es != [] ==>
      && es[0] == LogRequest(userId.value, username.value, question)
      && es[|es| - 1] == LogResponse(reply.text, TagText(reply.tag))
    ensures UpdateCategory(TagText(reply.tag)) in es <==> es != [] && TagText(reply.tag) != "error"
    ensures forall e | e in es && e.UpdateCategory? :: e == UpdateCategory(TagText(reply.tag))
  {
    if Truthy(userId) && Truthy(username) then
      var tag := TagText(reply.tag);
      [LogRequest(userId.value, username.value, question)]
      + (if tag != "error" then [UpdateCategory(tag)] else [])
      + [LogResponse(reply.text, tag)]
    else []
  }

  /** The skip is decided on the tag's text, so a category whose key is the
      string `"error"` is never recorded either. */
  lemma CategoryNamedErrorIsNotRecorded(userId: Option<string>, username: Option<string>, question: string, text: string)
    ensures forall e | e in StatsEvents(userId, username, question, Reply(text, CategoryTag("error"))) ::
              !e.UpdateCategory?
  {
  }
}
