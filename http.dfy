/**
 * What the controllers exchange with Express: request bodies as JSON
 * values, the `{error, message, data}` envelope every response carries,
 * the choice between answering and handing an error to `next`, and the
 * `Authorization: Bearer <token>` header as the controllers read it.
 */
module Http {
  import opened Wrappers
  import opened Strings

  /** A parsed JSON request body; numbers are modelled as integers. */
  datatype Json =
    | JNull
    | JBool(b: bool)
    | JNumber(n: int)
    | JString(s: string)
    | JArray(items: seq<Json>)
    | JObject(fields: map<string, Json>)

  /** The body of every response: `{ error, message, data }`; None is `null`. */
  datatype Envelope<T> = Envelope(error: bool, message: string, data: Option<T>)

  /** `res.status(status).json(body)` */
  datatype Reply<T> = Reply(status: int, body: Envelope<T>)

  /** A handler either answers, or passes `new Error(message)` to `next`. */
  datatype Outcome<T> = Respond(reply: Reply<T>) | Forward(message: string)

  function Failed<T>(status: int, message: string): Outcome<T> {
    Respond(Reply(status, Envelope(true, message, None)))
  }

  function Succeeded<T>(status: int, message: string, data: T): Outcome<T> {
    Respond(Reply(status, Envelope(false, message, Some(data))))
  }

  /** The prefix a handler's catch block puts before the caught error's message. */
  function Context(controller: string, handler: string): string {
    "Error in " + controller + ".controller:" + handler
  }

  /** `next(new Error(`${context} - ${cause}`))` */
  function Caught<T>(context: string, cause: string): Outcome<T> {
    Forward(context + " - " + cause)
  }

  /**
   * The uniform envelope: a 2xx reply has `error: false` and data, any other
   * reply has `error: true` and `data: null`.
   */
  predicate Uniform<T>(o: Outcome<T>) {
    match o
    case Forward(_) => true
    case Respond(Reply(status, body)) =>
      if 200 <= status < 300 then !body.error && body.data.Some?
      else body.error && body.data.None?
  }

  const BearerPrefix := "Bearer "

  lemma BearerSplit(h: string)
    requires BearerPrefix <= h
    ensures |Split(h, " ")| >= 2
    ensures Split(h, " ")[1] == FirstSegment(h[|BearerPrefix|..], " ")
  {
    assert OccursAt(h, " ", 6) by {
      assert h[6..7] == BearerPrefix[6..7];
    }
    forall j | 0 <= j < 6
      ensures !OccursAt(h, " ", j)
    {
      assert h[j] == BearerPrefix[j] && h[j] != ' ';
      assert h[j..j + 1] != " " by {
        assert h[j..j + 1][0] == h[j];
      }
    }
    assert IndexOf(h, " ") == Some(6);
    SplitSegments(h, " ");
  }

  /**
   * The token of an Authorization header: None when the header is missing
   * or does not start with "Bearer " (case-sensitive), otherwise
   * `header.split(" ")[1]`.
   */
  function BearerToken(header: Option<string>): (token: Option<string>)
    ensures token.Some? <==> header.Some? && BearerPrefix <= header.value
    ensures token.Some? ==>
      ' ' !in token.value && BearerPrefix + token.value <= header.value
    ensures token.Some? ==>
      var end := |BearerPrefix| + |token.value|;
      end == |header.value| || header.value[end] == ' '
  {
    match header
    case None => None
    case Some(h) =>
      if BearerPrefix <= h then
        BearerSplit(h);
        FirstSegmentNoSeparator(h[|BearerPrefix|..], ' ');
        Some(Split(h, " ")[1])
      else None
  }

  /** A header made of the prefix and a space-free token yields that token. */
  lemma BearerTokenOf(t: string)
    requires ' ' !in t
    ensures BearerToken(Some(BearerPrefix + t)) == Some(t)
  {
    var h := BearerPrefix + t;
    assert BearerPrefix <= h;
    BearerSplit(h);
    assert h[|BearerPrefix|..] == t;
    forall j | 0 <= j
      ensures !OccursAt(t, " ", j)
    {
      if j < |t| {
        assert t[j] in t;
        assert t[j..j + 1][0] == t[j];
      }
    }
    assert IndexOf(t, " ").None?;
  }

  /** The token may be empty: "Bearer " alone passes the prefix test. */
  lemma EmptyBearerToken()
    ensures BearerToken(Some("Bearer ")) == Some("")
  {
  }
}
