/**
 * The shared middleware: the final error handler, which answers 500 with the
 * part of a forwarded message that follows the handler's context; the
 * catch-all 404; and the access-token gate in front of protected routes.
 */
module ErrorController {
  import opened Wrappers
  import opened Strings
  import opened Http

  const Fallback := "Unexpected error"
  const Separator := " - "

  /** `err.message?.split(" - ")[1] || "Unexpected error"`; None is a missing message. */
  function ErrorMessage(message: Option<string>): (m: string)
    ensures m != ""
    ensures message.None? || SecondSegment(message.value, Separator).None? ==> m == Fallback
    ensures message.Some? && SecondSegment(message.value, Separator).Some? ==>
      var seg := SecondSegment(message.value, Separator).value;
      m == if seg == "" then Fallback else seg
  {
    match message
    case None => Fallback
    case Some(s) =>
      SplitSegments(s, Separator);
      var parts := Split(s, Separator);
      if |parts| >= 2 && parts[1] != "" then parts[1] else Fallback
  }

  /** errorHandler: always 500 with `data: null`; the message never comes out empty. */
  function ErrorHandler(message: Option<string>): (r: Reply<()>)
    ensures r.status == 500 && r.body.error && r.body.data.None?
    ensures r.body.message == ErrorMessage(message)
    ensures Uniform(Respond(r))
  {
    Reply(500, Envelope(true, ErrorMessage(message), None))
  }

  /** notFound: the reply for a route no handler matched. */
  function NotFound(): (r: Reply<()>)
    ensures r.status == 404 && r.body.message == "Resource not found"
    ensures Uniform(Respond(r))
  {
    Reply(404, Envelope(true, "Resource not found", None))
  }

  lemma SeparatorAfter(context: string, cause: string)
    requires '-' !in context
    ensures IndexOf(context + Separator + cause, Separator) == Some(|context|)
  {
    var s := context + Separator + cause;
    assert s[|context|..|context| + 3] == Separator;
    assert OccursAt(s, Separator, |context|);
    forall j | 0 <= j < |context|
      ensures !OccursAt(s, Separator, j)
    {
      if j + 1 < |context| {
        assert s[j + 1] == context[j + 1];
        assert context[j + 1] in context;
      } else {
        assert s[j + 1] == ' ';
      }
      assert j + 3 <= |s| ==> s[j..j + 3][1] == s[j + 1];
    }
  }

  /**
   * What the client reads when a handler forwards `context - cause`: the
   * cause up to its own first " - ", or the fallback when that is empty.
   */
  lemma ForwardedCause(context: string, cause: string)
    requires '-' !in context
    ensures ErrorMessage(Some(context + Separator + cause))
      == if FirstSegment(cause, Separator) == "" then Fallback else FirstSegment(cause, Separator)
  {
    var s := context + Separator + cause;
    SeparatorAfter(context, cause);
    assert s[|context| + |Separator|..] == cause;
  }

  /** The handlers' contexts contain no '-', so their causes reach the client. */
  lemma ContextHasNoDash(controller: string, handler: string)
    requires '-' !in controller && '-' !in handler
    ensures '-' !in Context(controller, handler)
  {
  }

  /** A cause without " - " reaches the client whole, when it is not empty. */
  lemma CaughtCauseReachesClient(controller: string, handler: string, cause: string)
    requires '-' !in controller && '-' !in handler
    requires cause != "" && IndexOf(cause, Separator).None?
    ensures Caught<()>(Context(controller, handler), cause).Forward?
    ensures ErrorHandler(Some(Caught<()>(Context(controller, handler), cause).message)).body.message == cause
  {
    ContextHasNoDash(controller, handler);
    ForwardedCause(Context(controller, handler), cause);
  }

  /** One request on its way through `authenticate`: `req.user`, what `res` sent, and the calls to `next`. */
  class Exchange<C> {
    const authorization: Option<string>
    var user: Option<C>
    var response: Option<Reply<()>>
    var nextCalls: nat

    constructor (authorization: Option<string>)
      ensures this.authorization == authorization
      ensures user.None? && response.None? && nextCalls == 0
    {
      this.authorization := authorization;
      user := None;
      response := None;
      nextCalls := 0;
    }
  }

  /**
   * authenticate: 401 "No token provided" without a Bearer header, 401
   * "Invalid token" when `verify` rejects the token, otherwise `req.user`
   * becomes the verified claims and `next` runs once, with no response.
   */
  method Authenticate<C>(ex: Exchange<C>, verify: string -> Option<C>)
    modifies ex
    ensures BearerToken(ex.authorization).None? ==>
      && ex.response == Some(Reply(401, Envelope(true, "No token provided", None)))
      && ex.user == old(ex.user) && ex.nextCalls == old(ex.nextCalls)
    ensures BearerToken(ex.authorization).Some? && verify(BearerToken(ex.authorization).value).None? ==>
      && ex.response == Some(Reply(401, Envelope(true, "Invalid token", None)))
      && ex.user == old(ex.user) && ex.nextCalls == old(ex.nextCalls)
    ensures BearerToken(ex.authorization).Some? && verify(BearerToken(ex.authorization).value).Some? ==>
      && ex.user == verify(BearerToken(ex.authorization).value)
      && ex.nextCalls == old(ex.nextCalls) + 1
      && ex.response == old(ex.response)
  {
    var token := BearerToken(ex.authorization);
    if token.None? {
      ex.response := Some(Reply(401, Envelope(true, "No token provided", None)));
      return;
    }
    var claims := verify(token.value);
    if claims.None? {
      ex.response := Some(Reply(401, Envelope(true, "Invalid token", None)));
      return;
    }
    ex.user := claims;
    ex.nextCalls := ex.nextCalls + 1;
  }
}
