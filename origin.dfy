/**
 * The origin gate (src/middleware/origin.js): the service's own client,
 * known by its user agent, always passes; any other caller must send the
 * configured `Origin`.
 */
module Origin {
  import opened Js

  /** The user agent of the service's own client. */
  const ClientUserAgent := "sara_client/2.0"

  datatype Decision = Next | Forbidden

  /**
   * The gate over the request's user agent and `Origin` header (`None` when
   * absent) and the configured `CORS_ORIGIN`.
   */
  function Decide(userAgent: Option<string>, origin: Option<string>, corsOrigin: string): (r: Decision)
    ensures r == Next <==> userAgent == Some(ClientUserAgent) || origin == Some(corsOrigin)
  {
    if userAgent == Some(ClientUserAgent) then Next
    else if origin == Some(corsOrigin) then Next
    else Forbidden
  }

  /** The user-agent check comes first: the client passes whatever `Origin` it sends, or none. */
  lemma ClientIgnoresOrigin(origin: Option<string>, origin': Option<string>, corsOrigin: string)
    ensures Decide(Some(ClientUserAgent), origin, corsOrigin) == Decide(Some(ClientUserAgent), origin', corsOrigin) == Next
  {
  }

  /** For every other caller the decision depends on the `Origin` header alone. */
  lemma OthersJudgedByOrigin(userAgent: Option<string>, userAgent': Option<string>, origin: Option<string>, corsOrigin: string)
    requires userAgent != Some(ClientUserAgent) && userAgent' != Some(ClientUserAgent)
    ensures Decide(userAgent, origin, corsOrigin) == Decide(userAgent', origin, corsOrigin)
  {
  }

  /** A request without an `Origin` header from any other agent is refused. */
  lemma MissingOriginRefused(userAgent: Option<string>, corsOrigin: string)
    requires userAgent != Some(ClientUserAgent)
    ensures Decide(userAgent, None, corsOrigin) == Forbidden
  {
  }
}
