/**
 * The scheduled collection endpoint: a bearer-token check, then the NewsAPI
 * collector and the scraping collector one after the other, each inside its
 * own try/catch, and a summary of both.
 */
module CronCollect {
  import opened Options
  import opened Domain

  /** How one collector call ended: with its counter, or by throwing an error with this message. */
  datatype Outcome = Returned(count: nat) | Threw(message: string)

  /** One entry of `results`: the count and the captured error message (`None` is `null`). */
  datatype SourceResult = SourceResult(count: nat, error: Option<string>)

  /** The JSON body of the response. */
  datatype Reply =
    | Unauthorized
    | Summary(success: bool, collected: nat, newsapi: SourceResult, scraping: SourceResult)

  /**
   * The check as written: the header must equal "Bearer " followed by the
   * secret, and the template literal spells an unset secret "undefined".
   * A missing header (`null`) never equals a string.
   */
  predicate AuthorizedAsWritten(header: Option<string>, secret: Option<string>) {
    header == Some("Bearer " + (if secret.Some? then secret.value else "undefined"))
  }

  /** With no secret configured, the literal header "Bearer undefined" passes the check as written. */
  lemma UnsetSecretAdmitsLiteralUndefined()
    ensures AuthorizedAsWritten(Some("Bearer undefined"), None)
  {
    assert "Bearer " + "undefined" == "Bearer undefined";
  }

  /** The intended check: a secret is configured and the header carries exactly that secret. */
  predicate Authorized(header: Option<string>, secret: Option<string>) {
    secret.Some? && header == Some("Bearer " + secret.value)
  }

  /** The intended check rejects every request when no secret is set, and agrees with the written one otherwise. */
  lemma AuthorizedCorrected(header: Option<string>, secret: Option<string>)
    ensures secret.None? ==> !Authorized(header, secret)
    ensures secret.Some? ==> (Authorized(header, secret) <==> AuthorizedAsWritten(header, secret))
    ensures Authorized(header, secret) ==> header.Some? && |header.value| >= 7 && header.value[..7] == "Bearer "
  {
  }

  /** The try/catch around one collector: the count when it returns, count 0 and its message when it throws. */
  function Capture(o: Outcome): (r: SourceResult)
    ensures r.error.None? <==> o.Returned?
    ensures o.Returned? ==> r.count == o.count
    ensures o.Threw? ==> r.count == 0 && r.error == Some(o.message)
  {
    match o
    case Returned(n) => SourceResult(n, None)
    case Threw(m) => SourceResult(0, Some(m))
  }

  /** Both sources failed. */
  predicate AllFailed(newsapi: SourceResult, scraping: SourceResult) {
    newsapi.error.Some? && scraping.error.Some?
  }

  /** The status of the summary: 500 when both sources failed, 200 otherwise. */
  function SummaryStatus(newsapi: SourceResult, scraping: SourceResult): (status: int)
    ensures status == 500 <==> AllFailed(newsapi, scraping)
    ensures status == 200 || status == 500
  {
    if AllFailed(newsapi, scraping) then 500 else 200
  }

  /**
   * `GET`, with the bearer check as written. `newsapi` and `scraping` are how
   * the two collector calls end; `invoked` lists the collectors run, in order.
   * With no secret configured the header "Bearer undefined" runs both.
   */
  method Get(header: Option<string>, secret: Option<string>, newsapi: Outcome, scraping: Outcome)
    returns (status: int, reply: Reply, invoked: seq<Source>)
    ensures !AuthorizedAsWritten(header, secret) ==> status == 401 && reply == Unauthorized && invoked == []
    ensures AuthorizedAsWritten(header, secret) ==>
      && invoked == [NewsApi, Scraping]
      && reply.Summary?
      && reply.newsapi == Capture(newsapi) && reply.scraping == Capture(scraping)
      && reply.collected == reply.newsapi.count + reply.scraping.count
      && reply.success == !AllFailed(reply.newsapi, reply.scraping)
      && status == SummaryStatus(reply.newsapi, reply.scraping)
      && (status, reply) == Respond(newsapi, scraping)
    ensures secret.None? && header == Some("Bearer undefined") ==> invoked == [NewsApi, Scraping]
  {
    UnsetSecretAdmitsLiteralUndefined();
    if header != Some("Bearer " + (if secret.Some? then secret.value else "undefined")) {
      return 401, Unauthorized, [];
    }
    var newsapiResult := SourceResult(0, None);
    var scrapingResult := SourceResult(0, None);
    invoked := [NewsApi];
    match newsapi {
      case Returned(n) => newsapiResult := newsapiResult.(count := n);
      case Threw(m) => newsapiResult := newsapiResult.(error := Some(m));
    }
    invoked := invoked + [Scraping];
    match scraping {
      case Returned(n) => scrapingResult := scrapingResult.(count := n);
      case Threw(m) => scrapingResult := scrapingResult.(error := Some(m));
    }
    var totalCollected := newsapiResult.count + scrapingResult.count;
    var allFailed := newsapiResult.error != None && scrapingResult.error != None;
    reply := Summary(!allFailed, totalCollected, newsapiResult, scrapingResult);
    status := if allFailed then 500 else 200;
  }

  /** The response an authorized request gets. */
  function Respond(newsapi: Outcome, scraping: Outcome): (int, Reply) {
    var n := Capture(newsapi);
    var s := Capture(scraping);
    (SummaryStatus(n, s), Summary(!AllFailed(n, s), n.count + s.count, n, s))
  }

  /**
   * When exactly one collector throws, the run still succeeds with status
   * 200 and `collected` is the other collector's count; the error of the
   * failed one is kept.
   */
  lemma OneFailureStillSucceeds(newsapi: Outcome, scraping: Outcome)
    requires newsapi.Threw? != scraping.Threw?
    ensures Respond(newsapi, scraping).0 == 200
    ensures Respond(newsapi, scraping).1.success
    ensures Respond(newsapi, scraping).1.collected ==
      (if newsapi.Threw? then scraping.count else newsapi.count)
    ensures newsapi.Threw? ==> Respond(newsapi, scraping).1.newsapi.error == Some(newsapi.message)
    ensures scraping.Threw? ==> Respond(newsapi, scraping).1.scraping.error == Some(scraping.message)
  {
  }

  /**
   * Both collectors catch every error of their own and return a count, so
   * as written only `Returned` reaches the endpoint: the answer is then 200
   * with `success` true and no error, even when every request of the run
   * failed and both counts are 0.
   */
  lemma ReturnedAlwaysSucceeds(n: nat, s: nat)
    ensures Respond(Returned(n), Returned(s)) ==
      (200, Summary(true, n + s, SourceResult(n, None), SourceResult(s, None)))
  {
  }

  /** Status 500, `success` false and `collected` 0 exactly when both collectors throw. */
  lemma BothFailed(newsapi: Outcome, scraping: Outcome)
    ensures Respond(newsapi, scraping).0 == 500 <==> newsapi.Threw? && scraping.Threw?
    ensures !Respond(newsapi, scraping).1.success <==> newsapi.Threw? && scraping.Threw?
    ensures newsapi.Threw? && scraping.Threw? ==> Respond(newsapi, scraping).1.collected == 0
  {
  }
}
