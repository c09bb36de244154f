/**
 * The network-free decisions of the `/process-health-query` endpoint
 * (`process_health_query`): stripping and validating the query, choosing
 * the confidence and sources tier, and turning exceptions into HTTP errors.
 * The health-information lookup, the language model call and the clock
 * are parameters.
 */
module Handler {
  import opened Wrappers
  import opened Text
  import opened Fallback
  import opened AiAnswer

  /**
   * What `query_health_apis` produced: a falsy JSON value (the empty
   * dictionary it returns on a failed status or a request error among them),
   * a truthy one, or an exception other than a request error, which escapes it.
   */
  datatype HealthLookup = NoData | Data | LookupRaised

  /** The response body. The confidence is kept in hundredths. */
  datatype HealthQueryResponse =
    HealthQueryResponse(response: string, confidence: nat, sources: seq<string>, timestamp: string)

  /** An exception raised inside the handler's `try`. */
  datatype HandlerException = HttpException(status: nat, detail: string) | OtherException

  /** The HTTP error the endpoint answers with. */
  datatype HttpError = HttpError(status: nat, detail: string)

  const EmptyQueryDetail: string := "Query cannot be empty"
  const InternalErrorDetail: string := "Internal server error while processing health query"

  const SourcedConfidence: nat := 85
  const FallbackConfidence: nat := 60
  const SourcedSources: seq<string> := ["MedlinePlus", "OpenAI GPT"]
  const FallbackSources: seq<string> := ["Fallback System"]

  /**
   * The statements inside the handler's `try`: strip the query, reject it
   * if nothing is left, look up health data, generate the answer text and
   * label it with the tier that the lookup alone decides.
   */
  function HandleQuery(rawQuery: string, key: Option<string>, lookup: HealthLookup, chat: ChatOutcome, now: string)
    : (r: Result<HealthQueryResponse, HandlerException>)
    ensures AllSpace(rawQuery) ==> r == Err(HttpException(400, EmptyQueryDetail))
    ensures !AllSpace(rawQuery) && lookup == LookupRaised ==> r == Err(OtherException)
    ensures r.Ok? <==> !AllSpace(rawQuery) && lookup != LookupRaised
    ensures r.Ok? ==> r.value.timestamp == now
  {
    var query := Strip(rawQuery);
    if query == [] then
      Err(HttpException(400, EmptyQueryDetail))
    else if lookup == LookupRaised then
      Err(OtherException)
    else
      var text := GenerateAiResponse(query, key, chat);
      Ok(HealthQueryResponse(
        text,
        if lookup == Data then SourcedConfidence else FallbackConfidence,
        if lookup == Data then SourcedSources else FallbackSources,
        now))
  }

  /**
   * `process_health_query` as written: the catch-all `except Exception`
   * also catches the 400 raised for an empty query, so every failure
   * reaches the client as a 500.
   */
  function ProcessHealthQuery(rawQuery: string, key: Option<string>, lookup: HealthLookup, chat: ChatOutcome, now: string)
    : (r: Result<HealthQueryResponse, HttpError>)
    ensures r.Err? ==> r.error == HttpError(500, InternalErrorDetail)
    ensures r.Err? <==> AllSpace(rawQuery) || lookup == LookupRaised
  {
    match HandleQuery(rawQuery, key, lookup, chat, now)
    case Ok(response) => Ok(response)
    case Err(_) => Err(HttpError(500, InternalErrorDetail))
  }

  /**
   * The handler with the evident intent restored: an `HTTPException`
   * raised inside the `try` is passed on unchanged and only other
   * exceptions become a 500.
   */
  function ProcessHealthQueryIntended(rawQuery: string, key: Option<string>, lookup: HealthLookup, chat: ChatOutcome, now: string)
    : (r: Result<HealthQueryResponse, HttpError>)
    ensures AllSpace(rawQuery) ==> r == Err(HttpError(400, EmptyQueryDetail))
    ensures !AllSpace(rawQuery) && lookup == LookupRaised ==> r == Err(HttpError(500, InternalErrorDetail))
  {
    match HandleQuery(rawQuery, key, lookup, chat, now)
    case Ok(response) => Ok(response)
    case Err(HttpException(status, detail)) => Err(HttpError(status, detail))
    case Err(OtherException) => Err(HttpError(500, InternalErrorDetail))
  }

  /** As written, a query of whitespace only is answered with 500, not with the intended 400. */
  lemma EmptyQueryGets500(key: Option<string>, lookup: HealthLookup, chat: ChatOutcome, now: string)
    ensures ProcessHealthQuery(" ", key, lookup, chat, now) == Err(HttpError(500, InternalErrorDetail))
    ensures ProcessHealthQueryIntended(" ", key, lookup, chat, now) == Err(HttpError(400, EmptyQueryDetail))
  {
    assert AllSpace(" ");
  }

  /** The corrected handler differs from the written one only on empty queries. */
  lemma IntendedAgreesOnNonEmpty(rawQuery: string, key: Option<string>, lookup: HealthLookup, chat: ChatOutcome, now: string)
    requires !AllSpace(rawQuery)
    ensures ProcessHealthQueryIntended(rawQuery, key, lookup, chat, now) == ProcessHealthQuery(rawQuery, key, lookup, chat, now)
  {
  }

  /** A successful response carries the answer generated for the stripped query. */
  lemma ResponseText(rawQuery: string, key: Option<string>, lookup: HealthLookup, chat: ChatOutcome, now: string)
    requires !AllSpace(rawQuery) && lookup != LookupRaised
    ensures var r := ProcessHealthQuery(rawQuery, key, lookup, chat, now);
      r.Ok? && r.value.response == GenerateAiResponse(Strip(rawQuery), key, chat)
  {
  }

  /**
   * When the model's reply is not used, the response is the fallback
   * answer to the query as the client sent it: stripping before the
   * keyword scan changes nothing.
   */
  lemma FallbackTextOfRawQuery(rawQuery: string, key: Option<string>, lookup: HealthLookup, chat: ChatOutcome, now: string)
    requires !AllSpace(rawQuery) && lookup != LookupRaised && !UsesReply(key, chat)
    ensures var r := ProcessHealthQuery(rawQuery, key, lookup, chat, now);
      r.Ok? && r.value.response == FallbackResponse(rawQuery)
  {
    FallbackIgnoresSurroundingSpace(rawQuery);
  }

  /**
   * The tier follows the lookup alone: truthy health data gives 0.85 with
   * MedlinePlus and OpenAI GPT as sources, anything else 0.60 with the
   * fallback system, whoever produced the text.
   */
  lemma TierFollowsLookup(rawQuery: string, key: Option<string>, lookup: HealthLookup, chat: ChatOutcome, now: string)
    requires !AllSpace(rawQuery) && lookup != LookupRaised
    ensures var r := ProcessHealthQuery(rawQuery, key, lookup, chat, now);
      && r.Ok?
      && (r.value.confidence == 85 <==> lookup == Data)
      && (r.value.confidence == 60 <==> lookup == NoData)
      && r.value.sources == (if lookup == Data then ["MedlinePlus", "OpenAI GPT"] else ["Fallback System"])
  {
  }

  /** Two successful requests with the same lookup outcome get the same tier, whatever else differs. */
  lemma TierIgnoresQueryAndAnswer(q1: string, q2: string, k1: Option<string>, k2: Option<string>,
                                  lookup: HealthLookup, c1: ChatOutcome, c2: ChatOutcome, t1: string, t2: string)
    requires !AllSpace(q1) && !AllSpace(q2) && lookup != LookupRaised
    ensures var r1, r2 := ProcessHealthQuery(q1, k1, lookup, c1, t1), ProcessHealthQuery(q2, k2, lookup, c2, t2);
      r1.Ok? && r2.Ok? && r1.value.confidence == r2.value.confidence && r1.value.sources == r2.value.sources
  {
  }

  /**
   * Without health data the response is labelled as coming from the
   * fallback system even when the language model wrote it.
   */
  lemma ModelAnswerLabelledFallback(rawQuery: string, key: Option<string>, chat: ChatOutcome, now: string)
    requires !AllSpace(rawQuery) && UsesReply(key, chat)
    ensures var r := ProcessHealthQuery(rawQuery, key, NoData, chat, now);
      && r.Ok?
      && r.value.sources == ["Fallback System"]
      && Trimmed(chat.content.value, r.value.response)
  {
  }

  /**
   * With health data but no configured key the response names MedlinePlus
   * and OpenAI GPT as sources although the text is a canned fallback answer.
   */
  lemma FallbackAnswerLabelledSourced(rawQuery: string, key: Option<string>, chat: ChatOutcome, now: string)
    requires !AllSpace(rawQuery) && !KeyConfigured(key)
    ensures var r := ProcessHealthQuery(rawQuery, key, Data, chat, now);
      && r.Ok?
      && r.value.sources == ["MedlinePlus", "OpenAI GPT"]
      && EndsWithDisclaimer(r.value.response)
  {
    WithoutReplyEndsWithDisclaimer(Strip(rawQuery), key, chat);
  }

  /** Surrounding whitespace in the request does not change the outcome. */
  lemma IgnoresSurroundingSpace(rawQuery: string, key: Option<string>, lookup: HealthLookup, chat: ChatOutcome, now: string)
    ensures ProcessHealthQuery(Strip(rawQuery), key, lookup, chat, now) == ProcessHealthQuery(rawQuery, key, lookup, chat, now)
  {
    StripIdempotent(rawQuery);
    StripAllSpaceIff(rawQuery);
  }
}
