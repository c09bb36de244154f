# Indian Health Assistant: fallback responder and query handler

This project models the decision logic of the Indian Health Assistant backend (`health_assistant.py`), which answers health questions in Hindi. It covers three parts.

- **The canned fallback responder** of `HealthProcessor`: `get_fallback_response` and `get_hindi_terms`.
  - The query is lower-cased.
  - Six condition keys are tried in a fixed order: diabetes, fever, headache, cold, pressure, heart.
  - A key matches when the English key is a substring of the lower-cased query, or when one of its three Devanagari synonyms is a substring of the query as given.
  - The first matching key supplies its canned Hindi answer, followed by a space and the disclaimer "गंभीर समस्याओं के लिए डॉक्टर से सलाह लें।" ("consult a doctor for serious problems").
  - When no key matches, a fixed default message is returned. It ends with the same disclaimer.
- **The answer-source decision of `generate_ai_response`.** The fallback answers in three cases:
  - the API key is absent or empty;
  - the chat call raises;
  - the reply's content is null or empty.

  Otherwise the reply is returned with its surrounding whitespace removed.
- **The network-free logic of the `/process-health-query` endpoint:**
  - the query is stripped, and rejected when nothing is left;
  - the confidence and sources tier is decided by the health-data lookup alone;
  - the catch-all `except Exception` turns every failure into an HTTP 500, including the 400 raised for an empty query.

The Dafny modules:

- `Wrappers` defines `Option` and `Result`.
- `Text` holds the Python string operations the code relies on:
  - `str.strip()` with Python's exact whitespace set;
  - `str.lower()` restricted to ASCII;
  - the substring operator `in`;
  - `any(...)` over a list of needles.
- `Fallback` models the responder.
- `AiAnswer` models the answer-source decision.
- `Handler` models the endpoint.

The code is pure, so everything is written with datatypes, functions and lemmas.

The external inputs become parameters:

- The OpenAI key is an `Option<string>`.
- The chat-completion call is a `ChatOutcome`: it raised, or it replied with content that may be null.
- The MedlinePlus lookup is a `HealthLookup`: falsy data, truthy data, or an exception that escapes it.
- The clock is a timestamp string.

Confidence values are kept in hundredths: 85 and 60.

## Model

| member | source | states |
|---|---|---|
| Text.Strip | health_assistant.py:211 | The result is a contiguous slice of the input, and only whitespace (Python's `str.isspace` set) was removed on either side. It neither begins nor ends with whitespace. It is empty exactly when the input is all whitespace. |
| Text.StripIdempotent | health_assistant.py:211 | Stripping an already stripped string changes nothing. |
| Text.StripAllSpaceIff | health_assistant.py:211-212 | The stripped query is all whitespace exactly when the raw query is. |
| Text.Lower | health_assistant.py:174 | Lower-casing keeps the length. It maps each ASCII capital to its small letter and leaves every other character unchanged, so no capital remains. |
| Text.LowerIdempotent | health_assistant.py:174 | Lower-casing twice is lower-casing once. |
| Text.ContainsIff | health_assistant.py:187 | The substring test `needle in hay` holds exactly when the needle occurs at some index of `hay`. |
| Text.AnyOccursIff | health_assistant.py:187 | The `any(...)` scan over the synonyms succeeds exactly when some synonym is a substring of the query. |
| Text.ContainsLowerIff | health_assistant.py:174-187 | For a needle without ASCII letters, such as a Devanagari synonym, lower-casing the query does not change whether the needle occurs. |
| Fallback.HindiTerms | health_assistant.py:192-202 | Each of the six condition keys gets exactly three synonyms, any other string gets the empty list, and every synonym is a Devanagari phrase. |
| Fallback.Matches | health_assistant.py:187 | A key matches exactly when the English key occurs in the lower-cased query, or one of its synonyms occurs in the query as given. |
| Fallback.Canned | health_assistant.py:188 | The answer for key `k` is that key's canned text, then a space, then the disclaimer. |
| Fallback.FirstMatch | health_assistant.py:186-188 | The result is the index of a key that the query matches, and every key before it misses. No result means that every key misses. |
| Fallback.FallbackResponse | health_assistant.py:172-190 | Every answer ends with a space and the disclaimer, so it is never empty. |
| Fallback.FallbackFirstMatch | health_assistant.py:186-188 | When key `k` matches and every earlier key misses, the answer is exactly key `k`'s canned text, a space and the disclaimer. |
| Fallback.FallbackDefaultIff | health_assistant.py:186-190 | The default message is returned exactly when no key matches. |
| Fallback.CannedIsNotDefault | health_assistant.py:178-190 | No canned answer equals the default message, so the default reveals that nothing matched. |
| Fallback.FallbackIsCannedOrDefault | health_assistant.py:186-190 | Every answer is one of the six canned answers or the default message. |
| Fallback.FirstMatchAgree | health_assistant.py:186-187 | Two queries that match the same keys have the same first match. |
| Fallback.SameMatchesSameAnswer | health_assistant.py:186-190 | Two queries that match the same keys get the same answer. |
| Fallback.FallbackIgnoresCase | health_assistant.py:174-187 | A query and its lower-cased form get the same answer. English keys are looked up in the lower-cased query, and the synonyms have no case. |
| Fallback.FallbackIgnoresSurroundingSpace | health_assistant.py:186-190 | A query and its stripped form get the same answer. |
| Fallback.AsciiQueryMatches | health_assistant.py:187 | A lower-case ASCII query matches a key exactly when it contains the English key. The Devanagari synonyms can never occur in it. |
| Fallback.HeartburnGetsHeartAnswer | health_assistant.py:183-188 | "heartburn" gets the heart answer. Matching is by substring, not by word. |
| Fallback.FeverBeatsHeart | health_assistant.py:177-188 | "fever and heart" gets the fever answer, because fever is tried before heart. |
| Fallback.HindiFeverQuery | health_assistant.py:186-196 | "मुझे बुखार है" ("I have a fever") gets the fever answer through the synonym बुखार. |
| Fallback.PressureLongSynonymRedundant | health_assistant.py:199 | The third pressure synonym contains the first, so it never decides a match by itself. |
| AiAnswer.GenerateAiResponse | health_assistant.py:127-170 | The fallback is returned when there is no key, when the call raises, or when the content is null or empty. Otherwise the result is the content with surrounding whitespace removed. The result is always a string, never an error. |
| AiAnswer.WithoutReplyEndsWithDisclaimer | health_assistant.py:129-170 | When the reply is not used, the answer ends with the disclaimer and is longer than it. |
| AiAnswer.EmptyAnswerIff | health_assistant.py:166 | The answer is empty exactly when a key is configured and the reply is non-empty but all whitespace. |
| AiAnswer.TightReplyVerbatim | health_assistant.py:166 | A non-empty reply without surrounding whitespace is returned unchanged. |
| AiAnswer.ReplyIgnoresQuery | health_assistant.py:165-166 | For the same reply, the answer does not depend on the query. The query still shapes the reply itself through the prompt at line 149. |
| AiAnswer.NoKeyIgnoresChat | health_assistant.py:130-131 | Without a configured key, the chat outcome plays no part in the answer. |
| Handler.HandleQuery | health_assistant.py:210-236 | Inside the `try`, an all-whitespace query raises the 400 "Query cannot be empty". A lookup that raises gives a generic exception. Otherwise there is a response carrying the given timestamp. |
| Handler.ProcessHealthQuery | health_assistant.py:208-243 | Every failure is answered with 500 "Internal server error while processing health query". A failure happens exactly when the query is all whitespace or the lookup raises. |
| Handler.ProcessHealthQueryIntended | health_assistant.py:210-213 | Corrected handler: an all-whitespace query gets the 400 "Query cannot be empty", and a lookup that raises gets the 500. |
| Handler.EmptyQueryGets500 | health_assistant.py:210-243 | As written, a query of one space is answered with 500. The corrected handler answers it with 400. |
| Handler.IntendedAgreesOnNonEmpty | health_assistant.py:208-243 | The written and corrected handlers agree on every query that is not all whitespace. |
| Handler.ResponseText | health_assistant.py:211-229 | A successful response carries the answer generated for the stripped query. |
| Handler.FallbackTextOfRawQuery | health_assistant.py:211-229 | When the model's reply is not used, the response text is the fallback answer to the query exactly as sent. |
| Handler.TierFollowsLookup | health_assistant.py:230-231 | Truthy health data gives confidence 0.85 with sources MedlinePlus and OpenAI GPT. Falsy data gives 0.60 with Fallback System. |
| Handler.TierIgnoresQueryAndAnswer | health_assistant.py:230-231 | Two successful requests with the same lookup outcome get the same confidence and sources, whatever their query, key or chat outcome. |
| Handler.ModelAnswerLabelledFallback | health_assistant.py:221-231 | Without health data, a response written by the language model is still labelled Fallback System. |
| Handler.FallbackAnswerLabelledSourced | health_assistant.py:221-231 | With health data but no key, a canned fallback answer is labelled as coming from MedlinePlus and OpenAI GPT. |
| Handler.IgnoresSurroundingSpace | health_assistant.py:211 | A request and its stripped form get the same outcome. |

## Left out

- Text.Lower: only ASCII `A`-`Z` are lower-cased, not Python's full Unicode case mapping. Devanagari has no case. A query with non-ASCII capitals, such as Greek or accented Latin letters, may match differently in the source.
- Speech recognition and text-to-speech (`process_speech_to_text`, `generate_speech`, the `pyttsx3` set-up). These are audio I/O through foreign libraries.
- The MedlinePlus request in `query_health_apis`. It is reduced to its three possible effects on the handler (`HealthLookup`). The JSON it returns is not modelled, and neither is its dependence on the query.
- The OpenAI chat call: the model name, token limit, temperature, system prompt, the user message and the `json.dumps` of the health data. Only the call's outcome (`ChatOutcome`) is modelled. The `health_data` and `language` arguments of `generate_ai_response` only shape the prompt, so they are not parameters of `AiAnswer.GenerateAiResponse`.
- Reading the environment variables. The OpenAI key is a parameter.
- `datetime.now()`. The timestamp is a parameter that is passed through.
- Logging, the FastAPI application, CORS, uvicorn, and the `/health` and `/` endpoints.
- Request validation by pydantic, which happens before the handler runs.
- Floating-point confidence. The two values are kept as hundredths (85 and 60).
- Concurrency and `async` scheduling. Each request is modelled as one evaluation.
- The JavaScript client, the serverless handler and the database helper of the repository are not part of this model.

## Findings

| source | as written | input that shows it | evidently intended | confidence | as-written member | corrected member |
|---|---|---|---|---|---|---|
| health_assistant.py:210-243 | The `HTTPException(400, "Query cannot be empty")` is raised inside the `try`. The `except Exception` catches it and raises a 500 "Internal server error while processing health query" instead. | A request whose query is `" "` (or empty) | The client receives 400 "Query cannot be empty", and only unexpected exceptions become 500. | high, not executed | Handler.ProcessHealthQuery (shown by Handler.EmptyQueryGets500) | Handler.ProcessHealthQueryIntended (with Handler.IntendedAgreesOnNonEmpty) |
