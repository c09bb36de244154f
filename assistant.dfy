/**
 * Where the text of an answer comes from: the decision taken by
 * `HealthProcessor.generate_ai_response` between the language model's
 * reply and the canned fallback responder. The chat-completion call itself
 * is not modelled; its outcome is a parameter.
 */
module AiAnswer {
  import opened Wrappers
  import opened Text
  import opened Fallback

  /**
   * What the chat-completion call did: it raised (a network or API error,
   * or a reply without choices), or it replied with message content, which
   * the API may leave null.
   */
  datatype ChatOutcome = Raised | Replied(content: Option<string>)

  /** The API key read from the environment is truthy: present and not empty. */
  predicate KeyConfigured(key: Option<string>) {
    key.Some? && key.value != ""
  }

  /** The reply's content is truthy: present and not empty. */
  predicate HasContent(chat: ChatOutcome) {
    chat.Replied? && chat.content.Some? && chat.content.value != ""
  }

  /**
   * `generate_ai_response`: without a configured key the model is never
   * asked and the fallback answers; a call that raises, and a reply whose
   * content is null or empty, also get the fallback; any other reply is
   * returned with its surrounding whitespace removed. No outcome escapes
   * as an error: the result is always a string.
   */
  function GenerateAiResponse(query: string, key: Option<string>, chat: ChatOutcome): (r: string)
    ensures !KeyConfigured(key) || !HasContent(chat) ==> r == FallbackResponse(query)
    ensures KeyConfigured(key) && HasContent(chat) ==> Trimmed(chat.content.value, r) && Tight(r)
  {
    if !KeyConfigured(key) then
      FallbackResponse(query)
    else
      match chat
      case Raised => FallbackResponse(query)
      case Replied(content) =>
        if content.Some? && content.value != "" then Strip(content.value) else FallbackResponse(query)
  }

  /** The model's reply is used exactly when a key is configured and the reply has content. */
  predicate UsesReply(key: Option<string>, chat: ChatOutcome) {
    KeyConfigured(key) && HasContent(chat)
  }

  /** Whenever the reply is not used, the answer is a fallback answer and ends with the disclaimer. */
  lemma WithoutReplyEndsWithDisclaimer(query: string, key: Option<string>, chat: ChatOutcome)
    requires !UsesReply(key, chat)
    ensures EndsWithDisclaimer(GenerateAiResponse(query, key, chat))
    ensures |GenerateAiResponse(query, key, chat)| > |Disclaimer|
  {
  }

  /**
   * The answer is empty exactly when the reply is used and consists of
   * whitespace only: such content is truthy, so it is not replaced by the
   * fallback, and stripping leaves nothing.
   */
  lemma EmptyAnswerIff(query: string, key: Option<string>, chat: ChatOutcome)
    ensures GenerateAiResponse(query, key, chat) == []
        <==> UsesReply(key, chat) && AllSpace(chat.content.value)
  {
    if !UsesReply(key, chat) {
      WithoutReplyEndsWithDisclaimer(query, key, chat);
    }
  }

  /** A reply without surrounding whitespace is passed on verbatim. */
  lemma TightReplyVerbatim(query: string, key: Option<string>, reply: string)
    requires KeyConfigured(key) && reply != [] && Tight(reply)
    ensures GenerateAiResponse(query, key, Replied(Some(reply))) == reply
  {
    StripTight(reply);
  }

  /** For the same reply, the answer does not depend on the query. */
  lemma ReplyIgnoresQuery(q1: string, q2: string, key: Option<string>, chat: ChatOutcome)
    requires UsesReply(key, chat)
    ensures GenerateAiResponse(q1, key, chat) == GenerateAiResponse(q2, key, chat)
  {
  }

  /** Without a configured key the call's outcome plays no part in the answer. */
  lemma NoKeyIgnoresChat(query: string, key: Option<string>, c1: ChatOutcome, c2: ChatOutcome)
    requires !KeyConfigured(key)
    ensures GenerateAiResponse(query, key, c1) == GenerateAiResponse(query, key, c2)
  {
  }
}
