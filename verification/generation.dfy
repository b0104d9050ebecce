/** Answer generation: the fallback generator (chatbot/generation.py and its
    copy in app.py) and the two Gemini wrappers. The Gemini service itself is
    a parameter, a function from the prompt to what the service did; the
    wrappers turn every failure into an answer string instead of an exception. */
module Generation {
  import opened Strings

  const FallbackPrefix := "Simulated answer based on retrieved content:\n\n"
  const FallbackLimit := 1000
  const Ellipsis := "..."

  const ErrorPrefix := "Error generating response: "
  /** Message of the `ImproperlyConfigured` raised by `configure_gemini`. */
  const MissingKeyMessage := "\U{274C} Missing GENAI_API_KEY in settings or environment."
  /** Answer of the Django wrapper when the service gives no text. */
  const NoResponseMessage := "\U{26A0}\U{FE0F} No response generated."
  /** Message of the `AttributeError` of `response.text` on a missing response. */
  const NoneTextMessage := "'NoneType' object has no attribute 'text'"

  /** What the Gemini service did with a prompt: answered with a text, gave
      no response object, or raised an exception with a message. */
  datatype Reply = Replied(text: string) | NoResponse | Raised(message: string)

  type Service = string -> Reply

  /** `generate_answer_fallback(context, query)`: a fixed prefix, at most the
      first 1000 characters of the context, and an ellipsis. */
  function Fallback(context: string, query: string): (r: string)
    ensures StartsWith(r, FallbackPrefix)
    ensures EndsWith(r, Ellipsis)
    ensures |r| == |FallbackPrefix| + Min(FallbackLimit, |context|) + |Ellipsis|
    ensures |context| <= FallbackLimit ==> r[|FallbackPrefix|..|r| - |Ellipsis|] == context
    ensures |context| > FallbackLimit ==> r[|FallbackPrefix|..|r| - |Ellipsis|] == context[..FallbackLimit]
  {
    FallbackPrefix + Slice(context, 0, FallbackLimit) + Ellipsis
  }

  /** The fallback answer does not depend on the query. */
  lemma FallbackIgnoresQuery(context: string, query1: string, query2: string)
    ensures Fallback(context, query1) == Fallback(context, query2)
  {
  }

  const DjangoPromptHead := "\n        You are a helpful assistant that answers questions based on the provided document context.\n\n        Context:\n        "
  const DjangoPromptMiddle := "\n\n        Question: "
  const DjangoPromptTail := "\n        Answer:"

  /** The prompt built by `generate_answer_gemini` in chatbot/generation.py. */
  function DjangoPrompt(context: string, query: string): string
  {
    DjangoPromptHead + context + DjangoPromptMiddle + query + DjangoPromptTail
  }

  const StreamlitPromptHead := "You are a helpful assistant that answers questions based on the provided document context.\n\nContext:\n"
  const StreamlitPromptMiddle := "\n\nQuestion: "
  const StreamlitPromptTail := "\nAnswer:"

  /** The prompt built by `generate_answer_gemini` in app.py. */
  function StreamlitPrompt(context: string, query: string): string
  {
    StreamlitPromptHead + context + StreamlitPromptMiddle + query + StreamlitPromptTail
  }

  /** A configured key: `configure_gemini` raises when it is absent or empty. */
  predicate KeyConfigured(apiKey: Option<string>)
  {
    apiKey.Some? && apiKey.value != ""
  }

  /** `generate_answer_gemini(context, query)` of chatbot/generation.py. A
      missing key and any exception of the service become
      "Error generating response: <message>"; an empty or missing reply
      becomes the no-response notice; otherwise the reply, stripped. */
  function GeminiDjango(context: string, query: string, apiKey: Option<string>, service: Service): (r: string)
    ensures !KeyConfigured(apiKey) ==> r == ErrorPrefix + MissingKeyMessage
    ensures KeyConfigured(apiKey) ==>
              match service(DjangoPrompt(context, query))
              case Raised(m) => r == ErrorPrefix + m
              case NoResponse => r == NoResponseMessage
              case Replied(t) => r == (if t == "" then NoResponseMessage else PyStrip(t))
  {
    if !KeyConfigured(apiKey) then ErrorPrefix + MissingKeyMessage
    else
      match service(DjangoPrompt(context, query))
      case Raised(m) => ErrorPrefix + m
      case NoResponse => NoResponseMessage
      case Replied(t) => if t != "" then PyStrip(t) else NoResponseMessage
  }

  /** `generate_answer_gemini(context, query, api_key)` of app.py, called only
      with a non-empty key. Exceptions, including reading the text of a
      missing response, become "Error generating response: <message>". */
  function GeminiStreamlit(context: string, query: string, service: Service): (r: string)
    ensures service(StreamlitPrompt(context, query)).Replied? ==>
              r == PyStrip(service(StreamlitPrompt(context, query)).text)
    ensures service(StreamlitPrompt(context, query)).Raised? ==>
              r == ErrorPrefix + service(StreamlitPrompt(context, query)).message
    ensures service(StreamlitPrompt(context, query)).NoResponse? ==>
              r == ErrorPrefix + NoneTextMessage
  {
    match service(StreamlitPrompt(context, query))
    case Replied(t) => PyStrip(t)
    case Raised(m) => ErrorPrefix + m
    case NoResponse => ErrorPrefix + NoneTextMessage
  }

  /** The two wrappers, given a configured key and services answering their
      prompts alike, agree on an exception and on a non-empty reply. They part
      on a missing response, which the Django wrapper reports as the
      no-response notice and the Streamlit one as the error of reading `.text`
      of `None`, and on an empty reply, which only the Django wrapper replaces
      by the notice. */
  lemma GeminiWrappersCompared(context: string, query: string, key: string, dj: Service, st: Service)
    requires key != ""
    requires dj(DjangoPrompt(context, query)) == st(StreamlitPrompt(context, query))
    ensures var reply := dj(DjangoPrompt(context, query));
            var d := GeminiDjango(context, query, Some(key), dj);
            var s := GeminiStreamlit(context, query, st);
            && (reply.Raised? ==> d == s && StartsWith(d, ErrorPrefix))
            && (reply.Replied? && reply.text != "" ==> d == s == PyStrip(reply.text))
            && (reply.NoResponse? ==> d == NoResponseMessage && s == ErrorPrefix + NoneTextMessage && d != s)
            && (reply == Replied("") ==> d == NoResponseMessage && s == "")
  {
    var reply := dj(DjangoPrompt(context, query));
    if reply.NoResponse? {
      assert NoResponseMessage[0] != (ErrorPrefix + NoneTextMessage)[0];
    }
  }

  /** The Django wrapper tests the reply for emptiness before stripping it,
      so a reply of whitespace alone is answered with the empty string, not
      with the no-response notice. */
  lemma DjangoBlankReply(context: string, query: string, key: string, service: Service, t: string)
    requires key != ""
    requires service(DjangoPrompt(context, query)) == Replied(t)
    requires t != "" && forall k :: 0 <= k < |t| ==> IsPySpace(t[k])
    ensures GeminiDjango(context, query, Some(key), service) == ""
    ensures GeminiDjango(context, query, Some(key), service) != NoResponseMessage
  {
  }

  /** The prompt carries its context argument right after the "Context:" line
      and its query argument right after "Question: ". */
  lemma DjangoPromptContextSlot(context: string, query: string)
    ensures var p := DjangoPrompt(context, query);
            && StartsWith(p, DjangoPromptHead)
            && p[|DjangoPromptHead|..|DjangoPromptHead| + |context|] == context
            && var q := |DjangoPromptHead| + |context| + |DjangoPromptMiddle|;
               p[q - |DjangoPromptMiddle|..q] == DjangoPromptMiddle && p[q..q + |query|] == query
  {
  }

  /** Exchanging the two arguments changes the prompt whenever they begin
      with different characters. */
  lemma DjangoPromptOrderMatters(context: string, query: string)
    requires |context| > 0 && |query| > 0 && context[0] != query[0]
    ensures DjangoPrompt(context, query) != DjangoPrompt(query, context)
  {
    var n := |DjangoPromptHead|;
    assert DjangoPrompt(context, query)[n] == context[0];
    assert DjangoPrompt(query, context)[n] == query[0];
  }
}
