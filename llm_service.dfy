/**
 * Answer generation: the fixed Spanish instruction text with the detected
 * language interpolated, the two-message chat request sent to Cohere, and
 * the extraction of the first content segment of the reply.
 */
module LlmService {
  import opened Errors

  const ModelName := "command-r-plus-08-2024"

  /** `temperature=0.0`: a fixed decoding parameter, passed along and never computed with. */
  const Temperature: real := 0.0

  /** The instruction text up to the language, and from the language on. */
  const Head := "Responde a la siguiente pregunta siguiendo las instrucciones\n"
    + "Instrucciones:\n"
    + "1. Responde en una sola oración.\n"
    + "2. Responde en idioma ("
  const Tail := ")\n"
    + "3. Usa la tercera persona.\n"
    + "4. Incluye 3 emojis que resuman el contenido de la respuesta.\n"
    + "5. Asegúrate de que la respuesta sea consistente para la misma pregunta."

  /** `system_message` for the given language. */
  function SystemMessage(language: string): (r: string) {
    Head + language + Tail
  }

  /** The language a system message was built for, if it was built by SystemMessage. */
  function LanguageOf(system: string): (language: Option<string>)
    ensures language.Some? ==> |system| == |Head| + |language.value| + |Tail|
  {
    if |system| >= |Head| + |Tail| && system[..|Head|] == Head && system[|system| - |Tail|..] == Tail
    then Some(system[|Head|..|system| - |Tail|])
    else None
  }

  /** The language is recovered from the instruction text built for it. */
  lemma LanguageOfSystemMessage(language: string)
    ensures LanguageOf(SystemMessage(language)) == Some(language)
  {
    var s := SystemMessage(language);
    assert s[..|Head|] == Head;
    assert s[|s| - |Tail|..] == Tail;
    assert s[|Head|..|s| - |Tail|] == language;
  }

  /** Only SystemMessage's texts carry a language. */
  lemma SystemMessageOfLanguage(system: string, language: string)
    requires LanguageOf(system) == Some(language)
    ensures system == SystemMessage(language)
  {
    var n := |system|;
    assert system == system[..|Head|] + system[|Head|..n - |Tail|] + system[n - |Tail|..];
  }

  datatype ChatMessage = ChatMessage(role: string, content: string)

  /** The arguments of `co.chat(...)`. */
  datatype ChatRequest = ChatRequest(model: string, messages: seq<ChatMessage>, documents: seq<string>, temperature: real)

  datatype ContentSegment = ContentSegment(text: string)

  /** `response.message`; only its `content` segments are read. */
  datatype ChatResponse = ChatResponse(content: seq<ContentSegment>)

  /** The Cohere chat endpoint: a reply, or the exception the call raised. */
  type ChatService = ChatRequest -> Result<ChatResponse>

  /** The request `get_llm_response(message, context, language)` sends. */
  function BuildRequest(message: string, context: string, language: string): (r: ChatRequest) {
    ChatRequest(
      ModelName,
      [ChatMessage("system", SystemMessage(language)), ChatMessage("user", message)],
      [context],
      Temperature)
  }

  /** The three inputs of a generation call. */
  datatype Prompt = Prompt(message: string, context: string, language: string)

  /**
   * Reads the inputs back from a request of the shape BuildRequest makes:
   * the fixed model and temperature, exactly two messages (the system
   * instruction, then the user's text) and exactly one document.
   */
  function ParseRequest(request: ChatRequest): (prompt: Option<Prompt>)
    ensures prompt.Some? ==>
      && request.model == ModelName && request.temperature == Temperature
      && |request.messages| == 2
      && request.messages[0].role == "system" && request.messages[1].role == "user"
      && request.messages[1].content == prompt.value.message
      && LanguageOf(request.messages[0].content) == Some(prompt.value.language)
      && request.documents == [prompt.value.context]
  {
    if && request.model == ModelName && request.temperature == Temperature
       && |request.messages| == 2 && |request.documents| == 1
       && request.messages[0].role == "system" && request.messages[1].role == "user"
       && LanguageOf(request.messages[0].content).Some?
    then Some(Prompt(request.messages[1].content, request.documents[0], LanguageOf(request.messages[0].content).value))
    else None
  }

  /** BuildRequest and ParseRequest are inverse: a request has that shape exactly when BuildRequest made it. */
  lemma ParseBuildRequest(request: ChatRequest, prompt: Prompt)
    ensures ParseRequest(request) == Some(prompt) <==>
      request == BuildRequest(prompt.message, prompt.context, prompt.language)
  {
    if request == BuildRequest(prompt.message, prompt.context, prompt.language) {
      LanguageOfSystemMessage(prompt.language);
    }
    if ParseRequest(request) == Some(prompt) {
      SystemMessageOfLanguage(request.messages[0].content, prompt.language);
      assert request.messages == [request.messages[0], request.messages[1]];
    }
  }

  /**
   * `get_llm_response(message, context, language)`: one chat call; the text of
   * the first content segment, or the exception, re-raised as it came.
   */
  function GetLlmResponse(message: string, context: string, language: string, chat: ChatService): (r: Result<string>)
    ensures var reply := chat(BuildRequest(message, context, language));
      && (reply.Err? ==> r == Err(reply.error))
      && (reply.Ok? && reply.value.content == [] ==> r == Err(IndexError))
      && (r.Ok? ==> reply.Ok? && reply.value.content != [] && r.value == reply.value.content[0].text)
      && (reply.Ok? && reply.value.content != [] ==> r == Ok(reply.value.content[0].text))
  {
    match chat(BuildRequest(message, context, language))
    case Err(e) => Err(e)
    case Ok(response) =>
      if |response.content| > 0 then Ok(response.content[0].text) else Err(IndexError)
  }
}
