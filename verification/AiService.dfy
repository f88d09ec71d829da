/**
  The response pipeline of backend/src/services/aiService.ts: choosing a
  vendor from the `AI_PROVIDER` setting, turning stored history into chat
  turns, choosing the system prompt, shaping each vendor's request, reading
  each vendor's reply, and classifying failures into the two errors that are
  rethrown and the fixed apology that is returned instead.

  The environment variables and the vendor's reply are parameters. The reply
  is the vendor's answer to the request `SentRequest` describes; what the
  adapter makes of it (`ProviderOutcome`) does not depend on that request's
  content, so the two are separate functions.
 */
module AiService {
  import opened Outcomes
  import opened Text
  import opened Store
  import opened Selection

  datatype Provider = HuggingFace | Groq | OpenAI | Ollama

  /** The settings the service reads from the process environment. */
  datatype Env = Env(
    aiProvider: Option<string>,
    huggingFaceApiKey: Option<string>,
    groqApiKey: Option<string>,
    openAiApiKey: Option<string>)

  function ProviderName(p: Provider): string
  {
    match p
    case HuggingFace => "huggingface"
    case Groq => "groq"
    case OpenAI => "openai"
    case Ollama => "ollama"
  }

  /**
    `getProvider`: the setting, or `'groq'` when it is unset or empty, is
    lower-cased and matched against the four names; anything else is Groq.
   */
  function GetProvider(setting: Option<string>): (p: Provider)
    ensures p == HuggingFace <==> Truthy(setting) && Lower(setting.value) == "huggingface"
    ensures p == OpenAI <==> Truthy(setting) && Lower(setting.value) == "openai"
    ensures p == Ollama <==> Truthy(setting) && Lower(setting.value) == "ollama"
    ensures p == Groq <==> !Truthy(setting) || Lower(setting.value) !in {"huggingface", "openai", "ollama"}
  {
    var name := Lower(OrElse(setting, "groq"));
    if name == "huggingface" then HuggingFace
    else if name == "groq" then Groq
    else if name == "openai" then OpenAI
    else if name == "ollama" then Ollama
    else Groq
  }

  /** Each vendor is selected by its own name, and by that name in any mix of cases. */
  lemma GetProviderByName(p: Provider, setting: string)
    requires Lower(setting) == ProviderName(p)
    ensures GetProvider(Some(setting)) == p
  {
  }

  /** Selection ignores case: a setting and its lower-case form select the same vendor. */
  lemma GetProviderIgnoresCase(setting: string)
    ensures GetProvider(Some(Lower(setting))) == GetProvider(Some(setting))
  {
    LowerIdempotent(setting);
  }

  datatype Role = SystemRole | UserRole | AssistantRole

  /** One chat turn in the vendor-neutral `{role, content}` shape. */
  datatype Turn = Turn(role: Role, content: string)

  /** Stored rows as turns: sender `'user'` is the user, every other sender the assistant. */
  function HistoryTurns(history: seq<Message>): (r: seq<Turn>)
    ensures |r| == |history|
    ensures forall i :: 0 <= i < |r| ==>
      && r[i].content == history[i].text
      && (r[i].role == UserRole <==> history[i].sender == UserSender)
      && (r[i].role == AssistantRole <==> history[i].sender != UserSender)
  {
    seq(|history|, i requires 0 <= i < |history| =>
      Turn(if history[i].sender == UserSender then UserRole else AssistantRole, history[i].text))
  }

  /** The turns handed to the vendor: the history, then the new utterance as a user turn. */
  function ProviderInput(history: seq<Message>, utterance: string): (r: seq<Turn>)
    ensures |r| == |history| + 1
    ensures r[..|history|] == HistoryTurns(history)
    ensures r[|history|] == Turn(UserRole, utterance)
  {
    HistoryTurns(history) + [Turn(UserRole, utterance)]
  }

  const PromptIntro :=
    "You are an empathetic AI therapist specifically designed for Gen Z users. Your role is to provide supportive, understanding, and helpful responses that feel authentic to Gen Z communication styles."

  const PromptGuidelines :=
    "Key Guidelines:\n"
    + "- Use Gen Z appropriate language, slang, and expressions naturally\n"
    + "- Be empathetic, non-judgmental, and supportive\n"
    + "- Acknowledge their feelings and validate their experiences\n"
    + "- Provide practical, actionable advice when appropriate\n"
    + "- Use emojis sparingly but effectively (\U{1F60A}, \U{1F499}, \U{1FAC2}, etc.)\n"
    + "- Keep responses conversational and relatable\n"
    + "- Avoid clinical or overly formal language\n"
    + "- Be culturally aware of Gen Z experiences (social media pressure, climate anxiety, economic stress, etc.)\n"
    + "- Encourage healthy coping mechanisms\n"
    + "- Know when to suggest professional help for serious issues"

  const PromptStyle :=
    "Response Style:\n"
    + "- Conversational and warm\n"
    + "- Use \"I hear you\" and \"that sounds really tough\"\n"
    + "- Ask follow-up questions to understand better\n"
    + "- Share relatable insights without making it about you\n"
    + "- Keep responses between 2-4 sentences typically\n"
    + "- Use contractions and casual language"

  const PromptReminder :=
    "Remember: You're not a replacement for professional therapy, but you can provide valuable support, validation, and coping strategies."

  /** `SYSTEM_PROMPT`: four sections separated by blank lines. */
  const BasePrompt := PromptIntro + "\n\n" + PromptGuidelines + "\n\n" + PromptStyle + "\n\n" + PromptReminder

  function NameNotice(name: string): string
  {
    "IMPORTANT: The user's name is " + name
    + ". Use their name naturally in conversation to create a more personal connection, but don't overuse it."
  }

  function NameGuideline(name: string): string
  {
    "- Use " + name + "'s name occasionally to create connection, but not in every response"
  }

  /**
    The personalised template: the base prompt with a name notice after the
    introduction and one more guideline about the name.
   */
  function PersonalPrompt(name: string): string
  {
    PromptIntro + "\n\n" + NameNotice(name) + "\n\n" + PromptGuidelines + "\n" + NameGuideline(name)
    + "\n\n" + PromptStyle + "\n\n" + PromptReminder
  }

  /**
    The system prompt: `SYSTEM_PROMPT` when no user name is given (absent or
    empty); otherwise the personalised template, which names the user.
   */
  function SystemPrompt(userName: Option<string>): (r: string)
    ensures !Truthy(userName) ==> r == BasePrompt
    ensures Truthy(userName) ==> r == PersonalPrompt(userName.value)
    ensures Truthy(userName) ==> Contains(r, userName.value)
  {
    if Truthy(userName) then
      var name := userName.value;
      PersonalPromptNamesUser(name);
      PersonalPrompt(name)
    else
      BasePrompt
  }

  lemma PersonalPromptNamesUser(name: string)
    ensures Contains(PersonalPrompt(name), name)
  {
    ContainsMiddle("IMPORTANT: The user's name is ", name,
      ". Use their name naturally in conversation to create a more personal connection, but don't overuse it.");
    ContainsSuffix(PromptIntro + "\n\n", NameNotice(name));
    ContainsTransitive(PromptIntro + "\n\n" + NameNotice(name), NameNotice(name), name);
    PersonalPromptKeepsHead(name, name);
  }

  /** Whatever occurs in the prompt up to the name notice occurs in the whole prompt. */
  lemma PersonalPromptKeepsHead(name: string, needle: string)
    requires Contains(PromptIntro + "\n\n" + NameNotice(name), needle)
    ensures Contains(PersonalPrompt(name), needle)
  {
    var s := PromptIntro + "\n\n" + NameNotice(name);
    ContainsExtendRight(s, "\n\n", needle);
    s := s + "\n\n";
    ContainsExtendRight(s, PromptGuidelines, needle);
    s := s + PromptGuidelines;
    PersonalPromptKeepsGuidelinesOn(name, needle);
  }

  /** Whatever occurs in the prompt up to the base guidelines occurs in the whole prompt. */
  lemma PersonalPromptKeepsGuidelinesOn(name: string, needle: string)
    requires Contains(PromptIntro + "\n\n" + NameNotice(name) + "\n\n" + PromptGuidelines, needle)
    ensures Contains(PersonalPrompt(name), needle)
  {
    var s := PromptIntro + "\n\n" + NameNotice(name) + "\n\n" + PromptGuidelines;
    ContainsExtendRight(s, "\n", needle);
    s := s + "\n";
    ContainsExtendRight(s, NameGuideline(name), needle);
    s := s + NameGuideline(name);
    ContainsExtendRight(s, "\n\n", needle);
    s := s + "\n\n";
    PersonalPromptKeepsStyleOn(name, needle);
  }

  /** Whatever occurs in the prompt up to the blank line before the style section occurs in the whole prompt. */
  lemma PersonalPromptKeepsStyleOn(name: string, needle: string)
    requires Contains(PromptIntro + "\n\n" + NameNotice(name) + "\n\n" + PromptGuidelines + "\n" + NameGuideline(name) + "\n\n", needle)
    ensures Contains(PersonalPrompt(name), needle)
  {
    var s := PromptIntro + "\n\n" + NameNotice(name) + "\n\n" + PromptGuidelines + "\n" + NameGuideline(name) + "\n\n";
    ContainsExtendRight(s, PromptStyle, needle);
    s := s + PromptStyle;
    ContainsExtendRight(s, "\n\n", needle);
    s := s + "\n\n";
    ContainsExtendRight(s, PromptReminder, needle);
  }

  /** A personalised prompt opens with the base prompt's introduction and closes with its reminder. */
  lemma PersonalPromptKeepsFrame(name: string)
    ensures StartsWith(PersonalPrompt(name), PromptIntro)
    ensures EndsWith(PersonalPrompt(name), PromptReminder)
  {
    var s := PromptIntro;
    StartsWithConcat(s, "\n\n");
    s := s + "\n\n";
    StartsWithExtend(s, NameNotice(name), PromptIntro);
    s := s + NameNotice(name);
    StartsWithExtend(s, "\n\n", PromptIntro);
    s := s + "\n\n";
    StartsWithExtend(s, PromptGuidelines, PromptIntro);
    s := s + PromptGuidelines;
    StartsWithExtend(s, "\n", PromptIntro);
    s := s + "\n";
    StartsWithExtend(s, NameGuideline(name), PromptIntro);
    s := s + NameGuideline(name);
    StartsWithExtend(s, "\n\n", PromptIntro);
    s := s + "\n\n";
    StartsWithExtend(s, PromptStyle, PromptIntro);
    s := s + PromptStyle;
    StartsWithExtend(s, "\n\n", PromptIntro);
    s := s + "\n\n";
    StartsWithExtend(s, PromptReminder, PromptIntro);
    EndsWithConcat(s, PromptReminder);
  }

  /** A personalised prompt keeps the base prompt's guidelines and response style. */
  lemma PersonalPromptKeepsGuidance(name: string)
    ensures Contains(PersonalPrompt(name), PromptGuidelines)
    ensures Contains(PersonalPrompt(name), PromptStyle)
  {
    ContainsSuffix(PromptIntro + "\n\n" + NameNotice(name) + "\n\n", PromptGuidelines);
    PersonalPromptKeepsGuidelinesOn(name, PromptGuidelines);
    var s := PromptIntro + "\n\n" + NameNotice(name) + "\n\n" + PromptGuidelines + "\n" + NameGuideline(name) + "\n\n";
    ContainsSuffix(s, PromptStyle);
    ContainsExtendRight(s + PromptStyle, "\n\n", PromptStyle);
    ContainsExtendRight(s + PromptStyle + "\n\n", PromptReminder, PromptStyle);
  }

  /** Keywords the error classifier looks for. */
  const ApiKeyWords := "API key"
  const RateLimitWords := "rate limit"
  const AiServiceWords := "AI service"

  const RateLimitMessage := "Rate limit exceeded." + " Please try again in" + " a moment."
  const InvalidKeyMessage := "Invalid " + ApiKeyWords + ". Please check your Groq " + ApiKeyWords + "."
  const NoGroqContentMessage := "No response content from Groq API"
  const KeyNotConfigured := " " + ApiKeyWords + " not configured"
  const HuggingFaceKeyMissing := "Hugging Face" + KeyNotConfigured
  const GroqKeyMissing := "Groq" + KeyNotConfigured
  const OpenAiKeyMissing := "OpenAI" + KeyNotConfigured

  /** The reply the Hugging Face, OpenAI and Ollama adapters substitute for a missing generated text. */
  const BestieDefault := "Hey bestie, I'm here to listen and support you! What's going on in your world? \U{1F499}"

  const EmptyReplyMessage := "No response generated from AI provider"
  const ConfigurationError := AiServiceWords + " configuration error"
  const HighDemandError := AiServiceWords + " temporarily unavailable due to high demand"
  const FallbackReply :=
    "Okay bestie, I'm having a little technical moment right now, but I'm still here for you! Can you tell me more about what's going on? \U{1F499}\U{2728}"

  const HuggingFaceModel := "microsoft/DialoGPT-large"
  const GroqModel := "llama-3.1-8b-instant"
  const OpenAiModel := "gpt-3.5-turbo"
  const OllamaModel := "llama3.2:3b"

  /** The `inputs` object of a Hugging Face request. */
  datatype HfInputs = HfInputs(pastUserInputs: seq<string>, generatedResponses: seq<string>, text: string)

  /** The part of each vendor request that depends on the conversation. */
  datatype VendorRequest =
    | HuggingFaceRequest(model: string, inputs: HfInputs)
    | ChatCompletionRequest(model: string, messages: seq<Turn>)
    | OllamaRequest(model: string, prompt: string)

  /**
    What the vendor's `fetch` produced: a rejected promise with its error
    message, or an HTTP reply with its status, status text, and the body field
    the adapter reads (`generated_text`, `choices[0].message.content` or
    `response`), absent when the body lacks it.
   */
  datatype VendorReply = FetchRejected(message: string) | HttpReply(status: nat, statusText: string, content: Option<string>)

  /** `response.ok`. */
  predicate IsOk(status: nat)
  {
    200 <= status <= 299
  }

  /** Whether a turn has the given role. */
  function RoleIs(role: Role): Turn -> bool
  {
    (t: Turn) => t.role == role
  }

  /** `filter(msg => msg.role === role).map(msg => msg.content)`: the contents of the turns with role `role`, in order. */
  function ContentsWith(turns: seq<Turn>, role: Role): (r: seq<string>)
    ensures var idx := Positions(turns, RoleIs(role));
      && |r| == |idx|
      && forall j :: 0 <= j < |r| ==> r[j] == turns[idx[j]].content
    ensures |r| <= |turns|
  {
    if |turns| == 0 then []
    else
      var last := |turns| - 1;
      var init := turns[..last];
      assert forall i :: 0 <= i < last ==> init[i] == turns[i];
      ContentsWith(init, role) + (if turns[last].role == role then [turns[last].content] else [])
  }

  /** `slice(-n)` for positive `n`: the last `n` elements, or all when there are fewer. */
  function LastN<T>(s: seq<T>, n: nat): (r: seq<T>)
    ensures |r| == if |s| < n then |s| else n
    ensures forall i :: 0 <= i < |r| ==> r[i] == s[|s| - |r| + i]
  {
    if |s| <= n then s else s[|s| - n..]
  }

  /** The Hugging Face adapter's view of a turn: assistant turns stay, every other role is the user. */
  function HfRole(t: Turn): Turn
  {
    Turn(if t.role == AssistantRole then AssistantRole else UserRole, t.content)
  }

  /**
    The Hugging Face inputs: the last three user contents, the last three
    assistant contents, and the content of the last turn (`''` when there is
    none). The system prompt is not sent at all.
   */
  function HuggingFaceInputs(turns: seq<Turn>): (r: HfInputs)
    ensures var users := ContentsWith(seq(|turns|, i requires 0 <= i < |turns| => HfRole(turns[i])), UserRole);
      && |r.pastUserInputs| == (if |users| < 3 then |users| else 3)
      && forall i :: 0 <= i < |r.pastUserInputs| ==> r.pastUserInputs[i] == users[|users| - |r.pastUserInputs| + i]
    ensures var bots := ContentsWith(seq(|turns|, i requires 0 <= i < |turns| => HfRole(turns[i])), AssistantRole);
      && |r.generatedResponses| == (if |bots| < 3 then |bots| else 3)
      && forall i :: 0 <= i < |r.generatedResponses| ==> r.generatedResponses[i] == bots[|bots| - |r.generatedResponses| + i]
    ensures r.text == if |turns| == 0 then "" else turns[|turns| - 1].content
  {
    var conversation := seq(|turns|, i requires 0 <= i < |turns| => HfRole(turns[i]));
    HfInputs(
      LastN(ContentsWith(conversation, UserRole), 3),
      LastN(ContentsWith(conversation, AssistantRole), 3),
      if |conversation| == 0 then "" else conversation[|conversation| - 1].content)
  }

  /** The Groq and OpenAI message list: the system prompt as a system turn, then the turns unchanged. */
  function ChatMessages(systemPrompt: string, turns: seq<Turn>): (r: seq<Turn>)
    ensures |r| == |turns| + 1
    ensures r[0] == Turn(SystemRole, systemPrompt)
    ensures r[1..] == turns
  {
    [Turn(SystemRole, systemPrompt)] + turns
  }

  /** One line of the Ollama transcript. */
  function TranscriptLine(t: Turn): string
  {
    (if t.role == UserRole then "Human" else "Assistant") + ": " + t.content
  }

  /** The transcript lines of the turns, in turn order. */
  function TranscriptLines(turns: seq<Turn>): (lines: seq<string>)
    ensures |lines| == |turns|
    ensures forall i :: 0 <= i < |turns| ==> lines[i] == TranscriptLine(turns[i])
  {
    seq(|turns|, i requires 0 <= i < |turns| => TranscriptLine(turns[i]))
  }

  /** Where the line of turn `i` begins in the Ollama prompt: after the system prompt and the blank line. */
  function LineStart(systemPrompt: string, turns: seq<Turn>, i: nat): nat
    requires i <= |turns|
  {
    |systemPrompt| + 2 + JoinOffset("\n", TranscriptLines(turns), i)
  }

  /**
    The Ollama prompt: the system prompt, a blank line, one `Human:` or
    `Assistant:` line per turn, in turn order and separated by line breaks,
    and a final `Assistant:` cue.
   */
  function OllamaPrompt(systemPrompt: string, turns: seq<Turn>): (r: string)
    ensures StartsWith(r, systemPrompt + "\n\n")
    ensures EndsWith(r, "\nAssistant:")
    ensures forall i :: 0 <= i < |turns| ==> Contains(r, TranscriptLine(turns[i]))
    ensures forall i :: 0 <= i < |turns| ==> OccursAt(r, TranscriptLine(turns[i]), LineStart(systemPrompt, turns, i))
    ensures forall i :: 0 <= i < |turns| - 1 ==>
      && LineStart(systemPrompt, turns, i + 1) == LineStart(systemPrompt, turns, i) + |TranscriptLine(turns[i])| + 1
      && OccursAt(r, "\n", LineStart(systemPrompt, turns, i) + |TranscriptLine(turns[i])|)
    ensures |turns| == 0 ==> r == systemPrompt + "\n\n\nAssistant:"
    // Nothing but the cue follows the last line.
    ensures |turns| > 0 ==>
      |r| == LineStart(systemPrompt, turns, |turns| - 1) + |TranscriptLine(turns[|turns| - 1])| + |"\nAssistant:"|
  {
    var r := systemPrompt + "\n\n" + Join("\n", TranscriptLines(turns)) + "\nAssistant:";
    OllamaPromptFrame(systemPrompt, turns);
    OllamaPromptLines(systemPrompt, turns);
    r
  }

  /** The prompt's head, its cue, and its length: nothing but the cue follows the last line. */
  lemma OllamaPromptFrame(systemPrompt: string, turns: seq<Turn>)
    ensures var r := systemPrompt + "\n\n" + Join("\n", TranscriptLines(turns)) + "\nAssistant:";
      && StartsWith(r, systemPrompt + "\n\n")
      && EndsWith(r, "\nAssistant:")
      && (|turns| == 0 ==> r == systemPrompt + "\n\n\nAssistant:")
      && (|turns| > 0 ==>
            |r| == LineStart(systemPrompt, turns, |turns| - 1) + |TranscriptLine(turns[|turns| - 1])| + |"\nAssistant:"|)
  {
    var lines := TranscriptLines(turns);
    var body := Join("\n", lines);
    JoinLength("\n", lines);
    StartsWithExtend(systemPrompt + "\n\n", body, systemPrompt + "\n\n");
    StartsWithExtend(systemPrompt + "\n\n" + body, "\nAssistant:", systemPrompt + "\n\n");
    EndsWithConcat(systemPrompt + "\n\n" + body, "\nAssistant:");
  }

  /** Each transcript line at its place, with a line break between consecutive lines. */
  lemma OllamaPromptLines(systemPrompt: string, turns: seq<Turn>)
    ensures var r := systemPrompt + "\n\n" + Join("\n", TranscriptLines(turns)) + "\nAssistant:";
      && (forall i :: 0 <= i < |turns| ==> OccursAt(r, TranscriptLine(turns[i]), LineStart(systemPrompt, turns, i)))
      && (forall i :: 0 <= i < |turns| ==> Contains(r, TranscriptLine(turns[i])))
      && (forall i :: 0 <= i < |turns| - 1 ==>
            && LineStart(systemPrompt, turns, i + 1) == LineStart(systemPrompt, turns, i) + |TranscriptLine(turns[i])| + 1
            && OccursAt(r, "\n", LineStart(systemPrompt, turns, i) + |TranscriptLine(turns[i])|))
  {
    var lines := TranscriptLines(turns);
    var r := systemPrompt + "\n\n" + Join("\n", lines) + "\nAssistant:";
    forall i | 0 <= i < |turns| ensures OccursAt(r, TranscriptLine(turns[i]), LineStart(systemPrompt, turns, i)) {
      TranscriptLinePlaced(systemPrompt, turns, i);
    }
    forall i | 0 <= i < |turns| ensures Contains(r, TranscriptLine(turns[i])) {
      OccursAtContains(r, TranscriptLine(turns[i]), LineStart(systemPrompt, turns, i));
    }
    forall i | 0 <= i < |turns| - 1
      ensures LineStart(systemPrompt, turns, i + 1) == LineStart(systemPrompt, turns, i) + |TranscriptLine(turns[i])| + 1
      ensures OccursAt(r, "\n", LineStart(systemPrompt, turns, i) + |TranscriptLine(turns[i])|)
    {
      JoinOffsetStep("\n", lines, i);
      TranscriptLinePlaced(systemPrompt, turns, i);
    }
  }

  /** The line of turn `i`, and the line break after it unless it is the last, sit where `LineStart` says. */
  lemma TranscriptLinePlaced(systemPrompt: string, turns: seq<Turn>, i: nat)
    requires i < |turns|
    ensures var r := systemPrompt + "\n\n" + Join("\n", TranscriptLines(turns)) + "\nAssistant:";
      && OccursAt(r, TranscriptLine(turns[i]), LineStart(systemPrompt, turns, i))
      && (i + 1 < |turns| ==> OccursAt(r, "\n", LineStart(systemPrompt, turns, i) + |TranscriptLine(turns[i])|))
  {
    var lines := TranscriptLines(turns);
    var head := systemPrompt + "\n\n";
    var body := Join("\n", lines);
    var o := JoinOffset("\n", lines, i);
    JoinPlacesParts("\n", lines, i);
    OccursAtShift(head, body, lines[i], o);
    OccursAtExtend(head + body, "\nAssistant:", lines[i], |head| + o);
    if i + 1 < |turns| {
      OccursAtShift(head, body, "\n", o + |lines[i]|);
      OccursAtExtend(head + body, "\nAssistant:", "\n", |head| + o + |lines[i]|);
    }
  }

  const GroqErrorPrefix := "Groq API error: "

  /** The message Groq's adapter throws for a status that is not ok. */
  function GroqStatusError(status: nat, statusText: string): (r: string)
    ensures status == 429 ==> r == RateLimitMessage
    ensures status == 401 ==> r == InvalidKeyMessage
    ensures status != 429 && status != 401 ==>
      && StartsWith(r, GroqErrorPrefix + DecimalString(status) + " ")
      && EndsWith(r, statusText)
      && |r| == |GroqErrorPrefix| + |DecimalString(status)| + 1 + |statusText|
  {
    if status == 429 then RateLimitMessage
    else if status == 401 then InvalidKeyMessage
    else
      var head := GroqErrorPrefix + DecimalString(status) + " ";
      StartsWithConcat(head, statusText);
      EndsWithConcat(head, statusText);
      head + statusText
  }

  /** The three kinds of failed Groq status give three different messages. */
  lemma GroqStatusErrorsDistinct(status: nat, statusText: string)
    requires status != 429 && status != 401
    ensures GroqStatusError(status, statusText) != RateLimitMessage
    ensures GroqStatusError(status, statusText) != InvalidKeyMessage
    ensures RateLimitMessage != InvalidKeyMessage
  {
    var r := GroqStatusError(status, statusText);
    StartsWithFirst(r, GroqErrorPrefix + DecimalString(status) + " ");
    assert (GroqErrorPrefix + DecimalString(status) + " ")[0] == 'G';
    RateLimitMessageLacks('I');
    RateLimitMessageLacks('G');
    assert InvalidKeyMessage[0] == 'I';
  }

  /** The status can be read back from the digits that follow the prefix of a Groq error message. */
  lemma GroqStatusErrorNamesStatus(status: nat, statusText: string)
    requires status != 429 && status != 401
    ensures var r := GroqStatusError(status, statusText);
      var digits := DecimalString(status);
      && |GroqErrorPrefix| + |digits| <= |r|
      && r[|GroqErrorPrefix|..|GroqErrorPrefix| + |digits|] == digits
      && DecimalValue(r[|GroqErrorPrefix|..|GroqErrorPrefix| + |digits|]) == status
  {
    var r := GroqStatusError(status, statusText);
    var digits := DecimalString(status);
    var head := GroqErrorPrefix + digits + " ";
    assert r[..|head|] == head;
    assert r[|GroqErrorPrefix|..|GroqErrorPrefix| + |digits|] == head[|GroqErrorPrefix|..|GroqErrorPrefix| + |digits|];
    assert head[|GroqErrorPrefix|..|GroqErrorPrefix| + |digits|] == digits;
    DecimalRoundTrip(status);
  }

  /**
    The key the selected adapter checks before doing anything, with the
    message it throws when the key is falsy; Ollama needs none.
   */
  function RequiredKey(p: Provider, env: Env): Option<(Option<string>, string)>
  {
    match p
    case HuggingFace => Some((env.huggingFaceApiKey, HuggingFaceKeyMissing))
    case Groq => Some((env.groqApiKey, GroqKeyMissing))
    case OpenAI => Some((env.openAiApiKey, OpenAiKeyMissing))
    case Ollama => None
  }

  /** Whether the selected adapter throws for want of a key. */
  predicate KeyMissing(p: Provider, env: Env)
  {
    RequiredKey(p, env).Some? && !Truthy(RequiredKey(p, env).value.0)
  }

  /** The model each vendor is asked for. */
  function ModelName(p: Provider): string
  {
    match p
    case HuggingFace => HuggingFaceModel
    case Groq => GroqModel
    case OpenAI => OpenAiModel
    case Ollama => OllamaModel
  }

  /**
    The request the selected adapter sends: none when its key is missing;
    the sliced inputs without any system prompt for Hugging Face; the system
    turn followed by the turns for Groq and OpenAI; the transcript prompt for
    Ollama.
   */
  function ProviderRequest(p: Provider, env: Env, turns: seq<Turn>, systemPrompt: string): (r: Option<VendorRequest>)
    ensures r.None? <==> KeyMissing(p, env)
    ensures r.Some? ==>
      && r.value.model == ModelName(p)
      && (r.value.HuggingFaceRequest? <==> p == HuggingFace)
      && (r.value.ChatCompletionRequest? <==> p == Groq || p == OpenAI)
      && (r.value.OllamaRequest? <==> p == Ollama)
    ensures r.Some? && r.value.ChatCompletionRequest? ==>
      && |r.value.messages| == |turns| + 1
      && r.value.messages[0] == Turn(SystemRole, systemPrompt)
      && r.value.messages[1..] == turns
    ensures r.Some? && r.value.HuggingFaceRequest? ==> r.value.inputs == HuggingFaceInputs(turns)
    ensures r.Some? && r.value.OllamaRequest? ==> r.value.prompt == OllamaPrompt(systemPrompt, turns)
  {
    if KeyMissing(p, env) then None
    else
      match p
      case HuggingFace => Some(HuggingFaceRequest(ModelName(p), HuggingFaceInputs(turns)))
      case Groq => Some(ChatCompletionRequest(ModelName(p), ChatMessages(systemPrompt, turns)))
      case OpenAI => Some(ChatCompletionRequest(ModelName(p), ChatMessages(systemPrompt, turns)))
      case Ollama => Some(OllamaRequest(ModelName(p), OllamaPrompt(systemPrompt, turns)))
  }

  /**
    How the Groq adapter reads the reply: a rejected fetch rethrows its
    error; status 429, 401 and any other failed status each throw their own
    message; an ok reply without content throws; content is trimmed.
   */
  function GroqOutcome(reply: VendorReply): (r: Result<string, string>)
    ensures reply.FetchRejected? ==> r == Err(reply.message)
    ensures reply.HttpReply? ==>
      && (!IsOk(reply.status) ==> r == Err(GroqStatusError(reply.status, reply.statusText)))
      && (IsOk(reply.status) && !Truthy(reply.content) ==> r == Err(NoGroqContentMessage))
      && (IsOk(reply.status) && Truthy(reply.content) ==> r == Ok(Trim(reply.content.value)))
  {
    match reply
    case FetchRejected(message) => Err(message)
    case HttpReply(status, statusText, content) =>
      if !IsOk(status) then Err(GroqStatusError(status, statusText))
      else if !Truthy(content) then Err(NoGroqContentMessage)
      else Ok(Trim(content.value))
  }

  /**
    How the Hugging Face, OpenAI and Ollama adapters read the reply: a
    rejected fetch rethrows its error; a failed status throws
    `<vendor> API error: <status text>`; a missing or empty content becomes
    the default reply.
   */
  function PlainOutcome(vendor: string, reply: VendorReply): (r: Result<string, string>)
    ensures reply.FetchRejected? ==> r == Err(reply.message)
    ensures reply.HttpReply? && !IsOk(reply.status) ==> r == Err(vendor + " API error: " + reply.statusText)
    ensures reply.HttpReply? && IsOk(reply.status) ==> r == Ok(OrElse(reply.content, BestieDefault)) && r.value != ""
  {
    match reply
    case FetchRejected(message) => Err(message)
    case HttpReply(status, statusText, content) =>
      if !IsOk(status) then Err(vendor + " API error: " + statusText)
      else Ok(OrElse(content, BestieDefault))
  }

  /** The vendor name in the adapters' error messages. */
  function VendorLabel(p: Provider): string
  {
    match p
    case HuggingFace => "Hugging Face"
    case Groq => "Groq"
    case OpenAI => "OpenAI"
    case Ollama => "Ollama"
  }

  /**
    What the selected adapter returns or throws: the missing-key error before
    anything is sent; a rejected fetch's own error; a failed status as the
    vendor's status error; otherwise the reply's text, where only Groq
    insists on content (and trims it) and the others fall back to a default.
   */
  function ProviderOutcome(p: Provider, env: Env, reply: VendorReply): (r: Result<string, string>)
    ensures KeyMissing(p, env) ==> r == Err(RequiredKey(p, env).value.1)
    ensures !KeyMissing(p, env) && reply.FetchRejected? ==> r == Err(reply.message)
    ensures !KeyMissing(p, env) && reply.HttpReply? && !IsOk(reply.status) ==>
      r == Err(if p == Groq then GroqStatusError(reply.status, reply.statusText)
               else VendorLabel(p) + " API error: " + reply.statusText)
    ensures r.Ok? <==>
      !KeyMissing(p, env) && reply.HttpReply? && IsOk(reply.status) && (p == Groq ==> Truthy(reply.content))
    ensures r.Ok? ==>
      r.value == if p == Groq then Trim(reply.content.value) else OrElse(reply.content, BestieDefault)
    ensures p == Groq && !KeyMissing(p, env) && reply.HttpReply? && IsOk(reply.status) && !Truthy(reply.content) ==>
      r == Err(NoGroqContentMessage)
  {
    if KeyMissing(p, env) then Err(RequiredKey(p, env).value.1)
    else if p == Groq then GroqOutcome(reply)
    else PlainOutcome(VendorLabel(p), reply)
  }

  /**
    The catch block of `generateResponse`: a message mentioning `API key` is
    rethrown as the configuration error; otherwise one mentioning the
    lower-case `rate limit` is rethrown as the high-demand error; anything
    else is answered with the fixed apology.
   */
  function Classify(message: string): (r: Result<string, string>)
    ensures r == Err(ConfigurationError) <==> Contains(message, ApiKeyWords)
    ensures r == Err(HighDemandError) <==> !Contains(message, ApiKeyWords) && Contains(message, RateLimitWords)
    ensures r == Ok(FallbackReply) <==> !Contains(message, ApiKeyWords) && !Contains(message, RateLimitWords)
  {
    if Contains(message, ApiKeyWords) then Err(ConfigurationError)
    else if Contains(message, RateLimitWords) then Err(HighDemandError)
    else Ok(FallbackReply)
  }

  /** What `generateResponse` is given about the conversation. */
  datatype ChatContext = ChatContext(sessionId: Id, userMessage: string, userName: Option<string>)

  /** `getMessages(sessionId, 10)`: the window of history the service reads. */
  const HistoryLimit: nat := 10

  /** One run of `generateResponse`, with the intermediate values it computed. */
  datatype Generation = Generation(
    provider: Provider,
    history: seq<Message>,
    turns: seq<Turn>,
    outcome: Result<string, string>,
    result: Result<string, string>)

  /**
    `generateResponse`: reads the first `HistoryLimit` messages of the session
    (oldest first), appends the new utterance, calls the selected vendor, and
    returns its trimmed text; an empty text and every thrown error go through
    `Classify`. What it sends is `SentRequest`.
   */
  function GenerateResponse(env: Env, db: Db, ctx: ChatContext, reply: VendorReply): (g: Generation)
    ensures g.provider == GetProvider(env.aiProvider)
    ensures g.history == GetMessages(db, ctx.sessionId, HistoryLimit, 0)
    ensures g.turns == ProviderInput(g.history, ctx.userMessage)
    ensures g.outcome == ProviderOutcome(g.provider, env, reply)
    ensures g.result.Err? ==> g.result.error == ConfigurationError || g.result.error == HighDemandError
    ensures KeyMissing(g.provider, env) ==> g.result == Err(ConfigurationError)
    ensures g.outcome.Ok? && g.outcome.value != "" ==> g.result == Ok(Trim(g.outcome.value))
    ensures g.outcome.Ok? && g.outcome.value == "" ==> g.result == Ok(FallbackReply)
    ensures g.outcome.Err? ==>
      && (g.result == Err(ConfigurationError) <==> Contains(g.outcome.error, ApiKeyWords))
      && (g.result == Err(HighDemandError) <==>
            !Contains(g.outcome.error, ApiKeyWords) && Contains(g.outcome.error, RateLimitWords))
      && (g.result == Ok(FallbackReply) <==>
            !Contains(g.outcome.error, ApiKeyWords) && !Contains(g.outcome.error, RateLimitWords))
    ensures g.result.Ok? ==>
      g.result.value == FallbackReply || (g.outcome.Ok? && g.result.value == Trim(g.outcome.value))
  {
    var provider := GetProvider(env.aiProvider);
    var history := GetMessages(db, ctx.sessionId, HistoryLimit, 0);
    var turns := ProviderInput(history, ctx.userMessage);
    var outcome := ProviderOutcome(provider, env, reply);
    KeyMissingMessagesAreConfigurationErrors();
    EmptyReplyMessageIsNotClassified();
    var result :=
      match outcome
      case Ok(text) => if text == "" then Classify(EmptyReplyMessage) else Ok(Trim(text))
      case Err(message) => Classify(message);
    Generation(provider, history, turns, outcome, result)
  }

  /** The request `generateResponse` sends: the selected adapter's request for its turns and the system prompt. */
  function SentRequest(env: Env, db: Db, ctx: ChatContext): (r: Option<VendorRequest>)
    ensures var p := GetProvider(env.aiProvider);
      var turns := ProviderInput(GetMessages(db, ctx.sessionId, HistoryLimit, 0), ctx.userMessage);
      && (r.None? <==> KeyMissing(p, env))
      && (r.Some? && r.value.ChatCompletionRequest? ==> r.value.messages == ChatMessages(SystemPrompt(ctx.userName), turns))
      && (r.Some? && r.value.HuggingFaceRequest? ==> r.value.inputs == HuggingFaceInputs(turns))
      && (r.Some? && r.value.OllamaRequest? ==> r.value.prompt == OllamaPrompt(SystemPrompt(ctx.userName), turns))
    ensures var p := GetProvider(env.aiProvider);
      r.Some? ==>
        && r.value.model == ModelName(p)
        && (r.value.HuggingFaceRequest? <==> p == HuggingFace)
        && (r.value.ChatCompletionRequest? <==> p == Groq || p == OpenAI)
        && (r.value.OllamaRequest? <==> p == Ollama)
  {
    var turns := ProviderInput(GetMessages(db, ctx.sessionId, HistoryLimit, 0), ctx.userMessage);
    ProviderRequest(GetProvider(env.aiProvider), env, turns, SystemPrompt(ctx.userName))
  }

  /** With Groq or OpenAI selected and a key configured, a given user name reaches the vendor in the system turn. */
  lemma SentPromptNamesUser(env: Env, db: Db, ctx: ChatContext)
    requires GetProvider(env.aiProvider) == Groq || GetProvider(env.aiProvider) == OpenAI
    requires !KeyMissing(GetProvider(env.aiProvider), env)
    requires Truthy(ctx.userName)
    ensures var r := SentRequest(env, db, ctx);
      r.Some? && r.value.ChatCompletionRequest? && Contains(r.value.messages[0].content, ctx.userName.value)
  {
    var sp := SystemPrompt(ctx.userName);
    var r := SentRequest(env, db, ctx);
    assert r.Some? && r.value.ChatCompletionRequest?;
    assert r.value.messages[0].content == sp;
  }

  /** The Hugging Face request is the same with or without a user name: the system prompt is not sent. */
  lemma HuggingFaceIgnoresUserName(env: Env, db: Db, ctx: ChatContext, other: Option<string>)
    requires GetProvider(env.aiProvider) == HuggingFace
    ensures SentRequest(env, db, ctx) == SentRequest(env, db, ctx.(userName := other))
  {
  }

  lemma ServiceErrorsMentionAiService()
    ensures Contains(ConfigurationError, AiServiceWords)
    ensures Contains(HighDemandError, AiServiceWords)
  {
    ContainsPrefix(AiServiceWords, " configuration error");
    ContainsPrefix(AiServiceWords, " temporarily unavailable due to high demand");
  }

  /** Everything `generateResponse` throws is one of the two service errors, and both mention `AI service`. */
  lemma GenerateResponseThrowsServiceErrors(env: Env, db: Db, ctx: ChatContext, reply: VendorReply)
    ensures var g := GenerateResponse(env, db, ctx, reply);
      g.result.Err? ==>
        && (g.result.error == ConfigurationError || g.result.error == HighDemandError)
        && Contains(g.result.error, AiServiceWords)
  {
    ServiceErrorsMentionAiService();
  }

  /** The message has neither the `I` that starts `Invalid` nor the `G` that starts `Groq`. */
  lemma RateLimitMessageLacks(c: char)
    requires c == 'I' || c == 'G'
    ensures c !in RateLimitMessage
  {
    assert c !in "Rate limit exceeded.";
    assert c !in " Please try again in";
    assert c !in " a moment.";
  }

  /** The message never has an `r` directly followed by an `a`, as `rate limit` does. */
  lemma RateLimitMessageLacksPairRa()
    ensures !HasPair(RateLimitMessage, 'r', 'a')
  {
    var a := "Rate limit exceeded.";
    var b := " Please try again in";
    var c := " a moment.";
    assert !HasPair(a, 'r', 'a');
    assert !HasPair(b, 'r', 'a');
    assert !HasPair(c, 'r', 'a');
    PairAbsentFromConcat(a, b, 'r', 'a');
    PairAbsentFromConcat(a + b, c, 'r', 'a');
  }

  /** Groq's 429 message says `Rate limit` with a capital R, so the lower-case check misses it. */
  lemma RateLimitMessageIsNotClassified()
    ensures Classify(RateLimitMessage) == Ok(FallbackReply)
  {
    RateLimitMessageLacks('I');
    AbsentCharExcludes(RateLimitMessage, ApiKeyWords, 'I');
    RateLimitMessageLacksPairRa();
    AbsentPairExcludes(RateLimitMessage, RateLimitWords, 0);
  }

  /** Groq's 401 message mentions `API key`, so it becomes the configuration error. */
  lemma InvalidKeyMessageIsConfigurationError()
    ensures Classify(InvalidKeyMessage) == Err(ConfigurationError)
  {
    ContainsMiddle("Invalid ", ApiKeyWords, ". Please check your Groq " + ApiKeyWords + ".");
    assert InvalidKeyMessage == "Invalid " + ApiKeyWords + (". Please check your Groq " + ApiKeyWords + ".");
  }

  /** The three missing-key messages mention `API key`. */
  lemma KeyMissingMessagesAreConfigurationErrors()
    ensures Classify(HuggingFaceKeyMissing) == Err(ConfigurationError)
    ensures Classify(GroqKeyMissing) == Err(ConfigurationError)
    ensures Classify(OpenAiKeyMissing) == Err(ConfigurationError)
  {
    ContainsMiddle(" ", ApiKeyWords, " not configured");
    ContainsInContext("Hugging Face", KeyNotConfigured, "", ApiKeyWords);
    assert "Hugging Face" + KeyNotConfigured + "" == HuggingFaceKeyMissing;
    ContainsInContext("Groq", KeyNotConfigured, "", ApiKeyWords);
    assert "Groq" + KeyNotConfigured + "" == GroqKeyMissing;
    ContainsInContext("OpenAI", KeyNotConfigured, "", ApiKeyWords);
    assert "OpenAI" + KeyNotConfigured + "" == OpenAiKeyMissing;
  }

  lemma EmptyReplyMessageIsNotClassified()
    ensures Classify(EmptyReplyMessage) == Ok(FallbackReply)
  {
    assert 'k' !in EmptyReplyMessage && 'l' !in EmptyReplyMessage;
    AbsentCharExcludes(EmptyReplyMessage, ApiKeyWords, 'k');
    AbsentCharExcludes(EmptyReplyMessage, RateLimitWords, 'l');
  }

  lemma NoGroqContentMessageIsNotClassified()
    ensures Classify(NoGroqContentMessage) == Ok(FallbackReply)
  {
    assert 'k' !in NoGroqContentMessage && 'l' !in NoGroqContentMessage;
    AbsentCharExcludes(NoGroqContentMessage, ApiKeyWords, 'k');
    AbsentCharExcludes(NoGroqContentMessage, RateLimitWords, 'l');
  }

  /**
    With Groq selected and a key configured, a 429 reply does not surface as
    the high-demand error: the caller receives the apology as the reply.
   */
  lemma GroqRateLimitYieldsApology(env: Env, db: Db, ctx: ChatContext, statusText: string, content: Option<string>)
    requires GetProvider(env.aiProvider) == Groq && Truthy(env.groqApiKey)
    ensures GenerateResponse(env, db, ctx, HttpReply(429, statusText, content)).result == Ok(FallbackReply)
  {
    RateLimitMessageIsNotClassified();
  }

  /** With Groq selected and a key configured, a 401 reply surfaces as the configuration error. */
  lemma GroqUnauthorizedIsConfigurationError(env: Env, db: Db, ctx: ChatContext, statusText: string, content: Option<string>)
    requires GetProvider(env.aiProvider) == Groq && Truthy(env.groqApiKey)
    ensures GenerateResponse(env, db, ctx, HttpReply(401, statusText, content)).result == Err(ConfigurationError)
  {
    InvalidKeyMessageIsConfigurationError();
  }

  /** Without the selected vendor's key the configuration error is thrown (and, by `SentRequest`, nothing is sent). */
  lemma MissingKeyIsConfigurationError(env: Env, db: Db, ctx: ChatContext, reply: VendorReply)
    requires var p := GetProvider(env.aiProvider);
      || (p == HuggingFace && !Truthy(env.huggingFaceApiKey))
      || (p == Groq && !Truthy(env.groqApiKey))
      || (p == OpenAI && !Truthy(env.openAiApiKey))
    ensures GenerateResponse(env, db, ctx, reply).result == Err(ConfigurationError)
  {
    KeyMissingMessagesAreConfigurationErrors();
  }

  /** The index of a greeting picked by `Math.floor(Math.random() * 5)`. */
  type GreetingIndex = i: nat | i < 5

  /** The greeting picked when no user name is given. */
  function PlainGreeting(pick: GreetingIndex): string
  {
    match pick
    case 0 => "Hey! I'm here to listen and support you. What's on your mind today? \U{1F499}"
    case 1 => "Hi there! I'm your AI therapist, and I'm here to help you work through whatever you're dealing with. How are you feeling?"
    case 2 => "Hey! No judgment here - just a safe space to talk. What's going on in your world right now?"
    case 3 => "Hi! I'm here to support you through whatever you're facing. What would you like to talk about?"
    case _ => "Hey there! I'm your AI companion for mental health support. What's been weighing on you lately?"
  }

  /** The text before the name in the picked personalised greeting. */
  function GreetingOpening(pick: GreetingIndex): string
  {
    match pick
    case 0 => "Hey "
    case 1 => "Hi "
    case 2 => "Hey "
    case 3 => "Hi "
    case _ => "Hey there "
  }

  /** The text after the name in the picked personalised greeting. */
  function GreetingClosing(pick: GreetingIndex): string
  {
    match pick
    case 0 => "! I'm here to listen and support you. What's on your mind today? \U{1F499}"
    case 1 => "! I'm your AI therapist, and I'm here to help you work through whatever you're dealing with. How are you feeling?"
    case 2 => "! No judgment here - just a safe space to talk. What's going on in your world right now?"
    case 3 => "! I'm here to support you through whatever you're facing. What would you like to talk about?"
    case _ => "! I'm your AI companion for mental health support. What's been weighing on you lately?"
  }

  /**
    `generateInitialGreeting`: with a user name (present and non-empty) the
    picked personalised greeting, which names the user; otherwise the picked
    plain greeting.
   */
  function InitialGreeting(userName: Option<string>, pick: GreetingIndex): (r: string)
    ensures Truthy(userName) ==> Contains(r, userName.value) && StartsWith(r, GreetingOpening(pick))
    ensures Truthy(userName) ==>
      && StartsWith(r, GreetingOpening(pick) + userName.value)
      && EndsWith(r, GreetingClosing(pick))
      && |r| == |GreetingOpening(pick)| + |userName.value| + |GreetingClosing(pick)|
    ensures !Truthy(userName) ==> r == PlainGreeting(pick)
  {
    if Truthy(userName) then
      var opening := GreetingOpening(pick);
      ContainsMiddle(opening, userName.value, GreetingClosing(pick));
      StartsWithConcat(opening, userName.value);
      StartsWithExtend(opening + userName.value, GreetingClosing(pick), opening);
      StartsWithConcat(opening + userName.value, GreetingClosing(pick));
      EndsWithConcat(opening + userName.value, GreetingClosing(pick));
      opening + userName.value + GreetingClosing(pick)
    else
      PlainGreeting(pick)
  }

  /** An empty user name counts as no name, for the prompt and for the greeting alike. */
  lemma EmptyNameIsNoName(pick: GreetingIndex)
    ensures SystemPrompt(Some("")) == SystemPrompt(None)
    ensures InitialGreeting(Some(""), pick) == InitialGreeting(None, pick)
  {
  }
}
