/** The chat endpoint (`app/api/chat/route.ts`): the language of a request
    and the system prompt chosen for it. The prompt texts and the model call
    itself are not part of this model; a prompt is represented by the builder
    that makes it and the arguments it receives. */
module ChatRoute {
  import opened Wrappers

  datatype Message = Message(role: string, content: string)

  datatype Language = En | Zh

  /** A character of the range U+4E00..U+9FA5 that the detector looks for. */
  predicate IsHan(c: char) {
    '\U{4E00}' <= c <= '\U{9FA5}'
  }

  predicate HasHan(s: string) {
    exists i :: 0 <= i < |s| && IsHan(s[i])
  }

  predicate IsUser(m: Message) {
    m.role == "user"
  }

  /** The last message whose role is "user", if there is one. */
  function LastUserMessage(messages: seq<Message>): (r: Option<nat>)
    ensures r.Some? ==> r.value < |messages| && IsUser(messages[r.value])
    ensures r.Some? ==> forall j :: r.value < j < |messages| ==> !IsUser(messages[j])
    ensures r.None? <==> forall j :: 0 <= j < |messages| ==> !IsUser(messages[j])
  {
    if messages == [] then None
    else if IsUser(messages[|messages| - 1]) then Some(|messages| - 1)
    else LastUserMessage(messages[..|messages| - 1])
  }

  /** The language the detector settles on: Chinese exactly when the last
      user message holds a character of the range; English otherwise,
      including when there is no user message at all. */
  function LanguageOf(messages: seq<Message>): (r: Language)
    ensures r == Zh <==>
              exists i :: 0 <= i < |messages| && IsUser(messages[i]) && HasHan(messages[i].content)
                          && forall j :: i < j < |messages| ==> !IsUser(messages[j])
    ensures (forall j :: 0 <= j < |messages| ==> !IsUser(messages[j])) ==> r == En
  {
    match LastUserMessage(messages)
    case None => En
    case Some(i) => if HasHan(messages[i].content) then Zh else En
  }

  /** `detectLanguage`: a backward scan that stops at the first user message
      it meets. */
  method DetectLanguage(messages: seq<Message>) returns (lang: Language)
    ensures lang == LanguageOf(messages)
  {
    var i := |messages|;
    assert messages[..i] == messages;
    while i > 0
      invariant 0 <= i <= |messages|
      invariant LastUserMessage(messages[..i]) == LastUserMessage(messages)
    {
      assert messages[..i][..i - 1] == messages[..i - 1];
      i := i - 1;
      if messages[i].role == "user" {
        if HasHan(messages[i].content) {
          return Zh;
        }
        break;
      }
    }
    return En;
  }

  /** Messages after the last user message do not change the language. */
  lemma {:induction false} LaterRepliesIgnored(messages: seq<Message>, replies: seq<Message>)
    requires forall j :: 0 <= j < |replies| ==> !IsUser(replies[j])
    ensures LanguageOf(messages + replies) == LanguageOf(messages)
    decreases |replies|
  {
    if replies != [] {
      var shorter := replies[..|replies| - 1];
      assert (messages + replies)[..|messages + replies| - 1] == messages + shorter;
      LaterRepliesIgnored(messages, shorter);
      assert LastUserMessage(messages + replies) == LastUserMessage(messages + shorter);
    } else {
      assert messages + replies == messages;
    }
  }

  /** A new user message decides the language alone, whatever came before. */
  lemma NewUserMessageDecides(messages: seq<Message>, m: Message)
    requires IsUser(m)
    ensures LanguageOf(messages + [m]) == (if HasHan(m.content) then Zh else En)
  {
    assert (messages + [m])[|messages|] == m;
  }

  // --------------------------------------------------------- prompt choice

  /** The system prompt of a request: one of the three task builders, given
      the detected language and the request's artifact information, or one
      of the two default conversation prompts. */
  datatype Prompt<Info> =
    | ArtifactInsight(lang: Language, info: Info)
    | QuizGeneration(lang: Language, info: Info)
    | VisitSummary(lang: Language, info: Info)
    | ChineseDefault
    | EnglishDefault

  /** The language a prompt is written in. */
  function PromptLanguage<Info>(p: Prompt<Info>): Language {
    match p
    case ChineseDefault => Zh
    case EnglishDefault => En
    case _ => p.lang
  }

  predicate IsTaskMode(mode: string) {
    mode == "artifact_insight" || mode == "quiz_generation" || mode == "visit_summary"
  }

  /** The `if`/`else` chain of `POST`: the three task modes pick their own
      builder; every other mode falls back to the default prompt of the
      detected language. */
  function SystemPrompt<Info(==)>(mode: string, lang: Language, info: Info): (r: Prompt<Info>)
    ensures PromptLanguage(r) == lang
    ensures IsTaskMode(mode) <==> !(r.ChineseDefault? || r.EnglishDefault?)
    ensures IsTaskMode(mode) ==> r.info == info
    ensures mode == "artifact_insight" <==> r.ArtifactInsight?
    ensures mode == "quiz_generation" <==> r.QuizGeneration?
    ensures mode == "visit_summary" <==> r.VisitSummary?
  {
    if mode == "artifact_insight" then ArtifactInsight(lang, info)
    else if mode == "quiz_generation" then QuizGeneration(lang, info)
    else if mode == "visit_summary" then VisitSummary(lang, info)
    else if lang == Zh then ChineseDefault
    else assert lang == En; EnglishDefault
  }

  /** `POST` up to the model call: the prompt is chosen in the language of
      the last user message. */
  method Post<Info(==)>(messages: seq<Message>, mode: string, info: Info) returns (prompt: Prompt<Info>)
    ensures prompt == SystemPrompt(mode, LanguageOf(messages), info)
    ensures PromptLanguage(prompt) == LanguageOf(messages)
  {
    var lang := DetectLanguage(messages);
    prompt := SystemPrompt(mode, lang, info);
  }
}
