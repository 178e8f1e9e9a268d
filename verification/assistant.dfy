/** The gaming assistant of assistant.py: the readiness guard, the
    role-tagged message list sent to the completion provider, and the
    translation of provider failures into short apology texts. */
module GamingAssistant {

  import opened Wrappers
  import opened Seqs
  import opened Text

  datatype Role = System | User | Assistant

  datatype Message = Message(role: Role, content: string)

  /** One stored exchange of the chat ledger; `timestamp` is the ISO text
      of the moment it was recorded and `game` the topic tag it was asked under. */
  datatype Turn = Turn(user: string, assistant: string, timestamp: string, game: string)

  /** What the assistant holds after construction: whether the client could
      be built, the credential read from the environment, and the system prompt. */
  datatype Config = Config(ready: bool, apiKey: string, systemPrompt: string)

  /** The provider's answer to one request: the generated content, or the
      text of the exception it raised. */
  datatype ProviderOutcome = Completed(content: string) | Failed(error: string)

  /** The completion provider, seen from here as a function of the messages. */
  type Provider = seq<Message> -> ProviderOutcome

  /** The failure kinds get_response distinguishes. */
  datatype ErrorKind = KeyError | RateLimited | Timeout | Other(detail: string)

  /** The result of get_response: the messages handed to the provider, if
      any were built, and the text returned to the caller. */
  datatype Reply = Reply(sent: Option<seq<Message>>, text: string)

  /** At most this many past exchanges are re-sent with each request. */
  const HistoryLimit: nat := 5

  /** The topic tag that means "no particular game". */
  const General := "general"

  const TopicPrefix := "The user is currently playing or asking about: "

  /** The fixed reply texts. The longer ones are written as headline plus
      advice because the verifier only looks inside string literals shorter
      than 48 characters, and the injectivity proof reads their first letters. */
  const NotConfiguredText := "\U{274C} AI assistant is not configured." + " Please set up your OpenAI API credentials."
  const KeyErrorText := "\U{274C} API key error." + " Please check your OpenAI API configuration."
  const RateLimitText := "\U{23F3} Rate limit reached." + " Please wait a moment and try again."
  const TimeoutText := "\U{23F1}\U{FE0F} Request timeout. Please try again."
  const OtherErrorPrefix := "\U{274C} Error: "

  /** Ready only when the client was built and a key was found: a Python
      string is true exactly when it has at least one character. */
  predicate IsReady(cfg: Config)
    ensures IsReady(cfg) ==> cfg.ready && |cfg.apiKey| > 0
    ensures cfg.ready && |cfg.apiKey| > 0 ==> IsReady(cfg)
  {
    cfg.ready && cfg.apiKey != ""
  }

  /** A topic note is added for a non-empty tag other than "general". */
  predicate HasTopic(game: string)
  {
    game != "" && game != General
  }

  function TopicNote(game: string): string
  {
    TopicPrefix + game
  }

  /** The system messages that precede the history. */
  function Preamble(systemPrompt: string, game: string): seq<Message>
  {
    [Message(System, systemPrompt)]
      + (if HasTopic(game) then [Message(System, TopicNote(game))] else [])
  }

  /** The exchanges re-sent to the provider: the most recent five, oldest first. */
  function RecentHistory(history: seq<Turn>): (r: seq<Turn>)
    ensures |r| == Min(HistoryLimit, |history|)
    ensures IsSuffix(r, history)
  {
    LastN(history, HistoryLimit)
  }

  /** Position `j` of `msgs` holds turn `t` as a user message followed by an assistant message. */
  ghost predicate ExchangeAt(msgs: seq<Message>, j: int, t: Turn)
  {
    && 0 <= j
    && j + 1 < |msgs|
    && msgs[j] == Message(User, t.user)
    && msgs[j + 1] == Message(Assistant, t.assistant)
  }

  /** Each turn becomes a user message followed by an assistant message. */
  function ExchangeMessages(turns: seq<Turn>): (r: seq<Message>)
    ensures |r| == 2 * |turns|
    ensures forall i :: 0 <= i < |turns| ==> ExchangeAt(r, 2 * i, turns[i])
    ensures forall j :: 0 <= j < |r| ==> r[j].role != System
  {
    if turns == [] then
      []
    else
      var head := [Message(User, turns[0].user), Message(Assistant, turns[0].assistant)];
      var rest := ExchangeMessages(turns[1..]);
      assert forall i :: 1 <= i < |turns| ==> turns[i] == turns[1..][i - 1];
      head + rest
  }

  lemma {:induction false} ExchangeMessagesAppend(turns: seq<Turn>, t: Turn)
    ensures ExchangeMessages(turns + [t])
         == ExchangeMessages(turns) + [Message(User, t.user), Message(Assistant, t.assistant)]
    decreases |turns|
  {
    if turns == [] {
      assert [t][1..] == [];
    } else {
      assert (turns + [t])[1..] == turns[1..] + [t];
      ExchangeMessagesAppend(turns[1..], t);
    }
  }

  /** The message list get_response sends: system prompt, optional topic
      note, recent history, and the new user message. */
  function Assemble(systemPrompt: string, game: string, history: seq<Turn>, userMessage: string): (r: seq<Message>)
    ensures |r| == 2 + (if HasTopic(game) then 1 else 0) + 2 * Min(HistoryLimit, |history|)
  {
    Preamble(systemPrompt, game) + ExchangeMessages(RecentHistory(history)) + [Message(User, userMessage)]
  }

  /** What sits at each position of the assembled list. */
  lemma AssembleAt(systemPrompt: string, game: string, history: seq<Turn>, userMessage: string, j: int)
    requires 0 <= j < |Assemble(systemPrompt, game, history, userMessage)|
    ensures var pre := Preamble(systemPrompt, game);
      var ex := ExchangeMessages(RecentHistory(history));
      Assemble(systemPrompt, game, history, userMessage)[j]
        == if j < |pre| then pre[j] else if j < |pre| + |ex| then ex[j - |pre|] else Message(User, userMessage)
  {
    var pre := Preamble(systemPrompt, game);
    var ex := ExchangeMessages(RecentHistory(history));
    assert Assemble(systemPrompt, game, history, userMessage) == (pre + ex) + [Message(User, userMessage)];
  }

  /** The list opens with the system prompt, then the topic note exactly
      when there is a topic, and closes with the new user message. */
  lemma AssembleEnds(systemPrompt: string, game: string, history: seq<Turn>, userMessage: string)
    ensures var r := Assemble(systemPrompt, game, history, userMessage);
      && r[0] == Message(System, systemPrompt)
      && (HasTopic(game) <==> r[1].role == System)
      && (HasTopic(game) ==> r[1] == Message(System, TopicNote(game)))
      && r[|r| - 1] == Message(User, userMessage)
  {
    var r := Assemble(systemPrompt, game, history, userMessage);
    AssembleAt(systemPrompt, game, history, userMessage, 0);
    AssembleAt(systemPrompt, game, history, userMessage, 1);
    AssembleAt(systemPrompt, game, history, userMessage, |r| - 1);
  }

  /** Every message before the first history message is a system message,
      and no later one is. */
  lemma AssembleSystemFirst(systemPrompt: string, game: string, history: seq<Turn>, userMessage: string)
    ensures var r := Assemble(systemPrompt, game, history, userMessage);
      var k := if HasTopic(game) then 2 else 1;
      forall j :: 0 <= j < |r| ==> (r[j].role == System <==> j < k)
  {
    var r := Assemble(systemPrompt, game, history, userMessage);
    forall j | 0 <= j < |r|
      ensures r[j].role == System <==> j < |Preamble(systemPrompt, game)|
    {
      AssembleAt(systemPrompt, game, history, userMessage, j);
    }
  }

  /** Turn `i` keeps its place, shifted by the prefix, when the exchange
      messages are wrapped in messages before and after them. */
  lemma PlacedExchange(pre: seq<Message>, turns: seq<Turn>, post: seq<Message>, i: int)
    requires 0 <= i < |turns|
    ensures ExchangeAt(pre + ExchangeMessages(turns) + post, |pre| + 2 * i, turns[i])
  {
    var ex := ExchangeMessages(turns);
    assert ExchangeAt(ex, 2 * i, turns[i]);
    assert (pre + ex + post)[|pre| + 2 * i] == ex[2 * i];
    assert (pre + ex + post)[|pre| + 2 * i + 1] == ex[2 * i + 1];
  }

  /** One turn of the recent history, in place in the assembled list. */
  lemma AssembleExchange(systemPrompt: string, game: string, history: seq<Turn>, userMessage: string, i: int)
    requires 0 <= i < |RecentHistory(history)|
    ensures ExchangeAt(Assemble(systemPrompt, game, history, userMessage),
                       |Preamble(systemPrompt, game)| + 2 * i, RecentHistory(history)[i])
  {
    PlacedExchange(Preamble(systemPrompt, game), RecentHistory(history), [Message(User, userMessage)], i);
  }

  /** The most recent (at most five) turns follow the system messages in
      chronological order, each as a user message then an assistant message. */
  lemma AssembleHistory(systemPrompt: string, game: string, history: seq<Turn>, userMessage: string)
    ensures var r := Assemble(systemPrompt, game, history, userMessage);
      var k := if HasTopic(game) then 2 else 1;
      var recent := RecentHistory(history);
      forall i :: 0 <= i < |recent| ==> ExchangeAt(r, k + 2 * i, recent[i])
  {
    var r := Assemble(systemPrompt, game, history, userMessage);
    var k := |Preamble(systemPrompt, game)|;
    assert k == if HasTopic(game) then 2 else 1;
    var recent := RecentHistory(history);
    forall i | 0 <= i < |recent|
      ensures ExchangeAt(r, k + 2 * i, recent[i])
    {
      AssembleExchange(systemPrompt, game, history, userMessage, i);
    }
  }

  /** One more pass of the history loop adds the next turn's two messages. */
  lemma ExchangePrefixStep(turns: seq<Turn>, i: nat)
    requires i < |turns|
    ensures ExchangeMessages(turns[..i + 1])
         == ExchangeMessages(turns[..i]) + [Message(User, turns[i].user), Message(Assistant, turns[i].assistant)]
  {
    assert turns[..i + 1] == turns[..i] + [turns[i]];
    ExchangeMessagesAppend(turns[..i], turns[i]);
  }

  /** The history loop of get_response: each turn, oldest first, appended
      as a user message then an assistant message. */
  method AppendExchanges(prefix: seq<Message>, turns: seq<Turn>) returns (msgs: seq<Message>)
    ensures msgs == prefix + ExchangeMessages(turns)
  {
    msgs := prefix;
    var i := 0;
    while i < |turns|
      invariant 0 <= i <= |turns|
      invariant msgs == prefix + ExchangeMessages(turns[..i])
    {
      var turn := turns[i];
      ExchangePrefixStep(turns, i);
      msgs := msgs + [Message(User, turn.user), Message(Assistant, turn.assistant)];
      i := i + 1;
    }
    assert turns[..i] == turns;
  }

  /** The imperative construction in get_response, appending message by
      message, builds exactly the assembled list. */
  method BuildMessages(systemPrompt: string, game: string, history: seq<Turn>, userMessage: string)
    returns (msgs: seq<Message>)
    ensures msgs == Assemble(systemPrompt, game, history, userMessage)
  {
    msgs := [Message(System, systemPrompt)];
    if game != "" && game != General {
      msgs := msgs + [Message(System, TopicPrefix + game)];
    }
    assert msgs == Preamble(systemPrompt, game);
    if |history| > 0 {
      msgs := AppendExchanges(msgs, LastN(history, HistoryLimit));
    } else {
      assert ExchangeMessages(RecentHistory(history)) == [];
    }
    msgs := msgs + [Message(User, userMessage)];
  }

  /** Failure classification on the lowercased exception text, in priority
      order: key problems, then rate limiting, then timeouts. */
  function Classify(errorMsg: string): (k: ErrorKind)
    ensures k.Other? ==> k.detail == errorMsg
  {
    var lowered := Lower(errorMsg);
    if Contains(lowered, "api_key") then KeyError
    else if Contains(lowered, "rate_limit") then RateLimited
    else if Contains(lowered, "timeout") then Timeout
    else Other(errorMsg)
  }

  /** A key problem is reported exactly when "api_key" occurs in the
      lowercased text. */
  lemma ClassifyKeyError(errorMsg: string)
    ensures Classify(errorMsg) == KeyError <==> IsSubstring("api_key", Lower(errorMsg))
  {
    ContainsIffSubstring(Lower(errorMsg), "api_key");
  }

  /** Rate limiting is reported exactly when "rate_limit" occurs in the
      lowercased text and "api_key" does not. */
  lemma ClassifyRateLimited(errorMsg: string)
    ensures Classify(errorMsg) == RateLimited <==>
      !IsSubstring("api_key", Lower(errorMsg)) && IsSubstring("rate_limit", Lower(errorMsg))
  {
    ContainsIffSubstring(Lower(errorMsg), "api_key");
    ContainsIffSubstring(Lower(errorMsg), "rate_limit");
  }

  /** A timeout is reported exactly when "timeout" occurs in the lowercased
      text and neither marker of higher priority does. */
  lemma ClassifyTimeout(errorMsg: string)
    ensures Classify(errorMsg) == Timeout <==>
      && !IsSubstring("api_key", Lower(errorMsg))
      && !IsSubstring("rate_limit", Lower(errorMsg))
      && IsSubstring("timeout", Lower(errorMsg))
  {
    ContainsIffSubstring(Lower(errorMsg), "api_key");
    ContainsIffSubstring(Lower(errorMsg), "rate_limit");
    ContainsIffSubstring(Lower(errorMsg), "timeout");
  }

  /** Any other failure is reported, with its original (not lowercased)
      text, exactly when none of the three markers occurs. */
  lemma ClassifyOther(errorMsg: string)
    ensures Classify(errorMsg).Other? <==>
      && !IsSubstring("api_key", Lower(errorMsg))
      && !IsSubstring("rate_limit", Lower(errorMsg))
      && !IsSubstring("timeout", Lower(errorMsg))
    ensures Classify(errorMsg).Other? ==> Classify(errorMsg).detail == errorMsg
  {
    ContainsIffSubstring(Lower(errorMsg), "api_key");
    ContainsIffSubstring(Lower(errorMsg), "rate_limit");
    ContainsIffSubstring(Lower(errorMsg), "timeout");
  }

  /** The apology text shown for each failure kind: a key error and any
      other failure open with a cross mark, rate limiting with an hourglass,
      a timeout with a stopwatch; the generic text ends with the failure's own
      text, which can be read back from it. */
  function ErrorText(k: ErrorKind): (t: string)
    ensures |t| > 3
    ensures t[0] == (if k.RateLimited? then '\U{23F3}' else if k.Timeout? then '\U{23F1}' else '\U{274C}')
    ensures k.KeyError? ==> t[2] == 'A' && t[3] == 'P'
    ensures k.Other? ==> t[2] == 'E' && StartsWith(t, OtherErrorPrefix) && t[|OtherErrorPrefix|..] == k.detail
  {
    match k
    case KeyError => KeyErrorText
    case RateLimited => RateLimitText
    case Timeout => TimeoutText
    case Other(detail) => OtherErrorPrefix + detail
  }

  /** Distinct failure kinds never share an apology text, and none of them
      reads as the not-configured text: the caller can tell which path was taken. */
  lemma ErrorTextInjective(a: ErrorKind, b: ErrorKind)
    ensures ErrorText(a) == ErrorText(b) ==> a == b
    ensures ErrorText(a) != NotConfiguredText
  {
    assert NotConfiguredText[2] == 'A' && NotConfiguredText[3] == 'I';
  }

  /** get_response: the readiness guard, then one provider call with the
      assembled messages, whose content is stripped or whose failure is classified. */
  function GetResponse(cfg: Config, userMessage: string, game: string, history: seq<Turn>, provider: Provider): (r: Reply)
    ensures r.sent.None? <==> !IsReady(cfg)
    ensures !IsReady(cfg) ==> r.text == NotConfiguredText
    ensures IsReady(cfg) ==> r.sent == Some(Assemble(cfg.systemPrompt, game, history, userMessage))
    ensures IsReady(cfg) && provider(r.sent.value).Completed? ==>
      r.text == Strip(provider(r.sent.value).content)
    ensures IsReady(cfg) && provider(r.sent.value).Failed? ==>
      r.text == ErrorText(Classify(provider(r.sent.value).error))
  {
    if !IsReady(cfg) then
      Reply(None, NotConfiguredText)
    else
      var msgs := Assemble(cfg.systemPrompt, game, history, userMessage);
      match provider(msgs)
      case Completed(content) => Reply(Some(msgs), Strip(content))
      case Failed(error) => Reply(Some(msgs), ErrorText(Classify(error)))
  }

  /** A first question about a named game sends three messages: the
      system prompt, the topic note and the question. */
  lemma FirstQuestionWithTopic(cfg: Config, userMessage: string, provider: Provider)
    requires IsReady(cfg)
    ensures GetResponse(cfg, userMessage, "Valorant", [], provider).sent
         == Some([Message(System, cfg.systemPrompt),
                  Message(System, TopicPrefix + "Valorant"),
                  Message(User, userMessage)])
  {
    var game := "Valorant";
    assert game[0] != General[0];
    assert HasTopic(game);
    var pre := Preamble(cfg.systemPrompt, game);
    assert pre == [Message(System, cfg.systemPrompt), Message(System, TopicPrefix + game)];
    assert ExchangeMessages(RecentHistory([])) == [];
    assert Assemble(cfg.systemPrompt, game, [], userMessage) == pre + [] + [Message(User, userMessage)];
    assert pre + [] + [Message(User, userMessage)]
        == [Message(System, cfg.systemPrompt), Message(System, TopicPrefix + game), Message(User, userMessage)];
  }

  function GameTipsPrompt(game: string): (p: string)
    ensures IsSubstring(game, p)
  {
    var pre := "Provide 5 essential tips for playing ";
    var p := pre + game + ". Be concise and practical.";
    assert StartsWith(p[|pre|..], game);
    p
  }

  function SituationPrompt(situation: string, game: string): (p: string)
    ensures IsSubstring(game, p) && IsSubstring(situation, p)
  {
    var pre := "In ";
    var mid := ", I'm in this situation: ";
    var p := pre + game + mid + situation + ". What should I do?";
    assert StartsWith(p[|pre|..], game);
    assert StartsWith(p[|pre| + |game| + |mid|..], situation);
    p
  }

  /** get_game_tips: a fixed prompt naming the game, asked under that game
      as topic and without history. */
  function GetGameTips(cfg: Config, game: string, provider: Provider): (r: Reply)
    ensures r.sent.None? <==> !IsReady(cfg)
    ensures r.sent.Some? ==>
      && |r.sent.value| == (if HasTopic(game) then 3 else 2)
      && r.sent.value[0] == Message(System, cfg.systemPrompt)
      && (HasTopic(game) ==> r.sent.value[1] == Message(System, TopicNote(game)))
      && r.sent.value[|r.sent.value| - 1] == Message(User, GameTipsPrompt(game))
    ensures !IsReady(cfg) ==> r.text == NotConfiguredText
    ensures r.sent.Some? && provider(r.sent.value).Completed? ==>
      r.text == Strip(provider(r.sent.value).content)
    ensures r.sent.Some? && provider(r.sent.value).Failed? ==>
      r.text == ErrorText(Classify(provider(r.sent.value).error))
  {
    AssembleEnds(cfg.systemPrompt, game, [], GameTipsPrompt(game));
    GetResponse(cfg, GameTipsPrompt(game), game, [], provider)
  }

  /** analyze_situation: a prompt naming the game and the situation, asked
      under that game as topic and without history. */
  function AnalyzeSituation(cfg: Config, situation: string, game: string, provider: Provider): (r: Reply)
    ensures r.sent.None? <==> !IsReady(cfg)
    ensures r.sent.Some? ==>
      && |r.sent.value| == (if HasTopic(game) then 3 else 2)
      && r.sent.value[0] == Message(System, cfg.systemPrompt)
      && (HasTopic(game) ==> r.sent.value[1] == Message(System, TopicNote(game)))
      && r.sent.value[|r.sent.value| - 1] == Message(User, SituationPrompt(situation, game))
    ensures !IsReady(cfg) ==> r.text == NotConfiguredText
    ensures r.sent.Some? && provider(r.sent.value).Completed? ==>
      r.text == Strip(provider(r.sent.value).content)
    ensures r.sent.Some? && provider(r.sent.value).Failed? ==>
      r.text == ErrorText(Classify(provider(r.sent.value).error))
  {
    AssembleEnds(cfg.systemPrompt, game, [], SituationPrompt(situation, game));
    GetResponse(cfg, SituationPrompt(situation, game), game, [], provider)
  }
}
