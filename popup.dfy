/**
  The popup: the model chosen at load, the message bubbles it draws, and the
  conversation it keeps with the model, one user turn at a time. The browser
  (active tab, content-script round trip, HTTP request) is replaced by the
  values those calls produce, passed in as parameters.
 */
module Popup {

  import opened Wrappers
  import opened JsString
  import opened ChatMessages
  import opened Transcript
  import ContentScript

  // ---------------------------------------------------------------------------
  // The model chosen at load
  // ---------------------------------------------------------------------------

  const Placeholder := "Select a model"
  const DefaultModel := "google/gemini-2.0-flash-001"

  /** The model named by the dropdown's label, or the default while the label is still the placeholder. */
  function ModelFor(caption: string): (model: string)
    ensures model != Placeholder
    ensures Trim(caption) == Placeholder ==> model == DefaultModel
    ensures Trim(caption) != Placeholder ==> model == Trim(caption)
  {
    if Trim(caption) == Placeholder then DefaultModel else Trim(caption)
  }

  /** The model name never carries surrounding whitespace, whatever the label. */
  lemma ModelForTrimmed(caption: string)
    ensures Trim(ModelFor(caption)) == ModelFor(caption)
  {
    TrimIdempotent(caption);
    if Trim(caption) == Placeholder {
      assert LeadingWhitespace(DefaultModel) == 0 by {
        LeadingWhitespaceUnique(DefaultModel, 0);
      }
      assert TrailingStart(DefaultModel) == |DefaultModel| by {
        TrailingStartUnique(DefaultModel, |DefaultModel|);
      }
    }
  }

  // ---------------------------------------------------------------------------
  // Bubbles
  // ---------------------------------------------------------------------------

  datatype Speaker = UserSpeaker | AiSpeaker
  datatype TextDirection = Ltr | Rtl

  /** What fills a bubble: markdown handed to the renderer, or HTML built from plain text. */
  datatype BubbleBody = Markdown(source: string) | Html(markup: string)
  datatype Bubble = Bubble(speaker: Speaker, direction: TextDirection, body: BubbleBody)

  /** A character of the Arabic block, U+0600 to U+06FF. */
  predicate IsArabic(c: char) {
    '\U{0600}' <= c <= '\U{06FF}'
  }

  /** The right-to-left test: the content holds an Arabic-block character somewhere. */
  predicate IsRtl(content: string) {
    exists i :: 0 <= i < |content| && IsArabic(content[i])
  }

  /** Every newline replaced by `<br>`. */
  function BreakLines(s: string): (r: string)
    ensures '\n' !in r
  {
    if s == [] then []
    else (if s[0] == '\n' then "<br>" else [s[0]]) + BreakLines(s[1..])
  }

  lemma {:induction false} BreakLinesAppend(a: string, b: string)
    ensures BreakLines(a + b) == BreakLines(a) + BreakLines(b)
  {
    if a != [] {
      var head := if a[0] == '\n' then "<br>" else [a[0]];
      assert (a + b)[0] == a[0] && (a + b)[1..] == a[1..] + b;
      assert BreakLines(a + b) == head + BreakLines(a[1..] + b);
      BreakLinesAppend(a[1..], b);
      assert BreakLines(a) == head + BreakLines(a[1..]);
    } else {
      assert a + b == b;
    }
  }

  lemma {:induction false} BreakLinesPlain(s: string)
    requires '\n' !in s
    ensures BreakLines(s) == s
  {
    if s != [] {
      BreakLinesPlain(s[1..]);
    }
  }

  lemma BreakLinesAt(s: string, i: nat)
    requires i < |s| && s[i] == '\n'
    ensures BreakLines(s) == BreakLines(s[..i]) + "<br>" + BreakLines(s[i + 1..])
  {
    var before, after := s[..i], s[i + 1..];
    SliceAround(s, i);
    BreakLinesAppend(before + "\n", after);
    BreakLinesAppend(before, "\n");
    assert BreakLines("\n") == "<br>";
  }

  lemma JoinFirst(parts: seq<string>, sep: string)
    requires |parts| >= 2
    ensures Join(parts, sep) == parts[0] + sep + Join(parts[1..], sep)
  {
  }

  /** Replacing newlines by `<br>` is splitting the text into lines and joining them with `<br>`. */
  lemma {:induction false} BreakLinesJoinsLines(s: string)
    ensures BreakLines(s) == Join(Split(s, '\n'), "<br>")
    decreases |s|
  {
    match IndexOf(s, '\n')
    case None =>
      BreakLinesPlain(s);
      SplitNone(s, '\n');
    case Some(i) =>
      var rest := s[i + 1..];
      BreakLinesAt(s, i);
      BreakLinesPlain(s[..i]);
      BreakLinesJoinsLines(rest);
      SplitFirst(s, '\n', i);
      var parts := Split(s, '\n');
      assert |parts| >= 2;
      JoinFirst(parts, "<br>");
  }

  /** `appendMessage`: the bubble drawn for a message. */
  function MakeBubble(speaker: Speaker, content: string): Bubble {
    Bubble(
      speaker,
      if IsRtl(content) then Rtl else Ltr,
      if speaker == AiSpeaker then Markdown(content) else Html(BreakLines(content)))
  }

  /** A user bubble shows the lines of the message separated by `<br>`, and an AI bubble the markdown as given. */
  lemma MakeBubbleBody(speaker: Speaker, content: string)
    ensures var b := MakeBubble(speaker, content);
            && (b.direction == Rtl <==> exists i :: 0 <= i < |content| && IsArabic(content[i]))
            && (speaker == AiSpeaker ==> b.body == Markdown(content))
            && (speaker == UserSpeaker ==> b.body == Html(Join(Split(content, '\n'), "<br>")))
  {
    BreakLinesJoinsLines(content);
  }

  // ---------------------------------------------------------------------------
  // The conversation
  // ---------------------------------------------------------------------------

  datatype Role = System | User | Assistant
  datatype Entry = Entry(role: Role, content: string)

  const SystemPrompt :=
    "You are a socially intelligent AI assistant embedded in a chat interface.\n"
    + "Your role is to provide helpful insights, emotional analysis, or strategic guidance based on chat\n"
    + "You can:\n"
    + "- Summarize key points from the conversation.\n"
    + "- Detect emotional tone, interest levels, or intentions.\n"
    + "- Highlight any red flags, contradictions, or manipulation.\n"
    + "- Offer advice, reflection, or third-person perspective on the situation.\n"
    + "- respond with the language that user sent his latest message with to you with eg: English, arabic etc.. .\n"
    + "- format, orgnize and style your respone with new lines . \n"
    + "Only rely on the messages below. Always back your analysis with examples from the chat if it was provided.\n"
    + "Output should be empathetic, neutral, and thoughtful \U{2014} like a good friend who's also a therapist."
  const ContextHeader := "Here is the chat history:\n"

  const Platforms := ["whatsapp.com", "instagram.com", "telegram.org", "messenger.com"]
  const UnsupportedNotice :=
    "I can only access chat messages on WhatsApp, Instagram, Telegram, or Messenger. Please navigate to one of these platforms."
  const NoMessagesNotice :=
    "I couldn't retrieve any chat messages. If you're on the correct platform, please refresh the page and try again."
  const ScrapeFailedNotice := "I couldn't retrieve chat messages. Please refresh the page and try again."
  const TypingNotice := "Typing..."
  const FetchErrorNotice := "Error: Unable to fetch response."
  const NoResponse := "No response."
  const MaxTokens := 1000

  /** What asking the content script for the chat produced: the messages, or a rejection. */
  datatype ScrapeOutcome = Scraped(chat: seq<ChatMessage>) | ScrapeFailed

  /**
    What the completion request produced: the first choice's message content,
    no first choice (or none with a message), or a failure anywhere on the way
    (network, JSON, missing `choices`, content that is not a string).
   */
  datatype Completion = Replied(content: string) | NoMessage | RequestFailed

  /** The body posted to the endpoint; the sampling temperature is not modelled. */
  datatype Request = Request(model: string, maxTokens: nat, messages: seq<Entry>)

  /** How the popup reads the content script's answer: the messages it carries, or none. */
  function Received(response: Option<ContentScript.Response>): ScrapeOutcome {
    Scraped(if response.Some? then response.value.messages else [])
  }

  /**
    `getChatMessagesFromContentScript`: `page` is the active tab's content
    script, over the rows of its chat, or `None` when there is no tab or
    nothing answers there (both reject). Asking yields exactly the messages
    of the page's rows.
   */
  method GetChatMessagesFromContentScript(page: Option<seq<ContentScript.Row>>) returns (outcome: ScrapeOutcome)
    ensures page.None? ==> outcome == ScrapeFailed
    ensures page.Some? ==> outcome == Scraped(ContentScript.Messages(page.value))
  {
    if page.None? {
      return ScrapeFailed;
    }
    var response := ContentScript.OnMessage(ContentScript.Request(Some(ContentScript.GetChatMessages)), page.value);
    outcome := Received(response);
  }

  /** The keyword test: the lower-cased message mentions "chat" or "messages". */
  predicate MentionsChat(userMessage: string) {
    var lower := ToLowerCase(userMessage);
    Contains(lower, "chat") || Contains(lower, "messages")
  }

  /** The keyword test does not depend on letter case. */
  lemma MentionsChatIgnoresCase(a: string, b: string)
    requires |a| == |b| && forall i :: 0 <= i < |a| ==> LowerChar(a[i]) == LowerChar(b[i])
    ensures MentionsChat(a) <==> MentionsChat(b)
  {
    assert ToLowerCase(a) == ToLowerCase(b);
  }

  /** `word` occurs somewhere in `text`. */
  ghost predicate OccursIn(text: string, word: string) {
    exists i: nat :: OccursAt(text, word, i)
  }

  /** The keyword test holds exactly when one of the two words occurs in the lower-cased message. */
  lemma MentionsChatIff(userMessage: string)
    ensures MentionsChat(userMessage) <==>
              OccursIn(ToLowerCase(userMessage), "chat") || OccursIn(ToLowerCase(userMessage), "messages")
  {
    var lower := ToLowerCase(userMessage);
    ContainsIff(lower, "chat");
    ContainsIff(lower, "messages");
  }

  /** The tab's URL contains one of the supported platforms' domains. */
  predicate IsSupportedPlatform(url: string) {
    exists k :: 0 <= k < |Platforms| && Contains(url, Platforms[k])
  }

  /** The trimmed reply, or the fallback text when there is none. */
  function ReplyText(content: string): string {
    if Trim(content) == "" then NoResponse else Trim(content)
  }

  /** The text shown after "Typing..." for a completion. */
  function AnswerText(completion: Completion): string {
    match completion
    case Replied(content) => ReplyText(content)
    case NoMessage => NoResponse
    case RequestFailed => FetchErrorNotice
  }

  /** The entries a completion adds to the conversation: the answer, unless the request failed. */
  function Recorded(completion: Completion): seq<Entry> {
    if completion.RequestFailed? then [] else [Entry(Assistant, AnswerText(completion))]
  }

  /**
    An answer is recorded exactly when the request succeeded; it is then the
    text shown in the bubble, never empty and without surrounding whitespace.
   */
  lemma NoResponseTrimmed()
    ensures Trim(NoResponse) == NoResponse
  {
    LeadingWhitespaceUnique(NoResponse, 0);
    TrailingStartUnique(NoResponse, |NoResponse|);
  }

  lemma RecordedAnswer(completion: Completion)
    ensures |Recorded(completion)| == (if completion.RequestFailed? then 0 else 1)
    ensures forall e :: e in Recorded(completion) ==>
              && e == Entry(Assistant, AnswerText(completion))
              && e.content != "" && Trim(e.content) == e.content
  {
    if completion.Replied? && Trim(completion.content) != "" {
      TrimIdempotent(completion.content);
    } else {
      NoResponseTrimmed();
    }
  }

  /** How a turn goes before the request: abandoned, stopped with a notice, or sent with the context it adds. */
  datatype Admission = Abandoned | Stopped(notice: string) | Admitted(context: seq<Entry>)

  /** `getCurrentTabUrl` rejects: there is no active tab, or its URL is missing or empty (falsy). */
  predicate NoTabUrl(url: Option<string>) {
    url.None? || url.value == ""
  }

  /**
    The checks `handleUserMessage` makes before talking to the model. Without
    a (non-empty) tab URL the turn is abandoned. A message that mentions the chat needs a
    supported platform and a non-empty scrape, and adds the formatted chat as
    a system entry; any other message goes through as is.
   */
  function Admit(userMessage: string, url: Option<string>, scrape: ScrapeOutcome): Admission {
    if NoTabUrl(url) then Abandoned
    else if !MentionsChat(userMessage) then Admitted([])
    else if !IsSupportedPlatform(url.value) then Stopped(UnsupportedNotice)
    else match scrape
      case ScrapeFailed => Stopped(ScrapeFailedNotice)
      case Scraped(chat) =>
        if |chat| == 0 then Stopped(NoMessagesNotice)
        else Admitted([Entry(System, ContextHeader + FormatChatForAI(chat))])
  }

  /** A turn is abandoned exactly when there is no tab URL or it is empty. */
  lemma AdmitAbandons(userMessage: string, url: Option<string>, scrape: ScrapeOutcome)
    ensures Admit(userMessage, url, scrape).Abandoned? <==> url.None? || url.value == ""
  {
  }

  /**
    A turn stops with a notice exactly when it mentions the chat and either
    the platform is unsupported or the scrape failed or came back empty; the
    notice says which.
   */
  lemma AdmitStops(userMessage: string, url: string, scrape: ScrapeOutcome)
    ensures var a := Admit(userMessage, Some(url), scrape);
            && (a.Stopped? <==>
                  url != "" && MentionsChat(userMessage)
                  && (!IsSupportedPlatform(url) || scrape.ScrapeFailed? || (scrape.Scraped? && scrape.chat == [])))
            && (a == Stopped(UnsupportedNotice) <==> url != "" && MentionsChat(userMessage) && !IsSupportedPlatform(url))
            && (a == Stopped(ScrapeFailedNotice) <==>
                  url != "" && MentionsChat(userMessage) && IsSupportedPlatform(url) && scrape.ScrapeFailed?)
  {
  }

  /**
    An admitted turn adds chat context exactly when the message mentions the
    chat, and then a single system entry holding the formatted chat.
   */
  lemma AdmitContext(userMessage: string, url: Option<string>, scrape: ScrapeOutcome)
    requires Admit(userMessage, url, scrape).Admitted?
    ensures var context := Admit(userMessage, url, scrape).context;
            && (context != [] <==> MentionsChat(userMessage))
            && (context != [] ==>
                  && scrape.Scraped? && |scrape.chat| > 0
                  && url.Some? && url.value != "" && IsSupportedPlatform(url.value)
                  && context == [Entry(System, ContextHeader + FormatChatForAI(scrape.chat))])
  {
  }

  /**
    A message that does not mention the chat is never held up by the platform
    or the scrape: it goes through with no context, unless the URL is empty.
   */
  lemma AdmitIgnoresScrape(userMessage: string, url: string, s1: ScrapeOutcome, s2: ScrapeOutcome)
    requires !MentionsChat(userMessage)
    ensures Admit(userMessage, Some(url), s1) == Admit(userMessage, Some(url), s2)
            == if url == "" then Abandoned else Admitted([])
  {
  }

  /**
    The conversation's shape: a system entry first (the prompt); every later system
    entry is chat context, directly followed by the user message it came
    with; every answer directly follows a user message.
   */
  predicate WellFormed(history: seq<Entry>) {
    && |history| >= 1
    && history[0].role == System
    && (forall k :: 1 <= k < |history| && history[k].role == System ==>
          StartsWith(history[k].content, ContextHeader) && k + 1 < |history| && history[k + 1].role == User)
    && (forall k :: 1 <= k < |history| && history[k].role == Assistant ==> history[k - 1].role == User)
  }

  lemma AppendTurnWellFormed(history: seq<Entry>, context: seq<Entry>, userMessage: string, completion: Completion)
    requires WellFormed(history)
    requires context == [] || (|context| == 1 && context[0].role == System && StartsWith(context[0].content, ContextHeader))
    ensures WellFormed(history + context + [Entry(User, userMessage)] + Recorded(completion))
  {
    var h := history + context + [Entry(User, userMessage)] + Recorded(completion);
    var u := |history| + |context|;
    assert h[u] == Entry(User, userMessage);
    assert forall k :: 0 <= k < |history| ==> h[k] == history[k];
    forall k | 1 <= k < |h| && h[k].role == System
      ensures StartsWith(h[k].content, ContextHeader) && k + 1 < |h| && h[k + 1].role == User
    {
      if k < |history| {
        assert h[k] == history[k];
        assert h[k + 1] == history[k + 1];
      } else {
        assert k == |history| && h[k] == context[0];
      }
    }
    forall k | 1 <= k < |h| && h[k].role == Assistant
      ensures h[k - 1].role == User
    {
      if k < |history| {
        assert h[k - 1] == history[k - 1];
      } else {
        assert k == u + 1;
      }
    }
  }

  /** The conversation after a turn: an admitted turn adds its context, the user's message and the answer. */
  function TurnHistory(history: seq<Entry>, userMessage: string, admission: Admission, completion: Completion): seq<Entry> {
    match admission
    case Admitted(context) => history + context + [Entry(User, userMessage)] + Recorded(completion)
    case _ => history
  }

  /** The window after a turn: the notice of a stopped turn, or "Typing..." and the answer of an admitted one. */
  function TurnWindow(window: seq<Bubble>, admission: Admission, completion: Completion): seq<Bubble> {
    match admission
    case Abandoned => window
    case Stopped(notice) => window + [MakeBubble(AiSpeaker, notice)]
    case Admitted(_) => window + [MakeBubble(AiSpeaker, TypingNotice), MakeBubble(AiSpeaker, AnswerText(completion))]
  }

  /** The request an admitted turn posts: the conversation up to and including the user's message. */
  function TurnRequest(model: string, history: seq<Entry>, userMessage: string, admission: Admission): Option<Request> {
    match admission
    case Admitted(context) => Some(Request(model, MaxTokens, history + context + [Entry(User, userMessage)]))
    case _ => None
  }

  /** Every turn keeps the conversation well formed. */
  lemma TurnKeepsWellFormed(history: seq<Entry>, userMessage: string, url: Option<string>, scrape: ScrapeOutcome, completion: Completion)
    requires WellFormed(history)
    ensures WellFormed(TurnHistory(history, userMessage, Admit(userMessage, url, scrape), completion))
  {
    var admission := Admit(userMessage, url, scrape);
    if admission.Admitted? {
      var context := admission.context;
      if context != [] {
        var header := ContextHeader + FormatChatForAI(scrape.chat);
        assert header[..|ContextHeader|] == ContextHeader;
      }
      AppendTurnWellFormed(history, context, userMessage, completion);
    }
  }

  /**
    The conversation only grows, and only through admitted turns; the request
    carries the conversation so far, ending with the user's message, and the
    answer comes after it. Notices never enter the conversation.
   */
  lemma TurnRequestIsHistoryPrefix(model: string, history: seq<Entry>, userMessage: string, admission: Admission, completion: Completion)
    ensures var h := TurnHistory(history, userMessage, admission, completion);
            var r := TurnRequest(model, history, userMessage, admission);
            && |h| >= |history| && h[..|history|] == history
            && (r.Some? <==> admission.Admitted?)
            && (!admission.Admitted? ==> h == history)
            && (r.Some? ==>
                  && r.value.model == model && r.value.maxTokens == MaxTokens
                  && |r.value.messages| > |history|
                  && r.value.messages[|r.value.messages| - 1] == Entry(User, userMessage)
                  && h == r.value.messages + Recorded(completion))
  {
    var h := TurnHistory(history, userMessage, admission, completion);
    assert h[..|history|] == history;
  }

  lemma AppendTwo<T>(s: seq<T>, a: T, b: T)
    ensures s + [a] + [b] == s + [a, b]
  {
  }

  // ---------------------------------------------------------------------------
  // The popup's state
  // ---------------------------------------------------------------------------

  /**
    The popup's script state: the model fixed when the script loads, the
    conversation sent to the model, and the bubbles in the chat window.
   */
  class Popup {
    const model: string
    var history: seq<Entry>
    var window: seq<Bubble>

    ghost predicate Valid()
      reads this
    {
      WellFormed(history)
    }

    /** Loading the script: the model from the dropdown's label, the system prompt, an empty window. */
    constructor (selectedLabel: string)
      ensures model == ModelFor(selectedLabel)
      ensures history == [Entry(System, SystemPrompt)]
      ensures window == []
      ensures Valid()
    {
      model := ModelFor(selectedLabel);
      history := [Entry(System, SystemPrompt)];
      window := [];
    }

    /** `appendMessage`: one more bubble in the window. */
    method AppendMessage(speaker: Speaker, content: string)
      modifies this
      ensures window == old(window) + [MakeBubble(speaker, content)]
      ensures history == old(history)
    {
      window := window + [MakeBubble(speaker, content)];
    }

    /**
      `handleUserMessage`: admit the turn, add the context and the user's
      message, post the conversation, and show and record the answer. The
      request actually posted is returned.
     */
    method HandleUserMessage(userMessage: string, url: Option<string>, scrape: ScrapeOutcome, completion: Completion)
      returns (sent: Option<Request>)
      requires Valid()
      modifies this
      ensures Valid() && history[0] == old(history)[0]
      ensures var admission := Admit(userMessage, url, scrape);
              && history == TurnHistory(old(history), userMessage, admission, completion)
              && window == TurnWindow(old(window), admission, completion)
              && sent == TurnRequest(model, old(history), userMessage, admission)
    {
      ghost var admission := Admit(userMessage, url, scrape);
      if NoTabUrl(url) {
        assert admission == Abandoned;
        return None;
      }
      var onSupportedPlatform := IsSupportedPlatform(url.value);
      if MentionsChat(userMessage) {
        if !onSupportedPlatform {
          assert admission == Stopped(UnsupportedNotice);
          AppendMessage(AiSpeaker, UnsupportedNotice);
          return None;
        }
        match scrape {
          case ScrapeFailed =>
            assert admission == Stopped(ScrapeFailedNotice);
            AppendMessage(AiSpeaker, ScrapeFailedNotice);
            return None;
          case Scraped(chat) =>
            if |chat| == 0 {
              assert admission == Stopped(NoMessagesNotice);
              AppendMessage(AiSpeaker, NoMessagesNotice);
              return None;
            }
            history := history + [Entry(System, ContextHeader + FormatChatForAI(chat))];
        }
      }
      assert admission.Admitted? && history == old(history) + admission.context;
      sent := Ask(userMessage, completion);
      TurnKeepsWellFormed(old(history), userMessage, url, scrape, completion);
    }

    /** The second half of a turn: record the message, show "Typing...", post, then show and record the answer. */
    method Ask(userMessage: string, completion: Completion) returns (sent: Option<Request>)
      modifies this
      ensures history == old(history) + [Entry(User, userMessage)] + Recorded(completion)
      ensures window == old(window) + [MakeBubble(AiSpeaker, TypingNotice), MakeBubble(AiSpeaker, AnswerText(completion))]
      ensures sent == Some(Request(model, MaxTokens, old(history) + [Entry(User, userMessage)]))
    {
      ghost var before := window;
      history := history + [Entry(User, userMessage)];
      AppendMessage(AiSpeaker, TypingNotice);
      sent := Some(Request(model, MaxTokens, history));
      var answer := AnswerText(completion);
      AppendMessage(AiSpeaker, answer);
      AppendTwo(before, MakeBubble(AiSpeaker, TypingNotice), MakeBubble(AiSpeaker, answer));
      if !completion.RequestFailed? {
        history := history + [Entry(Assistant, answer)];
      } else {
        assert history + Recorded(completion) == history;
      }
    }

    /**
      The send button: the trimmed input, if any, is shown as the user's
      bubble and handled as a turn.
     */
    method Send(typed: string, url: Option<string>, scrape: ScrapeOutcome, completion: Completion)
      returns (sent: Option<Request>)
      requires Valid()
      modifies this
      ensures Valid() && history[0] == old(history)[0]
      ensures Trim(typed) == "" ==> history == old(history) && window == old(window) && sent.None?
      ensures Trim(typed) != "" ==>
                var userMessage := Trim(typed);
                var admission := Admit(userMessage, url, scrape);
                && history == TurnHistory(old(history), userMessage, admission, completion)
                && window == TurnWindow(old(window) + [MakeBubble(UserSpeaker, userMessage)], admission, completion)
                && sent == TurnRequest(model, old(history), userMessage, admission)
    {
      var userMessage := Trim(typed);
      if userMessage == "" {
        return None;
      }
      AppendMessage(UserSpeaker, userMessage);
      sent := HandleUserMessage(userMessage, url, scrape, completion);
    }
  }
}
