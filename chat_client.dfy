/**
 * The chat panel of the client (src/components/ChatSection.tsx): sending a
 * message, the history it sends along, the source label of a reply, and the
 * notice shown for each kind of failure.
 *
 * The panel's state (the message list, the input box, the loading flag) is a
 * `ChatPanel` object; the request to the server is an oracle that yields the
 * outcome of the call.
 */
module ChatClient {
  import opened Wrappers
  import opened Strings
  import opened Seqs

  datatype Sender = UserSender | BotSender

  /** A message of the panel; the timestamp, which comes from the clock, is left out. */
  datatype ChatMessage = ChatMessage(id: nat, sender: Sender, content: string, source: Option<string>)

  /** The JSON body of an error answer; a field is `""` when absent. */
  datatype ErrorBody = ErrorBody(error: string, message: string, details: string)

  /**
   * How the call ended: an ok answer with its `response` and `sources`
   * (`""` and `[]` when absent); a non-ok answer with its status and its body
   * (`None` when it is not JSON); or an exception, which is a `TypeError` when
   * `fetch` itself fails.
   */
  datatype Outcome =
    | Replied(response: string, sources: seq<string>)
    | HttpError(status: nat, body: Option<ErrorBody>)
    | Thrown(isTypeError: bool, message: string)

  /** The error the handler catches: its status, if any, message and details. */
  datatype ChatFailure = ChatFailure(status: Option<nat>, isTypeError: bool, message: string, details: string)

  /**
   * The body of the request: the message as typed, the history and the
   * panel's team (`None` when the panel has none, which leaves the field out
   * of the JSON).
   */
  datatype ChatRequestBody = ChatRequestBody(message: string, history: seq<ChatMessage>, teamId: Option<string>)

  /** What the panel says when a call fails, one case per branch of the handler. */
  datatype Notice =
    | QuotaReached
    | RateLimited
    | ServiceUnavailable
    | Rephrase
    | NotAuthorized
    | CannotConnect
    | ErrorMessage(message: string)
    | GenericError

  const UnknownError: string := "Unknown error"
  const ServerErrorPrefix: string := "Server error: "
  const LabelPrefix: string := "Based on: "
  const LabelSeparator: string := ", "
  const Ellipsis: string := "..."
  const Greeting: string := "Hello! I'm your AI assistant powered by Google Gemini. Ask me anything about your team's documents!"
  const EmptyReplyNotice: string := "I received an empty response. Please try rephrasing your question."

  const ErrorPrefix: string := "Error: "

  // Each fixed notice text is written as its first word and the rest, so that
  // the first word can be read off without unfolding the whole sentence.
  const QuotaReachedText: string := "I've" + " reached my daily request limit. The free tier allows 20 requests per day. Please try again tomorrow or upgrade your API plan. Sorry for the inconvenience!"
  const RateLimitedText: string := "I'm" + " being rate limited. Please wait a moment and try again."
  const ServiceUnavailableText: string := "The" + " AI service is temporarily unavailable. Please try again in a few moments."
  const RephraseText: string := "There" + " was an issue with your request. Please try rephrasing your question."
  const NotAuthorizedText: string := "You're" + " not authorized to use this feature. Please log in again."
  const CannotConnectText: string := "Unable" + " to connect to the server. Please make sure the backend server is running and try again."
  const GenericErrorText: string := "I'm" + " sorry, I encountered an error while processing your request. Please try again or check the console for more details."

  /** The fixed text of each notice that passes no message on; none starts with `E`. */
  function FixedText(n: Notice): (r: string)
    requires !n.ErrorMessage?
    ensures r != [] && r[0] != 'E'
  {
    match n
    case QuotaReached => QuotaReachedText
    case RateLimited => RateLimitedText
    case ServiceUnavailable => ServiceUnavailableText
    case Rephrase => RephraseText
    case NotAuthorized => NotAuthorizedText
    case CannotConnect => CannotConnectText
    case GenericError => GenericErrorText
  }


  /** A text that starts with `Error: ` starts with `E`. */
  lemma ErrorPrefixedStartsWithE(t: string)
    ensures StartsWith(t, ErrorPrefix) ==> t[0] == 'E'
  {
    if |ErrorPrefix| <= |t| {
      assert t[..|ErrorPrefix|][0] == t[0];
    }
  }

  /**
   * The text of each notice. Only the notice that passes a message on starts
   * with `Error: `, and the message follows it unchanged.
   */
  function NoticeText(n: Notice): (r: string)
    ensures r != []
    ensures StartsWith(r, ErrorPrefix) <==> n.ErrorMessage?
    ensures n.ErrorMessage? ==> r[|ErrorPrefix|..] == n.message
  {
    if n.ErrorMessage? then
      Concatenated(ErrorPrefix, n.message);
      ErrorPrefix + n.message
    else
      var t := FixedText(n);
      ErrorPrefixedStartsWithE(t);
      t
  }

  /**
   * The error built from a non-ok answer: the message is the body's `error`,
   * else its `message`, else `Server error: <status>`; the details are the
   * body's `details`, else its `error`. A body that is not JSON reads as
   * `{ error: 'Unknown error' }`.
   */
  function FailureOf(status: nat, body: Option<ErrorBody>): (f: ChatFailure)
    ensures f.status == Some(status) && !f.isTypeError
    ensures f.message != []
    ensures body.None? ==> f.message == UnknownError && f.details == UnknownError
    ensures body.Some? && body.value.error != [] ==> f.message == body.value.error
    ensures body.Some? && body.value.error == [] && body.value.message != [] ==> f.message == body.value.message
    ensures body.Some? && body.value.error == [] && body.value.message == [] ==>
      && StartsWith(f.message, ServerErrorPrefix)
      && f.message[|ServerErrorPrefix|..] == NatToString(status)
    ensures body.Some? && body.value.details != [] ==> f.details == body.value.details
    ensures body.Some? && body.value.details == [] ==> f.details == body.value.error
  {
    var data := body.GetOr(ErrorBody(UnknownError, "", ""));
    var message :=
      if data.error != [] then data.error
      else if data.message != [] then data.message
      else ServerErrorPrefix + NatToString(status);
    var details := if data.details != [] then data.details else data.error;
    ChatFailure(Some(status), false, message, details)
  }

  predicate MentionsQuota(s: string) {
    Contains(s, "quota") || Contains(s, "Quota exceeded") || Contains(s, "429")
  }

  predicate MentionsRateLimit(s: string) {
    Contains(s, "rate limit") || Contains(s, "rate-limit")
  }

  /** The notice for a caught error, following the handler's chain of checks. */
  function Classify(f: ChatFailure): Notice {
    if f.status == Some(500) then
      var d := if f.details != [] then f.details else f.message;
      if MentionsQuota(d) then QuotaReached
      else if MentionsRateLimit(d) then RateLimited
      else ServiceUnavailable
    else if f.status == Some(400) then Rephrase
    else if f.status == Some(401) || f.status == Some(403) then NotAuthorized
    else if f.isTypeError && Contains(f.message, "fetch") then CannotConnect
    else if f.message != [] then ErrorMessage(f.message)
    else GenericError
  }

  /**
   * A 500 is always one of the three service notices, with quota markers
   * winning over rate-limit markers; 400, 401 and 403 have their own notice;
   * the other errors get the connection notice, their message, or the
   * generic text, and a non-ok answer never gets the generic text.
   */
  lemma ClassifyCases(f: ChatFailure)
    ensures f.status == Some(500) <==> Classify(f) in {QuotaReached, RateLimited, ServiceUnavailable}
    ensures f.status == Some(500) && MentionsQuota(if f.details != [] then f.details else f.message) ==> Classify(f) == QuotaReached
    ensures f.status == Some(400) <==> Classify(f) == Rephrase
    ensures f.status == Some(401) || f.status == Some(403) <==> Classify(f) == NotAuthorized
    ensures Classify(f) == CannotConnect ==> f.status.None? || f.status.value !in {400, 401, 403, 500}
    ensures Classify(f) == GenericError ==> f.message == []
    ensures f.status.None? && !f.isTypeError && f.message != [] ==> Classify(f) == ErrorMessage(f.message)
    ensures var d := if f.details != [] then f.details else f.message;
      f.status == Some(500) && !MentionsQuota(d) ==>
        Classify(f) == (if MentionsRateLimit(d) then RateLimited else ServiceUnavailable)
    ensures (f.status.None? || f.status.value !in {400, 401, 403, 500}) ==>
      if f.isTypeError && Contains(f.message, "fetch") then Classify(f) == CannotConnect
      else if f.message != [] then Classify(f) == ErrorMessage(f.message)
      else Classify(f) == GenericError
  {
  }

  /** A failed answer from the server never leads to the generic text. */
  lemma HttpErrorNeverGeneric(status: nat, body: Option<ErrorBody>)
    ensures Classify(FailureOf(status, body)) != GenericError
  {
  }

  /**
   * The source line of a reply: none without sources; otherwise `Based on: `
   * and the first two sources joined by `, `, with `...` when there are more.
   */
  function SourceLabel(sources: seq<string>): (caption: Option<string>)
    ensures caption.None? <==> sources == []
  {
    if sources == [] then None
    else
      var shown := sources[..Min(|sources|, 2)];
      Some(LabelPrefix + Join(shown, LabelSeparator) + (if |sources| > 2 then Ellipsis else ""))
  }

  /** The label names one or two sources in full, and marks a longer list with a trailing `...`. */
  lemma SourceLabelShape(sources: seq<string>)
    requires sources != []
    ensures var text := SourceLabel(sources).value;
      && StartsWith(text, LabelPrefix)
      && (|sources| == 1 ==> text == LabelPrefix + sources[0])
      && (|sources| == 2 ==> text == LabelPrefix + sources[0] + LabelSeparator + sources[1])
      && (|sources| > 2 ==> EndsWith(text, Ellipsis) && text[..|text| - |Ellipsis|] == LabelPrefix + sources[0] + LabelSeparator + sources[1])
  {
    var text := SourceLabel(sources).value;
    if |sources| == 1 {
      assert sources[..1] == [sources[0]];
    } else {
      var shown := sources[..2];
      assert shown == [sources[0], sources[1]];
      assert Join(shown, LabelSeparator) == sources[0] + LabelSeparator + sources[1] by {
        assert shown[1..] == [sources[1]];
      }
      if |sources| > 2 {
        var body := LabelPrefix + sources[0] + LabelSeparator + sources[1];
        assert text == body + Ellipsis;
        assert text[..|text| - |Ellipsis|] == body;
        assert text[|text| - |Ellipsis|..] == Ellipsis;
      } else {
        assert sources[..Min(|sources|, 2)] == shown;
      }
    }
    assert text[..|LabelPrefix|] == LabelPrefix;
  }

  /** The messages after the first one, the greeting. */
  function AfterGreeting(messages: seq<ChatMessage>): seq<ChatMessage> {
    if messages == [] then [] else messages[1..]
  }

  /** The history sent with a request: the list without its first message, the greeting, and without blank messages. */
  function History(messages: seq<ChatMessage>): (history: seq<ChatMessage>)
    ensures forall m :: m in history <==> m in AfterGreeting(messages) && !IsBlank(m.content)
    ensures Subsequence(history, AfterGreeting(messages))
  {
    var rest := AfterGreeting(messages);
    var history := Filter(rest, (m: ChatMessage) => !IsBlank(m.content));
    assert forall m :: m in rest && !IsBlank(m.content) ==> m in history by {
      forall m | m in rest && !IsBlank(m.content) ensures m in history {
        var i :| 0 <= i < |rest| && rest[i] == m;
      }
    }
    history
  }

  /** The bot message that answers an outcome; it carries id `id`. */
  function BotMessage(id: nat, outcome: Outcome): (m: ChatMessage)
    ensures m.id == id && m.sender == BotSender
    ensures m.source.Some? ==> outcome.Replied? && !IsBlank(outcome.response) && outcome.sources != []
  {
    match outcome
    case Replied(response, sources) =>
      if !IsBlank(response) then ChatMessage(id, BotSender, response, SourceLabel(sources))
      else ChatMessage(id, BotSender, EmptyReplyNotice, None)
    case HttpError(status, body) =>
      ChatMessage(id, BotSender, NoticeText(Classify(FailureOf(status, body))), None)
    case Thrown(isTypeError, message) =>
      ChatMessage(id, BotSender, NoticeText(Classify(ChatFailure(None, isTypeError, message, ""))), None)
  }

  /** Message `i` of the list carries id `i + 1`. */
  predicate Numbered(messages: seq<ChatMessage>) {
    forall i :: 0 <= i < |messages| ==> messages[i].id == i + 1
  }

  /** Appending the next id to a numbered list keeps it numbered. */
  lemma NumberedSnoc(messages: seq<ChatMessage>, m: ChatMessage)
    requires Numbered(messages) && m.id == |messages| + 1
    ensures Numbered(messages + [m])
  {
  }

  /** The user's message for the text typed, numbered after the list. */
  function UserMessage(messages: seq<ChatMessage>, typed: string): (m: ChatMessage)
    ensures m.id == |messages| + 1 && m.sender == UserSender && m.content == typed && m.source.None?
  {
    ChatMessage(|messages| + 1, UserSender, typed, None)
  }

  /** Appending two messages one after the other appends the pair. */
  lemma AppendTwo(before: seq<ChatMessage>, first: ChatMessage, second: ChatMessage)
    ensures before + [first] + [second] == before + [first, second]
  {
  }

  class ChatPanel {
    /** The conversation shown, the greeting first. */
    var messages: seq<ChatMessage>
    /** The text in the input box. */
    var input: string
    /** Whether a request is in flight. */
    var loading: bool
    /** The `teamId` property the panel was given, sent with every request. */
    const teamId: Option<string>

    /** A fresh panel for a team, or for none, shows the greeting alone, with id 1. */
    constructor (teamId: Option<string>)
      ensures messages == [ChatMessage(1, BotSender, Greeting, None)] && input == [] && !loading
      ensures this.teamId == teamId
      ensures Numbered(messages)
    {
      this.teamId := teamId;
      messages := [ChatMessage(1, BotSender, Greeting, None)];
      input := [];
      loading := false;
    }

    /**
     * The first half of `handleSend`. With a blank input or a request in
     * flight it does nothing. Otherwise it appends the user's message, clears
     * the input, marks a request in flight and yields the request: the text as
     * typed, the history of the list that now ends with it, and the panel's
     * team.
     */
    method Submit() returns (request: Option<ChatRequestBody>)
      modifies this
      ensures IsBlank(old(input)) || old(loading) ==>
        request.None? && messages == old(messages) && input == old(input) && loading == old(loading)
      ensures !IsBlank(old(input)) && !old(loading) ==>
        && messages == old(messages) + [UserMessage(old(messages), old(input))]
        && request == Some(ChatRequestBody(old(input), History(messages), teamId))
        && input == [] && loading
      ensures Numbered(old(messages)) ==> Numbered(messages)
    {
      if IsBlank(input) || loading {
        return None;
      }
      var user := UserMessage(messages, input);
      if Numbered(messages) {
        NumberedSnoc(messages, user);
      }
      messages := messages + [user];
      request := Some(ChatRequestBody(input, History(messages), teamId));
      input := [];
      loading := true;
    }

    /** The second half of `handleSend`: exactly one bot message for the outcome, then no request is in flight. */
    method Receive(outcome: Outcome)
      modifies this
      ensures messages == old(messages) + [BotMessage(|old(messages)| + 1, outcome)]
      ensures input == old(input) && !loading
      ensures Numbered(old(messages)) ==> Numbered(messages)
    {
      var reply := BotMessage(|messages| + 1, outcome);
      if Numbered(messages) {
        NumberedSnoc(messages, reply);
      }
      messages := messages + [reply];
      loading := false;
    }

    /**
     * `handleSend`: a blank input or a request in flight changes nothing;
     * otherwise the list grows by exactly two, the user's message and the
     * answer to the request, stays numbered, and the input is cleared.
     */
    method Send(call: ChatRequestBody -> Outcome) returns (request: Option<ChatRequestBody>)
      modifies this
      ensures IsBlank(old(input)) || old(loading) ==>
        request.None? && messages == old(messages) && input == old(input) && loading == old(loading)
      ensures !IsBlank(old(input)) && !old(loading) ==>
        var user := UserMessage(old(messages), old(input));
        && request == Some(ChatRequestBody(old(input), History(old(messages) + [user]), teamId))
        && messages == old(messages) + [user, BotMessage(|old(messages)| + 2, call(request.value))]
        && input == [] && !loading
      ensures Numbered(old(messages)) ==> Numbered(messages)
    {
      ghost var before, typed := messages, input;
      request := Submit();
      if request.Some? {
        ghost var user := UserMessage(before, typed);
        assert messages == before + [user];
        var outcome := call(request.value);
        Receive(outcome);
        AppendTwo(before, user, BotMessage(|before| + 2, outcome));
      }
    }
  }
}
