/** The chat widget: an append-only transcript of user and bot messages, the
    text box, and the loading flag held while a question is in flight. The
    request to the chat endpoint is split into the step that sends it and
    the step that receives its outcome, which is a parameter. */
module Chatbot {
  import opened Wrappers
  import Text

  datatype Role = User | Bot
  datatype Message = Message(role: Role, text: string)

  const Greeting: Message :=
    Message(Bot, "Chào bạn! Mình là AI của PTIT. Bạn cần tìm hiểu gì về trường?")
  /** Shown when the server answers without a usable reply. */
  const NoReplyText: string := "Lỗi kết nối."
  /** Shown when the request or the JSON decoding throws. */
  const UnreachableText: string := "Server không phản hồi."

  /** How the request ended: a decoded body whose `reply` field may be
      missing, or an exception. */
  datatype ReplyOutcome = Responded(reply: Option<string>) | Threw

  /** `!input.trim()`: empty or only whitespace. */
  predicate Blank(s: string) {
    Text.Trim(s) == ""
  }

  /** A box holding only one of the Unicode space separators (an em space
      U+2003, say) is blank, so it sends nothing. */
  lemma SpaceSeparatorIsBlank(c: char)
    requires c == '\U{1680}' || ('\U{2000}' <= c <= '\U{200A}') || c == '\U{202F}' || c == '\U{205F}'
    ensures Blank([c])
  {
    Text.TrimEmptyIffAllWhitespace([c]);
  }

  /** The text of the bot message appended for an outcome: the reply when it
      is a non-empty string, otherwise one of the two fixed error texts. The
      bot never posts an empty bubble. */
  function BotText(outcome: ReplyOutcome): (r: string)
    ensures r != ""
    ensures outcome.Threw? ==> r == UnreachableText
    ensures outcome.Responded? && outcome.reply.Some? && outcome.reply.value != "" ==>
      r == outcome.reply.value
    ensures outcome.Responded? && (outcome.reply.None? || outcome.reply.value == "") ==>
      r == NoReplyText
  {
    match outcome
    case Threw => UnreachableText
    case Responded(reply) =>
      if reply.Some? && reply.value != "" then reply.value else NoReplyText
  }

  /** The transcript shape every reachable state has: the greeting, then
      user and bot messages strictly alternating. */
  ghost predicate Alternating(ms: seq<Message>) {
    |ms| >= 1 && ms[0] == Greeting
    && forall i :: 1 <= i < |ms| ==> ms[i].role == (if i % 2 == 1 then User else Bot)
  }

  /** Appending a message of the role whose turn it is keeps the shape. */
  lemma AlternatingSnoc(ms: seq<Message>, m: Message)
    requires Alternating(ms)
    requires m.role == (if |ms| % 2 == 1 then User else Bot)
    ensures Alternating(ms + [m])
  {
    var ms' := ms + [m];
    forall i | 1 <= i < |ms'|
      ensures ms'[i].role == (if i % 2 == 1 then User else Bot)
    {
      if i < |ms| {
        assert ms'[i] == ms[i];
      }
    }
  }

  class Chat {
    var messages: seq<Message>
    var input: string
    var isLoading: bool

    /** A question is in flight exactly when the transcript ends with the
        user's message. */
    ghost predicate Valid()
      reads this
    {
      Alternating(messages) && (isLoading <==> |messages| % 2 == 0)
    }

    constructor ()
      ensures Valid()
      ensures messages == [Greeting] && input == "" && !isLoading
    {
      messages, input, isLoading := [Greeting], "", false;
    }

    /** The text box's `onChange`. */
    method SetInput(text: string)
      modifies this`input
      ensures input == text
    {
      input := text;
    }

    /** The synchronous half of `handleSend`. A blank input changes nothing
        and sends nothing; otherwise the untrimmed input is appended as the
        user's message, the box is cleared, loading starts, and the same
        text is the request's `message`. The box and the send button are
        disabled while loading, so this is never reached then. */
    method BeginSend() returns (request: Option<string>)
      requires Valid() && !isLoading
      modifies this
      ensures Valid()
      ensures Blank(old(input)) ==>
        request == None && messages == old(messages) && input == old(input) && !isLoading
      ensures !Blank(old(input)) ==>
        && request == Some(old(input))
        && messages == old(messages) + [Message(User, old(input))]
        && input == "" && isLoading
    {
      if Blank(input) {
        return None;
      }
      var userText := input;
      AlternatingSnoc(messages, Message(User, userText));
      messages := messages + [Message(User, userText)];
      input := "";
      isLoading := true;
      request := Some(userText);
    }

    /** The asynchronous half: one bot message for the outcome, and loading
        ends whatever the outcome was. */
    method CompleteSend(outcome: ReplyOutcome)
      requires Valid() && isLoading
      modifies this`messages, this`isLoading
      ensures Valid()
      ensures messages == old(messages) + [Message(Bot, BotText(outcome))]
      ensures !isLoading
    {
      AlternatingSnoc(messages, Message(Bot, BotText(outcome)));
      messages := messages + [Message(Bot, BotText(outcome))];
      isLoading := false;
    }

    /** `handleSend` run to completion: either nothing happens, or exactly
        two messages are appended, the user's untrimmed input and then the
        bot's text for the outcome. */
    method HandleSend(outcome: ReplyOutcome)
      requires Valid() && !isLoading
      modifies this
      ensures Valid() && !isLoading
      ensures Blank(old(input)) ==> messages == old(messages) && input == old(input)
      ensures !Blank(old(input)) ==>
        && messages == old(messages) + [Message(User, old(input)), Message(Bot, BotText(outcome))]
        && input == ""
    {
      var request := BeginSend();
      if request.Some? {
        CompleteSend(outcome);
      }
    }

    /** `handleKeyDown`: Enter is the send button; any other key does
        nothing here. */
    method HandleKeyDown(key: string, outcome: ReplyOutcome)
      requires Valid() && !isLoading
      modifies this
      ensures Valid() && !isLoading
      ensures key != "Enter" ==> messages == old(messages) && input == old(input)
      ensures key == "Enter" && Blank(old(input)) ==> messages == old(messages) && input == old(input)
      ensures key == "Enter" && !Blank(old(input)) ==>
        && messages == old(messages) + [Message(User, old(input)), Message(Bot, BotText(outcome))]
        && input == ""
    {
      if key == "Enter" {
        HandleSend(outcome);
      }
    }
  }
}
