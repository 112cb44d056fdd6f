/** One question through the chat widget and the chat endpoint together:
    what the widget shows for each way the language model call can end. */
module ChatExchange {
  import opened Wrappers
  import Chatbot
  import Server

  /** How the widget reads the endpoint's JSON: a `reply` field when there
      is one, none otherwise. The widget never looks at the status code. */
  function ClientOutcome(resp: Server.ChatResponse): Chatbot.ReplyOutcome {
    match resp.body
    case ChatReply(reply) => Chatbot.Responded(Some(reply))
    case ChatError(_) => Chatbot.Responded(None)
  }

  /** A question the widget sends is never rejected as empty. The widget
      shows the model's answer when it is non-empty, the no-reply text for
      an empty answer, and the server's busy reply (not its own
      unreachable-server text) when the model fails with a 500. */
  lemma ExchangeOutcome(input: string, model: Server.ModelOutcome)
    requires !Chatbot.Blank(input)
    ensures Server.HandleChat(Some(input), model).status != 400
    ensures model.Answered? && model.text != "" ==>
      Chatbot.BotText(ClientOutcome(Server.HandleChat(Some(input), model))) == model.text
    ensures model.Answered? && model.text == "" ==>
      Chatbot.BotText(ClientOutcome(Server.HandleChat(Some(input), model))) == Chatbot.NoReplyText
    ensures model.ModelFailed? ==>
      Chatbot.BotText(ClientOutcome(Server.HandleChat(Some(input), model))) == Server.BusyReply
  {
    assert input != "";
  }
}
