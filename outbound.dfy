/**
 * The outbound side as values: the message `SendMessage` returns and the reply record it
 * broadcasts (`outboundPayload`) to every session, before JSON encoding.
 */
module Outbound {
  import opened Base
  import opened Types

  /** The fixed sender tag of every reply, and the name of the bot user. */
  const BotSender: string := "bot"

  /**
   * The reply record. `replyToMessageID` is always set (also when it is 0), `isReply` is the
   * flag that JSON encoding leaves out when false, and the markup is absent when the caller gave none.
   */
  datatype OutboundPayload = OutboundPayload(
    chatID: Int64,
    text: string,
    from: string,
    replyToMessageID: Int64,
    isReply: bool,
    messageID: Int64,
    replyMarkup: Option<InlineKeyboardMarkup>)

  /** The message `SendMessage` returns for parameters `p` and the message id it drew. */
  function SentMessage(p: SendMessageParams, msgID: Int64): (m: Message)
    ensures m.messageID == msgID && m.chat == Chat(p.chatID.id) && m.text == p.text
    ensures m.from == Some(User(0, BotSender)) && m.entities == []
  {
    Message(msgID, Some(User(0, BotSender)), Chat(p.chatID.id), p.text, [])
  }

  /** The reply broadcast for parameters `p` and the message id it drew. */
  function Payload(p: SendMessageParams, msgID: Int64): (out: OutboundPayload)
    ensures out.chatID == p.chatID.id && out.text == p.text && out.from == BotSender
    ensures out.messageID == msgID
    ensures out.replyToMessageID == p.replyToMessageID
    ensures out.isReply <==> p.replyToMessageID != 0
    ensures out.replyMarkup == p.replyMarkup
  {
    OutboundPayload(p.chatID.id, p.text, BotSender, p.replyToMessageID, p.replyToMessageID != 0, msgID, p.replyMarkup)
  }

  /** What a session can read back from a reply: the chat, text, reply target and keyboard of the request. */
  function RequestOf(out: OutboundPayload): SendMessageParams {
    SendMessageParams(ChatID(out.chatID), out.text, out.replyMarkup, out.replyToMessageID)
  }

  /**
   * The reply a session receives carries the request it answers unchanged, and describes the
   * same message the caller got back: same id, chat and text.
   */
  lemma PayloadCarriesRequest(p: SendMessageParams, msgID: Int64)
    ensures RequestOf(Payload(p, msgID)) == p
    ensures Payload(p, msgID).messageID == SentMessage(p, msgID).messageID
    ensures Payload(p, msgID).chatID == SentMessage(p, msgID).chat.id
    ensures Payload(p, msgID).text == SentMessage(p, msgID).text
  {
  }
}
