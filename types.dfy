/**
 * The gateway's value types. Go pointers that may be nil (`*User`, `*Message`, `*CallbackQuery`,
 * `*InlineKeyboardMarkup`) become `Option`s; an omitted or empty optional string is "".
 * `Message.Entities`, `MessageEntity` and `SendMessageParams.ReplyToMessageID` are included as
 * the code that builds and reads these values uses them.
 */
module Types {
  import opened Base

  datatype InlineKeyboardButton = InlineKeyboardButton(text: string, callbackData: string)

  /** Rows of buttons, relayed by the gateway without being interpreted. */
  datatype InlineKeyboardMarkup = InlineKeyboardMarkup(inlineKeyboard: seq<seq<InlineKeyboardButton>>)

  datatype ChatID = ChatID(id: Int64)

  datatype SendMessageParams = SendMessageParams(
    chatID: ChatID,
    text: string,
    replyMarkup: Option<InlineKeyboardMarkup>,
    replyToMessageID: Int64)

  datatype Chat = Chat(id: Int64)

  datatype User = User(id: Int64, name: string)

  /** A span of a message's text, in bytes, of some kind (`Type` in the Go code). */
  datatype MessageEntity = MessageEntity(kind: string, offset: int, length: int)

  datatype Message = Message(
    messageID: Int64,
    from: Option<User>,
    chat: Chat,
    text: string,
    entities: seq<MessageEntity>)

  datatype CallbackQuery = CallbackQuery(
    id: string,
    from: Option<User>,
    message: Option<Message>,
    data: string)

  datatype Update = Update(
    updateID: Int64,
    message: Option<Message>,
    callbackQuery: Option<CallbackQuery>)
}
