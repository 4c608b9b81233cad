/**
 * The gateway's end-to-end examples, restated on the model: what the program under test sees
 * for the frames and send calls its tests use.
 */
module Scenarios {
  import opened Base
  import opened Types
  import opened Util
  import opened Inbound
  import opened Outbound
  import opened Gateway

  /** A text frame whose JSON numbers decode as floats becomes a message in chat 777 with the frame's text and id. */
  lemma TextFrameScenario(now: Int64)
    ensures var r := Step(Parsed(Frame(FloatV(777.0), "ping", FloatV(1.0), "")), now, Counters(0, 0));
      && r.update.Some? && r.update.value.message.Some?
      && r.update.value.message.value.chat.id == 777
      && r.update.value.message.value.text == "ping"
      && r.update.value.message.value.messageID == 1
      && r.update.value.updateID == 1
      && r.counters == Counters(1, 0)
  {
    assert Trunc(777.0) == 777 && Trunc(1.0) == 1;
  }

  /** A frame with callback data and text becomes a callback query from user 555 carrying the data "ok". */
  lemma CallbackFrameScenario(now: Int64)
    ensures var r := Step(Parsed(Frame(FloatV(555.0), "btn", FloatV(10.0), "ok")), now, Counters(0, 0));
      && r.update.Some? && r.update.value.message.None? && r.update.value.callbackQuery.Some?
      && r.update.value.callbackQuery.value.from == Some(User(555, ""))
      && r.update.value.callbackQuery.value.data == "ok"
      && r.update.value.callbackQuery.value.message.value.text == "btn"
      && r.counters == Counters(1, 0)
  {
    assert Trunc(555.0) == 555 && Trunc(10.0) == 10;
  }

  /** "/start" carries one command entity at offset 0 of length 6. */
  lemma StartCommandScenario()
    ensures CommandEntities("/start") == [MessageEntity(BotCommand, 0, 6)]
  {
    var text := "/start";
    assert IsCommandText(text);
    assert forall k | 0 <= k < |text| :: text[k] != ' ';
  }

  /** In "/start now" the command ends at the space. */
  lemma CommandWithArgumentScenario()
    ensures CommandEntities("/start now") == [MessageEntity(BotCommand, 0, 6)]
  {
    var text := "/start now";
    assert IsCommandText(text);
    assert forall k | 0 <= k < 6 :: text[k] != ' ';
    assert text[6] == ' ';
  }

  /** A lone "/", a "/" followed by a space, and a text without a leading "/" carry no entity. */
  lemma NoCommandScenario()
    ensures CommandEntities("/") == [] && CommandEntities("/ x") == [] && CommandEntities("start") == []
  {
    assert !IsCommandText("/") && !IsCommandText("/ x") && !IsCommandText("start");
  }

  /** A reply to message 42 in chat 123 is flagged as a reply and names its target. */
  lemma ReplyScenario(msgID: Int64)
    ensures var out := Payload(SendMessageParams(ChatID(123), "Hello", None, 42), msgID);
      out.chatID == 123 && out.text == "Hello" && out.isReply && out.replyToMessageID == 42 && out.from == "bot"
  {
  }

  /** With no session connected, sending still returns the message, and nothing is written anywhere. */
  method SendWithoutSessions(session: Conn)
    modifies session
  {
    var bot := new Bot("token");
    var sent := bot.SendMessage(Some(SendMessageParams(ChatID(1), "x", None, 0)), {});
    assert sent.Ok? && sent.value.messageID == 1 && sent.value.text == "x";
    assert bot.clients == {};
    // A session that connects afterwards and whose write succeeds receives the next reply.
    session.received := [];
    bot.AddClient(session);
    var again := bot.SendMessage(Some(SendMessageParams(ChatID(1), "y", None, 0)), {});
    assert again.Ok? && again.value.messageID == 2;
    assert session.received == [Payload(SendMessageParams(ChatID(1), "y", None, 0), 2)];
  }
}
