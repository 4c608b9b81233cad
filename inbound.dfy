/**
 * The inbound pipeline of one session, as values: classifying a decoded client frame, building
 * the update it yields (a callback query or a text message with its command entity), and
 * drawing ids from the two process-wide counters, here passed in and returned.
 */
module Inbound {
  import opened Base
  import opened Types
  import opened Util
  import Strconv
  import Strings

  /**
   * A client frame (`clientPayload`) that `json.Unmarshal` accepted. An omitted string field
   * is "", an omitted or null loosely typed field is `Absent`, and a JSON number arrives as a float.
   */
  datatype Frame = Frame(chatID: Value, text: string, messageID: Value, callbackData: string)

  /** What the read loop gets from one frame of the socket: a payload that did not decode, or the decoded frame. */
  datatype Decoded = Malformed | Parsed(frame: Frame)

  datatype FrameKind = CallbackFrame | TextFrame | IgnoredFrame

  /** Non-empty callback data wins over text; a frame with neither, or one that did not decode, is ignored. */
  function Classify(d: Decoded): (k: FrameKind)
    ensures k == CallbackFrame <==> d.Parsed? && d.frame.callbackData != ""
    ensures k == TextFrame <==> d.Parsed? && d.frame.callbackData == "" && d.frame.text != ""
  {
    match d
    case Malformed => IgnoredFrame
    case Parsed(f) =>
      if f.callbackData != "" then CallbackFrame
      else if f.text != "" then TextFrame
      else IgnoredFrame
  }

  /** The chat id as the read loop uses it: the strict normalizer's value, with its error discarded. */
  function ChatIDOf(v: Value): (id: Int64)
    ensures ParseChatID(v).Ok? ==> id == ParseChatID(v).value
    ensures ParseChatID(v).Err? ==> id == 0
  {
    match ParseChatID(v)
    case Ok(i) => i
    case Err(_) => 0
  }

  const BotCommand: string := "bot_command"

  /** `indexOfSpace`: the index of the first space byte, or -1; no other whitespace counts. */
  function IndexOfSpace(s: string): (r: int)
    ensures -1 <= r < |s|
    ensures r == -1 <==> ' ' !in s
    ensures 0 <= r ==> r < |s| && s[r] == ' ' && ' ' !in s[..r]
  {
    Strings.IndexByte(s, ' ')
  }

  /** A text that carries a command: a `/` followed by at least one byte before any space. */
  predicate IsCommandText(text: string) {
    |text| >= 2 && text[0] == '/' && text[1] != ' '
  }

  /** The entities of a message's text: one `bot_command` from offset 0 up to the first space or the end. */
  function CommandEntities(text: string): (es: seq<MessageEntity>)
    ensures |es| <= 1
    ensures |es| == 1 <==> IsCommandText(text)
    ensures |es| == 1 ==>
              && es[0].kind == BotCommand && es[0].offset == 0
              && 1 < es[0].length <= |text|
              && ' ' !in text[..es[0].length]
              && (es[0].length == |text| || text[es[0].length] == ' ')
  {
    if |text| > 0 && text[0] == '/' then
      var sp := IndexOfSpace(text);
      var end := if sp != -1 then sp else |text|;
      if end > 1 then
        assert end == |text| ==> text[..end] == text;
        [MessageEntity(BotCommand, 0, end)]
      else []
    else []
  }

  /** The callback query id "cb-<now>-<message id>", from the clock reading in nanoseconds and the message id. */
  function CallbackID(now: Int64, msgID: Int64): (id: string)
    ensures |id| > 3 && id[..3] == "cb-"
  {
    "cb-" + Strconv.FormatInt(now) + "-" + Strconv.FormatInt(msgID)
  }

  /**
   * Reads the clock reading and the message id back out of a callback query id: "cb-" and then
   * the two numbers of `NumberFields`.
   */
  function CallbackIDFields(id: string): Option<(Int64, Int64)> {
    if |id| < 3 || id[..3] != "cb-" then None else NumberFields(id[3..])
  }

  /** Two base-10 numbers joined by a `-`; the first may carry its own leading `-`. */
  function NumberFields(t: string): Option<(Int64, Int64)> {
    var start := if |t| > 0 && t[0] == '-' then 1 else 0;
    var k := Strings.IndexByte(t[start..], '-');
    if k == -1 then None
    else
      var cut := start + k;
      match (Strconv.ParseInt(t[..cut]), Strconv.ParseInt(t[cut + 1..]))
      case (Ok(a), Ok(b)) => Some((a, b))
      case _ => None
  }

  /** After an optional `-` and some dash-free text, the first `-` is the one that follows that text. */
  lemma SignedTextThenDash(sign: string, digits: string, rest: string)
    requires sign == "" || sign == "-"
    requires |digits| > 0 && '-' !in digits
    ensures var t := sign + digits + "-" + rest;
      var start := if t[0] == '-' then 1 else 0;
      start + Strings.IndexByte(t[start..], '-') == |sign| + |digits|
  {
    var t := sign + digits + "-" + rest;
    if sign == "-" {
      assert t[0] == '-' && t[1..] == digits + "-" + rest;
    } else {
      assert t[0] == digits[0] && t == digits + "-" + rest;
    }
    Strings.IndexByteAfterPrefix(digits, '-', rest);
  }

  /** A number's `%d` text followed by a `-`: the first `-` past the optional sign is the one after the number. */
  lemma SignedNumberThenDash(x: Int64, rest: string)
    ensures var t := Strconv.FormatInt(x) + "-" + rest;
      var start := if t[0] == '-' then 1 else 0;
      start + Strings.IndexByte(t[start..], '-') == |Strconv.FormatInt(x)|
  {
    var n: nat := if x < 0 then -(x as int) else x as int;
    var digits := Strconv.FormatNat(n);
    var sign := if x < 0 then "-" else "";
    assert Strconv.FormatInt(x) == sign + digits;
    assert forall i | 0 <= i < |digits| :: digits[i] != '-';
    SignedTextThenDash(sign, digits, rest);
  }

  lemma NumberFieldsRoundTrip(now: Int64, msgID: Int64)
    ensures NumberFields(Strconv.FormatInt(now) + "-" + Strconv.FormatInt(msgID)) == Some((now, msgID))
  {
    var a, b := Strconv.FormatInt(now), Strconv.FormatInt(msgID);
    var t := a + "-" + b;
    SignedNumberThenDash(now, b);
    assert t[..|a|] == a;
    assert t[|a| + 1..] == b;
    Strconv.FormatParseRoundTrip(now);
    Strconv.FormatParseRoundTrip(msgID);
  }

  /** A callback query id's fields are the number fields after its "cb-". */
  lemma CallbackIDFieldsAfterPrefix(t: string)
    ensures CallbackIDFields("cb-" + t) == NumberFields(t)
  {
    assert ("cb-" + t)[..3] == "cb-" && ("cb-" + t)[3..] == t;
  }

  /** Reading a callback query id back gives the clock reading and the message id it was made from. */
  lemma CallbackIDRoundTrip(now: Int64, msgID: Int64)
    ensures CallbackIDFields(CallbackID(now, msgID)) == Some((now, msgID))
  {
    var t := Strconv.FormatInt(now) + "-" + Strconv.FormatInt(msgID);
    assert CallbackID(now, msgID) == "cb-" + t;
    CallbackIDFieldsAfterPrefix(t);
    NumberFieldsRoundTrip(now, msgID);
  }

  /** Callback query ids are distinct for distinct clock readings or message ids. */
  lemma CallbackIDInjective(now1: Int64, msgID1: Int64, now2: Int64, msgID2: Int64)
    requires CallbackID(now1, msgID1) == CallbackID(now2, msgID2)
    ensures now1 == now2 && msgID1 == msgID2
  {
    CallbackIDRoundTrip(now1, msgID1);
    CallbackIDRoundTrip(now2, msgID2);
  }

  /** The update of a callback frame; its message id is the lenient one as it stands, 0 included. */
  function CallbackUpdate(f: Frame, updID: Int64, now: Int64): (u: Update)
    ensures u.updateID == updID && IsCallbackUpdateOf(u, f, now)
  {
    var chatID := ChatIDOf(f.chatID);
    var msgID := ParseToInt64(f.messageID);
    var msg := Message(msgID, Some(User(chatID, "")), Chat(chatID), f.text, []);
    Update(updID, None, Some(CallbackQuery(CallbackID(now, msgID), Some(User(chatID, "")), Some(msg), f.callbackData)))
  }

  /** The update of a text frame, given the message id it was assigned. */
  function TextUpdate(f: Frame, updID: Int64, msgID: Int64): (u: Update)
    ensures u.updateID == updID && IsTextUpdateOf(u, f, msgID)
  {
    var chatID := ChatIDOf(f.chatID);
    Update(updID, Some(Message(msgID, Some(User(chatID, "")), Chat(chatID), f.text, CommandEntities(f.text))), None)
  }

  /** The two process-wide counters `nextUpdID` and `nextMsgID`. */
  datatype Counters = Counters(nextUpdID: Int64, nextMsgID: Int64)

  /** The update a frame yields, if any, and the counters after it. */
  datatype Outcome = Outcome(update: Option<Update>, counters: Counters)

  /**
   * The message id of a text frame: the lenient one unless it is 0, in which case a fresh one is
   * drawn. A text message therefore never has id 0, except when the counter wraps from -1.
   */
  function TextMessageID(f: Frame, c: Counters): (id: Int64)
    ensures ParseToInt64(f.messageID) != 0 ==> id == ParseToInt64(f.messageID)
    ensures id == 0 ==> ParseToInt64(f.messageID) == 0 && c.nextMsgID == -1
    ensures ParseToInt64(f.messageID) == 0 ==> id == AddOne(c.nextMsgID)
  {
    if ParseToInt64(f.messageID) != 0 then ParseToInt64(f.messageID) else AddOne(c.nextMsgID)
  }

  /** The callback path's update, as the gateway promises it. */
  predicate IsCallbackUpdateOf(u: Update, f: Frame, now: Int64) {
    var chatID := ChatIDOf(f.chatID);
    && u.message.None? && u.callbackQuery.Some?
    && var q := u.callbackQuery.value;
    && q.data == f.callbackData
    && q.id == CallbackID(now, ParseToInt64(f.messageID))
    && q.from == Some(User(chatID, ""))
    && q.message.Some?
    && q.message.value.messageID == ParseToInt64(f.messageID)
    && q.message.value.chat == Chat(chatID)
    && q.message.value.from == Some(User(chatID, ""))
    && q.message.value.text == f.text
    && q.message.value.entities == []
  }

  /** The text path's update, as the gateway promises it. */
  predicate IsTextUpdateOf(u: Update, f: Frame, msgID: Int64) {
    var chatID := ChatIDOf(f.chatID);
    && u.callbackQuery.None? && u.message.Some?
    && u.message.value.messageID == msgID
    && u.message.value.chat == Chat(chatID)
    && u.message.value.from == Some(User(chatID, ""))
    && u.message.value.text == f.text
    && u.message.value.entities == CommandEntities(f.text)
  }

  /**
   * One iteration of the read loop on an already decoded frame, with the clock reading `now`.
   * Only the frames that yield an update touch the counters: each update takes the next update id,
   * and only a text frame without a usable message id takes the next message id.
   */
  function Step(d: Decoded, now: Int64, c: Counters): (r: Outcome)
    ensures r.update.None? <==> Classify(d) == IgnoredFrame
    ensures r.update.None? ==> r.counters == c
    ensures r.update.Some? ==>
              && r.update.value.updateID == AddOne(c.nextUpdID)
              && r.counters.nextUpdID == AddOne(c.nextUpdID)
              && (r.update.value.message.Some? != r.update.value.callbackQuery.Some?)
    ensures Classify(d) == CallbackFrame ==>
              IsCallbackUpdateOf(r.update.value, d.frame, now) && r.counters.nextMsgID == c.nextMsgID
    ensures Classify(d) == TextFrame ==>
              && IsTextUpdateOf(r.update.value, d.frame, TextMessageID(d.frame, c))
              && r.counters.nextMsgID == (if ParseToInt64(d.frame.messageID) != 0 then c.nextMsgID else AddOne(c.nextMsgID))
  {
    match Classify(d)
    case IgnoredFrame => Outcome(None, c)
    case CallbackFrame =>
      var updID := AddOne(c.nextUpdID);
      Outcome(Some(CallbackUpdate(d.frame, updID, now)), Counters(updID, c.nextMsgID))
    case TextFrame =>
      var msgID := TextMessageID(d.frame, c);
      var nextMsgID := if ParseToInt64(d.frame.messageID) != 0 then c.nextMsgID else msgID;
      var updID := AddOne(c.nextUpdID);
      Outcome(Some(TextUpdate(d.frame, updID, msgID)), Counters(updID, nextMsgID))
  }

  /** The updates a run of frames yields, in frame order, and the counters after the run. */
  datatype RunResult = RunResult(updates: seq<Update>, counters: Counters)

  function Run(ds: seq<Decoded>, clock: seq<Int64>, c: Counters): (r: RunResult)
    requires |clock| == |ds|
    ensures |r.updates| <= |ds|
    ensures forall k | 0 <= k < |r.updates| :: r.updates[k].message.Some? != r.updates[k].callbackQuery.Some?
    decreases |ds|
  {
    if ds == [] then RunResult([], c)
    else
      var prev := Run(ds[..|ds| - 1], clock[..|ds| - 1], c);
      var o := Step(ds[|ds| - 1], clock[|ds| - 1], prev.counters);
      RunResult(prev.updates + (if o.update.Some? then [o.update.value] else []), o.counters)
  }

  /** A run one frame longer is the shorter run followed by one `Step`. */
  lemma RunAppend(ds: seq<Decoded>, clock: seq<Int64>, c: Counters, i: nat)
    requires |clock| == |ds| && i < |ds|
    ensures var prev := Run(ds[..i], clock[..i], c);
      var o := Step(ds[i], clock[i], prev.counters);
      Run(ds[..i + 1], clock[..i + 1], c) ==
        RunResult(prev.updates + (if o.update.Some? then [o.update.value] else []), o.counters)
  {
    assert ds[..i + 1][..i] == ds[..i];
    assert clock[..i + 1][..i] == clock[..i];
  }

  /**
   * Along a run of frames that does not reach the top of the counter, update ids are strictly
   * increasing, lie above the starting counter, and the counter ends at the last one issued.
   */
  lemma {:induction false} RunUpdateIDsIncrease(ds: seq<Decoded>, clock: seq<Int64>, c: Counters)
    requires |clock| == |ds|
    requires c.nextUpdID + |ds| <= MaxInt64
    ensures var r := Run(ds, clock, c);
      && |r.updates| <= |ds|
      && r.counters.nextUpdID == c.nextUpdID + |r.updates|
      && (forall i | 0 <= i < |r.updates| :: r.updates[i].updateID == c.nextUpdID + i + 1)
      && (forall i, j | 0 <= i < j < |r.updates| :: r.updates[i].updateID < r.updates[j].updateID)
    decreases |ds|
  {
    if ds != [] {
      RunUpdateIDsIncrease(ds[..|ds| - 1], clock[..|ds| - 1], c);
    }
  }

  /** Frames that are all ignored yield no update and leave both counters as they were. */
  lemma {:induction false} RunOfIgnoredFrames(ds: seq<Decoded>, clock: seq<Int64>, c: Counters)
    requires |clock| == |ds|
    requires forall i | 0 <= i < |ds| :: Classify(ds[i]) == IgnoredFrame
    ensures Run(ds, clock, c) == RunResult([], c)
    decreases |ds|
  {
    if ds != [] {
      var init := ds[..|ds| - 1];
      assert forall i | 0 <= i < |init| :: init[i] == ds[i];
      RunOfIgnoredFrames(init, clock[..|ds| - 1], c);
      assert Classify(ds[|ds| - 1]) == IgnoredFrame;
    }
  }
}
