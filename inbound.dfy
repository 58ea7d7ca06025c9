/**
 * The shape of an inbound chat message and the front of both message routers:
 * only the first message of a batch is examined, status broadcasts and the bot's
 * own messages are dropped, and the text is taken from the first non-empty
 * content field in a fixed order and trimmed.
 */
module Inbound {
  import opened Wrappers
  import opened Text

  /** `msg.key`: the chat, whether the bot sent it, and the group participant ("" when absent). */
  datatype Key = Key(remoteJid: string, fromMe: bool, participant: string)

  /** The text-bearing fields of `msg.message`; "" stands for a missing field. */
  datatype Content = Content(
    conversation: string,
    extendedText: string,
    imageCaption: string,
    videoCaption: string,
    documentCaption: string,
    buttonsReply: string,
    templateReply: string)

  /** One message; `timestamp` is `messageTimestamp` in seconds, 0 when missing. */
  datatype Message = Message(key: Key, content: Content, timestamp: int)

  /**
   * Clock readings and their locale renderings, supplied from outside. `nowMs` is the
   * first `Date.now()` a branch reads and `laterMs` the second one the ping commands read.
   */
  datatype Clock = Clock(nowMs: int, laterMs: int, adenTime: string, serverTime: string)

  const StatusBroadcast: string := "status@broadcast"

  /** The content fields in the order the routers consult them. */
  function Fields(c: Content): seq<string>
  {
    [c.conversation, c.extendedText, c.imageCaption, c.videoCaption,
     c.documentCaption, c.buttonsReply, c.templateReply]
  }

  /** The first non-empty string of a list, or "". */
  function FirstNonEmpty(fs: seq<string>): (b: string)
    ensures b == "" ==> forall i :: 0 <= i < |fs| ==> fs[i] == ""
    ensures b != "" ==> exists i :: 0 <= i < |fs| && fs[i] == b && forall j :: 0 <= j < i ==> fs[j] == ""
  {
    if fs == [] then ""
    else if fs[0] != "" then fs[0]
    else
      var b := FirstNonEmpty(fs[1..]);
      assert b != "" ==> exists i :: 0 <= i < |fs| && fs[i] == b && forall j :: 0 <= j < i ==> fs[j] == "" by {
        if b != "" {
          var i :| 0 <= i < |fs[1..]| && fs[1..][i] == b && forall j :: 0 <= j < i ==> fs[1..][j] == "";
          assert fs[i + 1] == b;
          assert forall j :: 0 <= j < i + 1 ==> fs[j] == "" by {
            forall j | 0 <= j < i + 1 ensures fs[j] == "" {
              if j > 0 { assert fs[j] == fs[1..][j - 1]; }
            }
          }
        }
      }
      b
  }

  /** The message body: the first non-empty field in priority order. */
  function Body(c: Content): string
  {
    FirstNonEmpty(Fields(c))
  }

  /** A conversation text always takes priority over every other field. */
  lemma ConversationFirst(c: Content)
    requires c.conversation != ""
    ensures Body(c) == c.conversation
  {
  }

  /** A field is used only when every field before it is empty. */
  lemma BodyPriority(c: Content, i: nat)
    requires i < |Fields(c)| && Fields(c)[i] != ""
    requires forall j :: 0 <= j < i ==> Fields(c)[j] == ""
    ensures Body(c) == Fields(c)[i]
  {
    var fs := Fields(c);
    var b := Body(c);
    var i' :| 0 <= i' < |fs| && fs[i'] == b && forall j :: 0 <= j < i' ==> fs[j] == "";
    assert fs[i'] != "" && fs[i] != "";
    assert i' == i;
  }

  predicate IsGroup(chatId: string)
  {
    EndsWith(chatId, "@g.us")
  }

  /** `(participant || remoteJid || "").split(":")[0]`. */
  function SenderId(key: Key): (s: string)
    ensures ':' !in s
    ensures StartsWith(if key.participant != "" then key.participant else key.remoteJid, s)
    ensures var raw := if key.participant != "" then key.participant else key.remoteJid;
      |s| == |raw| || raw[|s|] == ':'
  {
    var raw := if key.participant != "" then key.participant else key.remoteJid;
    var parts := Split(raw, ':');
    assert parts[0] == raw[..IndexOf(raw, ':')];
    parts[0]
  }

  /**
   * A participant `user:device@server` is the user; without a participant the chat id
   * is used the same way.
   */
  lemma SenderIdOfDevice(user: string, device: string, remoteJid: string, fromMe: bool)
    requires ':' !in user
    ensures SenderId(Key(remoteJid, fromMe, user + ":" + device)) == user
    ensures user != "" ==> SenderId(Key(remoteJid, fromMe, user)) == user
    ensures SenderId(Key(user, fromMe, "")) == user
  {
    IndexOfPrefix(user, ":" + device, ':');
    assert user + ":" + device == user + (":" + device);
    IndexOfUpTo(user, ':');
  }

  /** What both routers know about a message that passed the filter. */
  datatype Incoming = Incoming(msg: Message, chatId: string, senderId: string, isGroup: bool, text: string)

  /** The filter and the text extraction shared by both routers. */
  function Accept(messages: seq<Message>): (r: Option<Incoming>)
    ensures r.Some? <==>
      && messages != []
      && messages[0].key.remoteJid != StatusBroadcast
      && !messages[0].key.fromMe
      && Trim(Body(messages[0].content)) != ""
    ensures r.Some? ==>
      && r.value.msg == messages[0]
      && r.value.chatId == messages[0].key.remoteJid
      && r.value.isGroup == IsGroup(messages[0].key.remoteJid)
      && r.value.senderId == SenderId(messages[0].key)
      && r.value.text == Trim(Body(messages[0].content))
      && r.value.text != "" && IsTrimmed(r.value.text)
  {
    if messages == [] then None
    else
      var msg := messages[0];
      if msg.key.remoteJid == StatusBroadcast || msg.key.fromMe then None
      else
        var text := Trim(Body(msg.content));
        if text == "" then None
        else Some(Incoming(msg, msg.key.remoteJid, SenderId(msg.key), IsGroup(msg.key.remoteJid), text))
  }

  /** Only the first message of a batch matters: the rest of the batch never changes the outcome. */
  lemma OnlyFirstMessage(messages: seq<Message>, more: seq<Message>)
    requires messages != []
    ensures Accept(messages + more) == Accept(messages[..1])
  {
    assert (messages + more)[0] == messages[..1][0];
  }

  /**
   * The reported latency of a ping. The clock is read twice: the first reading gives the
   * current second when the message carries no time, the second is what the message time
   * is subtracted from. A negative difference is shown as 0.
   */
  function LatencyMs(timestamp: int, firstMs: int, secondMs: int): nat
  {
    var ts := (if timestamp != 0 then timestamp else firstMs / 1000) * 1000;
    var latency := secondMs - ts;
    if latency >= 0 then latency else 0
  }

  /**
   * Without a message time the latency is the second reading minus the start of the
   * first reading's second: the part of that second already elapsed at the first
   * reading plus the time between the readings. It stays below 1000 exactly when both
   * readings fall in the same second.
   */
  lemma LatencyWithoutTimestamp(firstMs: int, secondMs: int)
    requires firstMs <= secondMs
    ensures LatencyMs(0, firstMs, secondMs) == firstMs % 1000 + (secondMs - firstMs)
    ensures LatencyMs(0, firstMs, secondMs) < 1000 <==> secondMs / 1000 == firstMs / 1000
  {
  }

  /** Readings 999 and 1000 straddle a second, so a message without a time reports 1000. */
  lemma LatencyAcrossSecond()
    ensures LatencyMs(0, 999, 1000) == 1000
  {
    LatencyWithoutTimestamp(999, 1000);
  }

  /** With a message time only the second reading matters: a past time gives exactly the elapsed milliseconds, a future one 0. */
  lemma LatencyWithTimestamp(timestamp: int, firstMs: int, secondMs: int)
    requires timestamp != 0
    ensures secondMs >= timestamp * 1000 ==> LatencyMs(timestamp, firstMs, secondMs) == secondMs - timestamp * 1000
    ensures secondMs < timestamp * 1000 ==> LatencyMs(timestamp, firstMs, secondMs) == 0
  {
  }
}
