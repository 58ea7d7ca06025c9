/**
 * The older message handler (events/handlers/messages.js): after the common filter,
 * a text that starts with `!` is matched case-insensitively against five commands,
 * and any other text is acknowledged. Every message that passes the filter gets
 * exactly one reply, quoted in the chat it came from.
 */
module LegacyRouter {
  import opened Wrappers
  import opened Text
  import opened Inbound

  datatype Reply = Reply(chatId: string, text: string)

  const UnknownCommandText: string := "❓ أمر غير معروف. اكتب `!help` لمعرفة الأوامر."
  const EchoUsageText: string := "اكتب هكذا: `!echo نص`"
  const ReceiptPrefix: string := "🤖 تم استلام رسالتك: "
  const HelpText: string := Join([
    "🤖 *Nexos Bot Commands*",
    "",
    "!ping  — قياس الاستجابة",
    "!time  — وقت الخادم",
    "!id    — معرف المحادثة والمرسل",
    "!echo <نص> — يكرر النص",
    "!help  — هذه القائمة"], "\n")

  /** The five commands the switch knows, already lower-cased. */
  const KnownCommands: set<string> := {"!ping", "!time", "!id", "!echo", "!help"}

  /** The first whitespace token of a text, and the remaining tokens joined by single spaces. */
  function CommandOf(text: string): string
  {
    SplitWs(text)[0]
  }

  function ArgText(text: string): string
  {
    Join(SplitWs(text)[1..], " ")
  }

  /** The reply of the `!` switch to a lower-cased command token. */
  function CommandReply(cmd: string, argText: string, inc: Incoming, clock: Clock): (r: string)
    ensures r != ""
    ensures cmd !in KnownCommands ==> r == UnknownCommandText
    ensures cmd == "!echo" && argText != "" ==> r == argText
  {
    if cmd == "!ping" then "🏓 Pong! ~" + NatToString(LatencyMs(inc.msg.timestamp, clock.nowMs, clock.laterMs)) + "ms"
    else if cmd == "!time" then "🕒 Server Time: " + clock.serverTime
    else if cmd == "!id" then
      "🆔 Chat: " + inc.chatId + "\n👤 Sender: " + inc.senderId + "\n👥 Group: " + (if inc.isGroup then "Yes" else "No")
    else if cmd == "!echo" then (if argText == "" then EchoUsageText else argText)
    else if cmd == "!help" then HelpText
    else UnknownCommandText
  }

  /** The `messages.upsert` handler as a function from a batch to its one reply, if any. */
  function HandleUpsert(messages: seq<Message>, clock: Clock): (r: Option<Reply>)
    ensures r.Some? <==> Accept(messages).Some?
    ensures r.Some? ==> r.value.chatId == messages[0].key.remoteJid
  {
    match Accept(messages)
    case None => None
    case Some(inc) =>
      if StartsWith(inc.text, "!") then
        Some(Reply(inc.chatId, CommandReply(Lower(CommandOf(inc.text)), ArgText(inc.text), inc, clock)))
      else
        Some(Reply(inc.chatId, ReceiptPrefix + inc.text))
  }

  /** Filtered batches (empty, status broadcast, own message, blank text) get no reply. */
  lemma FilteredGetNoReply(messages: seq<Message>, clock: Clock)
    requires || messages == []
             || messages[0].key.remoteJid == StatusBroadcast
             || messages[0].key.fromMe
             || Trim(Body(messages[0].content)) == ""
    ensures HandleUpsert(messages, clock) == None
  {
  }

  /** A text that does not start with `!` is acknowledged with the trimmed text itself. */
  lemma PlainTextReceipt(messages: seq<Message>, clock: Clock)
    requires Accept(messages).Some? && !StartsWith(Accept(messages).value.text, "!")
    ensures HandleUpsert(messages, clock) ==
      Some(Reply(messages[0].key.remoteJid, ReceiptPrefix + Trim(Body(messages[0].content))))
  {
  }

  /** Any `!` token outside the five commands, in any letter case, gets the unknown-command reply. */
  lemma UnknownCommand(messages: seq<Message>, clock: Clock)
    requires Accept(messages).Some?
    requires StartsWith(Accept(messages).value.text, "!")
    requires Lower(CommandOf(Accept(messages).value.text)) !in KnownCommands
    ensures HandleUpsert(messages, clock).value.text == UnknownCommandText
  {
    var inc := Accept(messages).value;
    CommandBranch(messages, clock);
    UnknownReply(Lower(CommandOf(inc.text)), ArgText(inc.text), inc, clock);
  }

  /** A text starting with `!` is answered by the switch on its lower-cased first token. */
  lemma CommandBranch(messages: seq<Message>, clock: Clock)
    requires Accept(messages).Some? && StartsWith(Accept(messages).value.text, "!")
    ensures var inc := Accept(messages).value;
      HandleUpsert(messages, clock) ==
        Some(Reply(inc.chatId, CommandReply(Lower(CommandOf(inc.text)), ArgText(inc.text), inc, clock)))
  {
  }

  lemma UnknownReply(cmd: string, argText: string, inc: Incoming, clock: Clock)
    requires cmd !in KnownCommands
    ensures CommandReply(cmd, argText, inc, clock) == UnknownCommandText
  {
  }

  /**
   * The commands match case-insensitively: any spelling whose lower case is `!ping`,
   * `!PING` and `!PiNg` among them, gets the latency reply.
   */
  lemma PingInAnyCase(messages: seq<Message>, clock: Clock)
    requires Accept(messages).Some?
    requires StartsWith(Accept(messages).value.text, "!")
    requires Lower(CommandOf(Accept(messages).value.text)) == "!ping"
    ensures HandleUpsert(messages, clock).value.text ==
      "🏓 Pong! ~" + NatToString(LatencyMs(messages[0].timestamp, clock.nowMs, clock.laterMs)) + "ms"
  {
    CommandBranch(messages, clock);
  }

  lemma PingSpellings()
    ensures Lower("!PING") == "!ping" && Lower("!PiNg") == "!ping"
  {
  }

  /** `!echo` followed by words replies with exactly those words, joined by single spaces. */
  lemma {:induction false} EchoRepliesWords(words: seq<string>, inc: Incoming, clock: Clock)
    requires |words| >= 1 && Lower(words[0]) == "!echo"
    requires forall k :: 0 <= k < |words| ==> words[k] != [] && NoSpaces(words[k])
    requires inc.text == Join(words, " ")
    ensures CommandReply(Lower(CommandOf(inc.text)), ArgText(inc.text), inc, clock) ==
      (if |words| == 1 then EchoUsageText else Join(words[1..], " "))
  {
    SplitWsJoin(words);
    if |words| > 1 {
      JoinWordsStart(words[1..]);
    }
  }
}
