/**
 * The current message router (handlers/messages.js). For the first message of a
 * batch it runs, in order: the common filter and text extraction, the administrator's
 * ignore / allow / list sub-commands, the per-chat ignore check, the command registry,
 * a built-in Arabic switch, the keyword table, and a default hint sent to private
 * chats at most once per 24 hours. Each call yields at most one action.
 */
module Router {
  import opened Wrappers
  import opened Text
  import opened Inbound
  import opened CommandLoader

  /** HINT_INTERVAL_MS: 24 hours. */
  const HintIntervalMs: int := 24 * 60 * 60 * 1000

  /** DEFAULT_HINT_TEXT: four lines joined by line feeds. */
  const DefaultHintText: string :=
    "👋 أهلاً وسهلاً! أنا بوت واتساب تابع للمطوّر *بسام حميد*.\n\nلعرض الأوامر: أرسل *مساعدة*.\nولو عندك استفسار للدعم، اكتب رسالتك الآن وأنا أوصلها. 🙏"

  /** The built-in help: seven lines joined by line feeds. */
  const BuiltinHelpText: string :=
    "🤖 *قائمة الأوامر*\n\n👋 مرحبا — ترحيب وتعريف سريع\n🏓 اختبار — قياس الاستجابة\n🕒 الوقت — عرض الوقت الحالي\n🆔 المعرف — عرض معرفات المحادثة\n📄 مساعدة — هذه القائمة"

  /** The words added to the command-word set whenever the registry is not empty. */
  const FixedCommandWords: set<string> := {"اختبار", "الوقت", "المعرف", "مساعدة", "id"}

  const UserJidSuffix: string := "@s.whatsapp.net"

  const IgnoreWord: string := "تجاهل"
  const AllowWord: string := "سماح"
  const ListWord: string := "قائمة_التجاهل"

  const InvalidJidText: string := "❌ رقم/معرّف غير صالح."
  const IgnoredPrefix: string := "✅ تم تجاهل المحادثة: "
  const AllowedPrefix: string := "✅ أُلغي التجاهل عن: "
  const NotIgnoredText: string := "ℹ️ هذه المحادثة ليست في قائمة التجاهل."
  const EmptyListText: string := "📭 لا توجد محادثات متجاهلة."
  const ListPrefix: string := "📝 قائمة التجاهل:\n\n"

  // ===== toJid =====

  lemma {:induction false} ContainsInside(a: string, t: string, b: string)
    ensures Contains(a + t + b, t)
    decreases |a|
  {
    if a == [] {
      assert (a + t + b)[..|t|] == t;
    } else {
      assert (a + t + b)[1..] == a[1..] + t + b;
      ContainsInside(a[1..], t, b);
    }
  }

  lemma {:induction false} ContainsChar(s: string, c: char)
    ensures Contains(s, [c]) <==> c in s
    decreases |s|
  {
    if s != [] {
      ContainsChar(s[1..], c);
      assert c in s <==> s[0] == c || c in s[1..];
    }
  }

  /**
   * toJid: an empty input gives none; a trimmed input holding `@` is kept as it is;
   * otherwise the digits are kept and the user suffix appended, and an input without
   * digits gives none.
   */
  function ToJid(input: string): (r: Option<string>)
    ensures input == "" ==> r == None
    ensures r.Some? ==> Contains(r.value, "@") && IsTrimmed(r.value) && r.value != ""
    ensures input != "" && Contains(Trim(input), "@") ==> r == Some(Trim(input))
    ensures !Contains(Trim(input), "@") ==>
      (r.Some? <==> KeepDigits(Trim(input)) != "") &&
      (r.Some? ==> r.value == KeepDigits(Trim(input)) + UserJidSuffix)
  {
    if input == "" then None
    else
      var s := Trim(input);
      if Contains(s, "@") then Some(s)
      else
        var digits := KeepDigits(s);
        if digits == "" then None
        else
          UserJidFacts(digits);
          Some(digits + UserJidSuffix)
  }

  /** A run of digits with the user suffix is a trimmed chat id holding `@`. */
  lemma UserJidFacts(digits: string)
    requires digits != "" && forall k :: 0 <= k < |digits| ==> IsDigit(digits[k])
    ensures Contains(digits + UserJidSuffix, "@") && IsTrimmed(digits + UserJidSuffix)
  {
    ContainsInside(digits, "@", "s.whatsapp.net");
    assert digits + UserJidSuffix == digits + "@" + "s.whatsapp.net";
    assert (digits + UserJidSuffix)[0] == digits[0];
    assert (digits + UserJidSuffix)[|digits + UserJidSuffix| - 1] == 't';
  }

  /** toJid is idempotent: a chat id it produced is given back unchanged. */
  lemma ToJidIdempotent(input: string)
    requires ToJid(input).Some?
    ensures ToJid(ToJid(input).value) == ToJid(input)
  {
    var j := ToJid(input).value;
    TrimOfTrimmed(j);
  }

  /** A bare phone number becomes a user chat id. */
  lemma ToJidOfNumber(number: string)
    requires number != "" && forall k :: 0 <= k < |number| ==> IsDigit(number[k])
    ensures ToJid(number) == Some(number + UserJidSuffix)
  {
    assert IsTrimmed(number);
    TrimOfTrimmed(number);
    ContainsChar(number, '@');
    KeepAllDigits(number);
  }

  // ===== administrator sub-commands =====

  /**
   * The regular expression `^word\s+(.+)$` without flags: the word, at least one
   * whitespace code point, then a capture that reaches the end and holds no line
   * terminator. The whitespace run is greedy and gives back one code point only when
   * nothing follows it.
   */
  function MatchCommandArg(t: string, word: string): (r: Option<string>)
    ensures r.Some? ==> StartsWith(t, word) && r.value != ""
  {
    if !StartsWith(t, word) then None
    else
      var rest := t[|word|..];
      var k := SkipSpaces(rest, 0);
      if k == 0 then None
      else if k < |rest| then
        (if forall i :: k <= i < |rest| ==> !IsLineTerminator(rest[i]) then Some(rest[k..]) else None)
      else if k >= 2 && !IsLineTerminator(rest[k - 1]) then Some(rest[k - 1..])
      else None
  }

  /** A sub-command word, one space and an argument are matched back to that argument. */
  lemma MatchCommandArgRoundTrip(word: string, arg: string)
    requires arg != [] && !IsSpace(arg[0])
    requires forall i :: 0 <= i < |arg| ==> !IsLineTerminator(arg[i])
    ensures MatchCommandArg(word + " " + arg, word) == Some(arg)
  {
    var t := word + " " + arg;
    assert t[..|word|] == word;
    var rest := t[|word|..];
    assert rest == " " + arg;
    assert SkipSpaces(rest, 1) == 1;
    assert rest[1..] == arg;
  }

  datatype AdminCommand = IgnoreChat(arg: string) | AllowChat(arg: string) | ListIgnored

  /** The three sub-commands, tried in source order on the lower-cased text. */
  function ParseAdmin(lowerText: string): (r: Option<AdminCommand>)
    ensures r.Some? && r.value.IgnoreChat? ==> StartsWith(lowerText, IgnoreWord) && r.value.arg != ""
    ensures r.Some? && r.value.AllowChat? ==> StartsWith(lowerText, AllowWord) && r.value.arg != ""
    ensures r == Some(ListIgnored) ==> lowerText == ListWord
  {
    match MatchCommandArg(lowerText, IgnoreWord)
    case Some(a) => Some(IgnoreChat(a))
    case None =>
      match MatchCommandArg(lowerText, AllowWord)
      case Some(a) => Some(AllowChat(a))
      case None => if lowerText == ListWord then Some(ListIgnored) else None
  }

  /** The sender counts as the administrator when the configured digits occur in its id or in the chat id. */
  predicate AdminIsSender(adminWa: string, senderId: string, chatId: string)
  {
    adminWa != "" && (Contains(senderId, adminWa) || Contains(chatId, adminWa + UserJidSuffix))
  }

  /**
   * An unset administrator number admits nobody. A set one admits any sender id holding
   * its digits, and anyone writing in the administrator's own private chat.
   */
  lemma AdminRecognised(adminWa: string, before: string, after: string, senderId: string, chatId: string)
    ensures !AdminIsSender("", senderId, chatId)
    ensures adminWa != "" ==> AdminIsSender(adminWa, before + adminWa + after, chatId)
    ensures adminWa != "" ==> AdminIsSender(adminWa, senderId, adminWa + UserJidSuffix)
  {
    ContainsInside(before, adminWa, after);
    ContainsInside([], adminWa + UserJidSuffix, []);
    assert [] + (adminWa + UserJidSuffix) + [] == adminWa + UserJidSuffix;
  }

  // ===== one routing step =====

  /** What the router does: send a quoted text reply, or hand the message to a registered command. */
  datatype Action =
    | Reply(chatId: string, text: string)
    | RunCommand(command: Command, args: seq<string>, chatId: string, senderId: string, isGroup: bool)

  /**
   * What a message event sees of the world: the clock, the keyword table, the rendered
   * ignore listing, and whether a hint reply is delivered (a failed send leaves the
   * throttle as it was).
   */
  datatype RouterEnv = RouterEnv(clock: Clock, keywords: map<string, string>, ignoreListing: string, hintDelivered: bool)

  /** Fixed for the life of one registration: the registry, the command words and the administrator's digits. */
  datatype Config = Config(commands: map<string, Command>, commandWords: set<string>, adminWa: string)

  /** The actions of one event and the new ignore set and throttle map. */
  datatype Outcome = Outcome(actions: seq<Action>, ignored: set<string>, hintLastSent: map<string, int>)

  /** An administrator sub-command: its one reply and the new ignore set. */
  function AdminStep(cmd: AdminCommand, ignored: set<string>, chatId: string, listing: string, thr: map<string, int>): (o: Outcome)
    ensures |o.actions| == 1 && o.actions[0].Reply? && o.actions[0].chatId == chatId
    ensures o.hintLastSent == thr
  {
    match cmd
    case IgnoreChat(arg) => IgnoreStep(ToJid(arg), ignored, chatId, thr)
    case AllowChat(arg) => AllowStep(ToJid(arg), ignored, chatId, thr)
    case ListIgnored =>
      if ignored == {} then Outcome([Reply(chatId, EmptyListText)], ignored, thr)
      else Outcome([Reply(chatId, ListPrefix + listing)], ignored, thr)
  }

  /** The ignore sub-command once its argument has become a chat id, or failed to. */
  function IgnoreStep(jid: Option<string>, ignored: set<string>, chatId: string, thr: map<string, int>): (o: Outcome)
    ensures |o.actions| == 1 && o.actions[0].Reply? && o.actions[0].chatId == chatId
    ensures o.hintLastSent == thr
  {
    match jid
    case None => Outcome([Reply(chatId, InvalidJidText)], ignored, thr)
    case Some(j) => Outcome([Reply(chatId, IgnoredPrefix + j)], ignored + {j}, thr)
  }

  /** The allow sub-command once its argument has become a chat id, or failed to. */
  function AllowStep(jid: Option<string>, ignored: set<string>, chatId: string, thr: map<string, int>): (o: Outcome)
    ensures |o.actions| == 1 && o.actions[0].Reply? && o.actions[0].chatId == chatId
    ensures o.hintLastSent == thr
  {
    match jid
    case None => Outcome([Reply(chatId, InvalidJidText)], ignored, thr)
    case Some(j) =>
      if j in ignored then Outcome([Reply(chatId, AllowedPrefix + j)], ignored - {j}, thr)
      else Outcome([Reply(chatId, NotIgnoredText)], ignored, thr)
  }

  /** The lower-cased first whitespace token of the text. */
  function FirstWord(text: string): string
  {
    Lower(SplitWs(text)[0])
  }

  /** The fallback switch on the first word. */
  function BuiltinReply(first: string, inc: Incoming, clock: Clock): (r: Option<string>)
    ensures r.Some? <==> first in {"اختبار", "الوقت", "المعرف", "id", "مساعدة"}
    ensures first == "مساعدة" ==> r == Some(BuiltinHelpText)
  {
    if first == "اختبار" then
      Some("🏓 اختبار الاستجابة: ~" + NatToString(LatencyMs(inc.msg.timestamp, clock.nowMs, clock.laterMs)) + " ملّي ثانية")
    else if first == "الوقت" then Some("🕒 الوقت الحالي: " + clock.adenTime)
    else if first == "المعرف" || first == "id" then
      Some("🆔 المحادثة: " + inc.chatId + "\n👤 المرسل: " + inc.senderId + "\n👥 مجموعة: " + (if inc.isGroup then "نعم" else "لا"))
    else if first == "مساعدة" then Some(BuiltinHelpText)
    else None
  }

  predicate KeywordHit(cfg: Config, lowerText: string, env: RouterEnv)
  {
    lowerText !in cfg.commandWords && lowerText in env.keywords && env.keywords[lowerText] != ""
  }

  /** `defaultHintLastSent.get(chatId) || 0`. */
  function LastSent(thr: map<string, int>, chatId: string): int
  {
    if chatId in thr then thr[chatId] else 0
  }

  predicate HintDue(thr: map<string, int>, chatId: string, nowMs: int)
  {
    nowMs - LastSent(thr, chatId) >= HintIntervalMs
  }

  /** The message falls through registry, switch and keywords to the default-hint step, and a hint is due. */
  predicate TakesHintBranch(cfg: Config, inc: Incoming, thr: map<string, int>, env: RouterEnv)
  {
    && FirstWord(inc.text) !in cfg.commands
    && BuiltinReply(FirstWord(inc.text), inc, env.clock).None?
    && !KeywordHit(cfg, Lower(inc.text), env)
    && !inc.isGroup
    && HintDue(thr, inc.chatId, env.clock.nowMs)
  }

  /** Registry, built-in switch, keyword table, default hint: the first that applies. */
  function Dispatch(cfg: Config, inc: Incoming, thr: map<string, int>, env: RouterEnv): (r: (seq<Action>, map<string, int>))
    ensures |r.0| <= 1
  {
    var words := SplitWs(inc.text);
    var first := Lower(words[0]);
    var lowerText := Lower(inc.text);
    if first in cfg.commands then
      ([RunCommand(cfg.commands[first], words[1..], inc.chatId, inc.senderId, inc.isGroup)], thr)
    else
      match BuiltinReply(first, inc, env.clock)
      case Some(t) => ([Reply(inc.chatId, t)], thr)
      case None =>
        if KeywordHit(cfg, lowerText, env) then ([Reply(inc.chatId, env.keywords[lowerText])], thr)
        else if !inc.isGroup && HintDue(thr, inc.chatId, env.clock.nowMs) then
          ([Reply(inc.chatId, DefaultHintText)], if env.hintDelivered then thr[inc.chatId := env.clock.nowMs] else thr)
        else ([], thr)
  }

  /** The administrator sub-command a message carries, when its sender is the administrator. */
  function AdminCommandOf(cfg: Config, inc: Incoming): Option<AdminCommand>
  {
    if AdminIsSender(cfg.adminWa, inc.senderId, inc.chatId) then ParseAdmin(Lower(inc.text)) else None
  }

  /** One `messages.upsert` event. */
  function Route(cfg: Config, ignored: set<string>, thr: map<string, int>, messages: seq<Message>, env: RouterEnv): (o: Outcome)
    ensures |o.actions| <= 1
  {
    match Accept(messages)
    case None => Outcome([], ignored, thr)
    case Some(inc) => RouteIncoming(cfg, ignored, thr, inc, env)
  }

  /** An accepted message: administrator sub-commands first, then the ignore check, then dispatch. */
  function RouteIncoming(cfg: Config, ignored: set<string>, thr: map<string, int>, inc: Incoming, env: RouterEnv): (o: Outcome)
    ensures |o.actions| <= 1
  {
    match AdminCommandOf(cfg, inc)
    case Some(cmd) => AdminStep(cmd, ignored, inc.chatId, env.ignoreListing, thr)
    case None =>
      if inc.chatId in ignored then Outcome([], ignored, thr)
      else
        var d := Dispatch(cfg, inc, thr, env);
        Outcome(d.0, ignored, d.1)
  }

  /** The message passes the filter, carries no administrator sub-command, and its chat is not ignored. */
  predicate ReachesDispatch(cfg: Config, ignored: set<string>, messages: seq<Message>)
  {
    Accept(messages).Some? && AdminCommandOf(cfg, Accept(messages).value).None? && Accept(messages).value.chatId !in ignored
  }

  // ===== properties of one step =====

  /** A message that reaches the dispatch steps gets exactly what they produce, and the ignore set is kept. */
  lemma RouteToDispatch(cfg: Config, ignored: set<string>, thr: map<string, int>, messages: seq<Message>, env: RouterEnv)
    requires ReachesDispatch(cfg, ignored, messages)
    ensures var d := Dispatch(cfg, Accept(messages).value, thr, env);
      Route(cfg, ignored, thr, messages, env) == Outcome(d.0, ignored, d.1)
  {
  }

  /** With registry, switch and keywords all missed, dispatch is the default-hint step alone. */
  lemma DispatchToHint(cfg: Config, inc: Incoming, thr: map<string, int>, env: RouterEnv)
    requires FirstWord(inc.text) !in cfg.commands
    requires BuiltinReply(FirstWord(inc.text), inc, env.clock).None?
    requires !KeywordHit(cfg, Lower(inc.text), env)
    ensures var sent := !inc.isGroup && HintDue(thr, inc.chatId, env.clock.nowMs);
      Dispatch(cfg, inc, thr, env) ==
        (if sent then [Reply(inc.chatId, DefaultHintText)] else [],
         if sent && env.hintDelivered then thr[inc.chatId := env.clock.nowMs] else thr)
  {
  }

  /** Empty batches, status broadcasts, own messages and blank texts produce nothing and change nothing. */
  lemma FilteredIsSilent(cfg: Config, ignored: set<string>, thr: map<string, int>, messages: seq<Message>, env: RouterEnv)
    requires || messages == []
             || messages[0].key.remoteJid == StatusBroadcast
             || messages[0].key.fromMe
             || Trim(Body(messages[0].content)) == ""
    ensures Route(cfg, ignored, thr, messages, env) == Outcome([], ignored, thr)
  {
  }

  /**
   * In an ignored chat nothing is sent and nothing changes, whatever the text,
   * unless the administrator sends one of the sub-commands.
   */
  lemma IgnoredChatIsSilent(cfg: Config, ignored: set<string>, thr: map<string, int>, messages: seq<Message>, env: RouterEnv)
    requires Accept(messages).Some? && messages[0].key.remoteJid in ignored
    requires !AdminIsSender(cfg.adminWa, SenderId(messages[0].key), messages[0].key.remoteJid)
             || ParseAdmin(Lower(Accept(messages).value.text)).None?
    ensures Route(cfg, ignored, thr, messages, env) == Outcome([], ignored, thr)
  {
  }

  /**
   * The administrator's sub-commands are answered before the ignore check, in ignored
   * chats too: the step is the sub-command's own, with one reply to the chat and the
   * throttle untouched.
   */
  lemma AdminBeforeIgnore(cfg: Config, ignored: set<string>, thr: map<string, int>, messages: seq<Message>, env: RouterEnv)
    requires Accept(messages).Some?
    requires AdminCommandOf(cfg, Accept(messages).value).Some?
    ensures Route(cfg, ignored, thr, messages, env) ==
      AdminStep(AdminCommandOf(cfg, Accept(messages).value).value, ignored, messages[0].key.remoteJid, env.ignoreListing, thr)
  {
  }

  /** Each sub-command's effect on the ignore set: exactly the named chat is added or removed. */
  lemma AdminStepIgnoreSet(cmd: AdminCommand, ignored: set<string>, chatId: string, listing: string, thr: map<string, int>)
    ensures var o := AdminStep(cmd, ignored, chatId, listing, thr);
      match cmd
      case IgnoreChat(a) => o.ignored == (if ToJid(a).Some? then ignored + {ToJid(a).value} else ignored)
      case AllowChat(a) => o.ignored == (if ToJid(a).Some? then ignored - {ToJid(a).value} else ignored)
      case ListIgnored => o.ignored == ignored
  {
    match cmd
    case IgnoreChat(a) => IgnoreAdds(a, ignored, chatId, listing, thr);
    case AllowChat(a) => AllowRemoves(a, ignored, chatId, listing, thr);
    case ListIgnored =>
  }

  lemma IgnoreAdds(a: string, ignored: set<string>, chatId: string, listing: string, thr: map<string, int>)
    ensures AdminStep(IgnoreChat(a), ignored, chatId, listing, thr).ignored ==
      (if ToJid(a).Some? then ignored + {ToJid(a).value} else ignored)
  {
  }

  lemma AllowRemoves(a: string, ignored: set<string>, chatId: string, listing: string, thr: map<string, int>)
    ensures AdminStep(AllowChat(a), ignored, chatId, listing, thr).ignored ==
      (if ToJid(a).Some? then ignored - {ToJid(a).value} else ignored)
  {
    AllowStepRemoves(ToJid(a), ignored, chatId, thr);
  }

  lemma AllowStepRemoves(jid: Option<string>, ignored: set<string>, chatId: string, thr: map<string, int>)
    ensures AllowStep(jid, ignored, chatId, thr).ignored == (if jid.Some? then ignored - {jid.value} else ignored)
  {
    if jid.Some? && jid.value !in ignored {
      assert ignored - {jid.value} == ignored;
    }
  }

  /** An administrator's `تجاهل <number>` mutes exactly that number's chat. */
  lemma AdminIgnoreNumber(cfg: Config, ignored: set<string>, thr: map<string, int>, messages: seq<Message>, env: RouterEnv, number: string)
    requires Accept(messages).Some?
    requires AdminIsSender(cfg.adminWa, SenderId(messages[0].key), messages[0].key.remoteJid)
    requires number != "" && forall k :: 0 <= k < |number| ==> IsDigit(number[k])
    requires Accept(messages).value.text == IgnoreWord + " " + number
    ensures Route(cfg, ignored, thr, messages, env) ==
      Outcome([Reply(messages[0].key.remoteJid, IgnoredPrefix + (number + UserJidSuffix))],
              ignored + {number + UserJidSuffix}, thr)
  {
    var inc := Accept(messages).value;
    ParseIgnoreNumber(number);
    assert AdminCommandOf(cfg, inc) == Some(IgnoreChat(number));
    AdminBeforeIgnore(cfg, ignored, thr, messages, env);
    ToJidOfNumber(number);
    assert AdminStep(IgnoreChat(number), ignored, inc.chatId, env.ignoreListing, thr) ==
      Outcome([Reply(inc.chatId, IgnoredPrefix + (number + UserJidSuffix))], ignored + {number + UserJidSuffix}, thr);
  }

  lemma ParseIgnoreNumber(number: string)
    requires number != "" && forall k :: 0 <= k < |number| ==> IsDigit(number[k])
    ensures ParseAdmin(Lower(IgnoreWord + " " + number)) == Some(IgnoreChat(number))
  {
    var text := IgnoreWord + " " + number;
    LowerConcat(IgnoreWord + " ", number);
    LowerConcat(IgnoreWord, " ");
    assert Lower(IgnoreWord) == IgnoreWord;
    assert Lower(" ") == " ";
    LowerOfDigits(number);
    assert Lower(text) == text;
    MatchCommandArgRoundTrip(IgnoreWord, number);
  }

  lemma LowerOfDigits(s: string)
    requires forall k :: 0 <= k < |s| ==> IsDigit(s[k])
    ensures Lower(s) == s
  {
  }

  /** The registry is consulted first: a registered first word always runs its command, with the remaining words as arguments. */
  lemma RegistryFirst(cfg: Config, ignored: set<string>, thr: map<string, int>, messages: seq<Message>, env: RouterEnv)
    requires ReachesDispatch(cfg, ignored, messages)
    requires FirstWord(Accept(messages).value.text) in cfg.commands
    ensures var inc := Accept(messages).value;
      Route(cfg, ignored, thr, messages, env) ==
        Outcome([RunCommand(cfg.commands[FirstWord(inc.text)], SplitWs(inc.text)[1..], inc.chatId, inc.senderId, inc.isGroup)],
                ignored, thr)
  {
    RouteToDispatch(cfg, ignored, thr, messages, env);
  }

  /** The name tables of commands/help.js, commands/ping.js and commands/time.js. */
  function ShippedFiles(help: Handler, ping: Handler, time: Handler): seq<SourceFile>
  {
    [SourceFile("help.js", Exported(ObjectExport("مساعدة", Some(["قائمة", "تعليمات", "help"]), Some(help)))),
     SourceFile("ping.js", Exported(ObjectExport("اختبار", Some(["بنق", "تست", "سرعة"]), Some(ping)))),
     SourceFile("time.js", Exported(ObjectExport("الوقت", Some(["الساعة", "التاريخ"]), Some(time))))]
  }

  lemma ShippedKeys(help: Handler, ping: Handler, time: Handler)
    ensures var m := Load(Some(ShippedFiles(help, ping, time)));
      "مساعدة" in m && "اختبار" in m && "الوقت" in m
  {
    var files := ShippedFiles(help, ping, time);
    LoadedUnderOwnName(files, 0);
    LoadedUnderOwnName(files, 1);
    LoadedUnderOwnName(files, 2);
  }

  /** A declared name without ASCII capitals is registered as it is written. */
  lemma LoadedUnderOwnName(files: seq<SourceFile>, i: nat)
    requires i < |files| && IsJs(files[i].fileName) && files[i].loaded.Exported? && files[i].loaded.value.ObjectExport?
    requires files[i].loaded.value.name != "" && files[i].loaded.value.run.Some?
    requires forall k :: 0 <= k < |files[i].loaded.value.name| ==> !('A' <= files[i].loaded.value.name[k] <= 'Z')
    ensures files[i].loaded.value.name in Load(Some(files))
  {
    DeclaredNameLoaded(files, i);
    LowerNoUpper(files[i].loaded.value.name);
  }

  /** A `.js` file exporting a declared name and a `run` function has its lower-cased name in the loaded map. */
  lemma DeclaredNameLoaded(files: seq<SourceFile>, i: nat)
    requires i < |files| && IsJs(files[i].fileName) && files[i].loaded.Exported? && files[i].loaded.value.ObjectExport?
    requires files[i].loaded.value.name != "" && files[i].loaded.value.run.Some?
    ensures Lower(files[i].loaded.value.name) in Load(Some(files))
  {
    var c := FileCommand(files[i]).value;
    assert Names(c)[0] == files[i].loaded.value.name;
    KeysOfSpec(Names(c), Lower(files[i].loaded.value.name));
    LoadedFileKeysPresent(files, i);
  }

  /**
   * Once the shipped help, ping and time files are loaded, the switch's cases for
   * `مساعدة`, `اختبار` and `الوقت` can no longer be reached: those first words always run
   * the registered command.
   */
  lemma ShippedCommandsShadowSwitch(cfg: Config, ignored: set<string>, thr: map<string, int>, messages: seq<Message>, env: RouterEnv,
                                    help: Handler, ping: Handler, time: Handler)
    requires cfg.commands == Load(Some(ShippedFiles(help, ping, time)))
    requires ReachesDispatch(cfg, ignored, messages)
    requires FirstWord(Accept(messages).value.text) in {"مساعدة", "اختبار", "الوقت"}
    ensures var o := Route(cfg, ignored, thr, messages, env);
      |o.actions| == 1 && o.actions[0].RunCommand?
  {
    ShippedKeys(help, ping, time);
    RegistryFirst(cfg, ignored, thr, messages, env);
  }

  /** A one-word text runs the command registered under its lower-cased form, with no arguments. */
  lemma OneWordResolves(cfg: Config, ignored: set<string>, thr: map<string, int>, messages: seq<Message>, env: RouterEnv)
    requires ReachesDispatch(cfg, ignored, messages)
    requires NoSpaces(Accept(messages).value.text)
    requires Lower(Accept(messages).value.text) in cfg.commands
    ensures var inc := Accept(messages).value;
      Route(cfg, ignored, thr, messages, env) ==
        Outcome([RunCommand(cfg.commands[Lower(inc.text)], [], inc.chatId, inc.senderId, inc.isGroup)], ignored, thr)
  {
    OneWord(Accept(messages).value.text);
    RegistryFirst(cfg, ignored, thr, messages, env);
  }

  lemma OneWord(text: string)
    requires text != [] && NoSpaces(text)
    ensures FirstWord(text) == Lower(text) && SplitWs(text)[1..] == []
  {
    SplitWsOfWord(text);
  }

  /** So the lookup ignores ASCII letter case: `PING`, `Ping` and `ping` all reach the command registered as `ping`. */
  lemma PingSpellings()
    ensures NoSpaces("PING") && Lower("PING") == "ping"
    ensures NoSpaces("Ping") && Lower("Ping") == "ping"
  {
  }

  lemma SplitWsOfWord(w: string)
    requires w != [] && NoSpaces(w)
    ensures SplitWs(w) == [w]
  {
    SplitWsJoin([w]);
  }

  /**
   * After the registry and the switch have missed, a text that is not a command word
   * and has a non-empty canned reply gets exactly that reply, and nothing changes.
   */
  lemma KeywordReplyRule(cfg: Config, ignored: set<string>, thr: map<string, int>, messages: seq<Message>, env: RouterEnv)
    requires ReachesDispatch(cfg, ignored, messages)
    requires var inc := Accept(messages).value;
      FirstWord(inc.text) !in cfg.commands && BuiltinReply(FirstWord(inc.text), inc, env.clock).None?
    requires KeywordHit(cfg, Lower(Accept(messages).value.text), env)
    ensures var inc := Accept(messages).value;
      Route(cfg, ignored, thr, messages, env) == Outcome([Reply(inc.chatId, env.keywords[Lower(inc.text)])], ignored, thr)
  {
    RouteToDispatch(cfg, ignored, thr, messages, env);
  }

  /** A text that is one of the command words never gets a keyword reply, whatever the keyword table says. */
  lemma CommandWordNeverKeyword(cfg: Config, ignored: set<string>, thr: map<string, int>, messages: seq<Message>, env: RouterEnv)
    requires ReachesDispatch(cfg, ignored, messages)
    requires Lower(Accept(messages).value.text) in cfg.commandWords
    ensures var inc := Accept(messages).value;
      var o := Route(cfg, ignored, thr, messages, env);
      o.actions == [] || o.actions[0].RunCommand? || o.actions[0] == Reply(inc.chatId, DefaultHintText)
        || BuiltinReply(FirstWord(inc.text), inc, env.clock) == Some(o.actions[0].text)
  {
    RouteToDispatch(cfg, ignored, thr, messages, env);
    DispatchWithoutKeyword(cfg, Accept(messages).value, thr, env);
  }

  lemma DispatchWithoutKeyword(cfg: Config, inc: Incoming, thr: map<string, int>, env: RouterEnv)
    requires Lower(inc.text) in cfg.commandWords
    ensures var a := Dispatch(cfg, inc, thr, env).0;
      a == [] || a[0].RunCommand? || a[0] == Reply(inc.chatId, DefaultHintText)
        || BuiltinReply(FirstWord(inc.text), inc, env.clock) == Some(a[0].text)
  {
  }

  /**
   * The default hint: after registry, switch and keywords have all missed, a private
   * chat gets the hint exactly when 24 hours have passed since the last one (0 when
   * none was sent); a group chat never gets it. Only that chat's throttle entry
   * changes, and only when the hint was delivered.
   */
  lemma DefaultHintRule(cfg: Config, ignored: set<string>, thr: map<string, int>, messages: seq<Message>, env: RouterEnv)
    requires ReachesDispatch(cfg, ignored, messages)
    requires var inc := Accept(messages).value;
      && FirstWord(inc.text) !in cfg.commands
      && BuiltinReply(FirstWord(inc.text), inc, env.clock).None?
      && !KeywordHit(cfg, Lower(inc.text), env)
    ensures var inc := Accept(messages).value;
      var o := Route(cfg, ignored, thr, messages, env);
      var sent := !inc.isGroup && env.clock.nowMs - LastSent(thr, inc.chatId) >= HintIntervalMs;
      && o.actions == (if sent then [Reply(inc.chatId, DefaultHintText)] else [])
      && o.hintLastSent == (if sent && env.hintDelivered then thr[inc.chatId := env.clock.nowMs] else thr)
      && o.ignored == ignored
  {
    RouteToDispatch(cfg, ignored, thr, messages, env);
    DispatchToHint(cfg, Accept(messages).value, thr, env);
  }

  /** Only the default hint touches the throttle, and then only the entry of the message's chat. */
  lemma ThrottleFrame(cfg: Config, ignored: set<string>, thr: map<string, int>, messages: seq<Message>, env: RouterEnv)
    ensures var o := Route(cfg, ignored, thr, messages, env);
      o.hintLastSent == thr ||
      (&& ReachesDispatch(cfg, ignored, messages)
       && TakesHintBranch(cfg, Accept(messages).value, thr, env)
       && env.hintDelivered
       && o.hintLastSent == thr[messages[0].key.remoteJid := env.clock.nowMs])
  {
    match Accept(messages)
    case None =>
    case Some(inc) =>
      if AdminCommandOf(cfg, inc).Some? {
        AdminBeforeIgnore(cfg, ignored, thr, messages, env);
      } else if inc.chatId !in ignored {
        DispatchThrottle(cfg, inc, thr, env);
      }
  }

  lemma DispatchThrottle(cfg: Config, inc: Incoming, thr: map<string, int>, env: RouterEnv)
    ensures var d := Dispatch(cfg, inc, thr, env);
      d.1 == thr || (TakesHintBranch(cfg, inc, thr, env) && env.hintDelivered && d.1 == thr[inc.chatId := env.clock.nowMs])
  {
  }

  /** Only an administrator sub-command changes the ignore set. */
  lemma IgnoreSetFrame(cfg: Config, ignored: set<string>, thr: map<string, int>, messages: seq<Message>, env: RouterEnv)
    ensures var o := Route(cfg, ignored, thr, messages, env);
      o.ignored == ignored || (Accept(messages).Some? && AdminCommandOf(cfg, Accept(messages).value).Some?)
  {
  }

  // ===== the throttle over a run of events =====

  datatype Event = Event(messages: seq<Message>, env: RouterEnv)
  datatype State = State(ignored: set<string>, hintLastSent: map<string, int>)

  function Next(cfg: Config, st: State, ev: Event): State
  {
    var o := Route(cfg, st.ignored, st.hintLastSent, ev.messages, ev.env);
    State(o.ignored, o.hintLastSent)
  }

  /** The event delivers a default hint to chat `c`. */
  predicate DeliversHint(cfg: Config, st: State, ev: Event, c: string)
  {
    && ReachesDispatch(cfg, st.ignored, ev.messages)
    && Accept(ev.messages).value.chatId == c
    && TakesHintBranch(cfg, Accept(ev.messages).value, st.hintLastSent, ev.env)
    && ev.env.hintDelivered
  }

  /** The clock readings at which hints were delivered to chat `c`, in order. */
  function HintTimes(cfg: Config, st: State, events: seq<Event>, c: string): seq<int>
    decreases |events|
  {
    if events == [] then []
    else
      (if DeliversHint(cfg, st, events[0], c) then [events[0].env.clock.nowMs] else [])
      + HintTimes(cfg, Next(cfg, st, events[0]), events[1..], c)
  }

  lemma NextLastSent(cfg: Config, st: State, ev: Event, c: string)
    ensures LastSent(Next(cfg, st, ev).hintLastSent, c) ==
      if DeliversHint(cfg, st, ev, c) then ev.env.clock.nowMs else LastSent(st.hintLastSent, c)
  {
    ThrottleFrame(cfg, st.ignored, st.hintLastSent, ev.messages, ev.env);
  }

  /**
   * Over any run of events, every hint delivered to a chat comes at least 24 hours
   * after that chat's throttle entry at the start, and any two hints delivered to
   * the same chat are at least 24 hours apart. No assumption on the clock is needed.
   */
  lemma {:induction false} HintsAtLeastIntervalApart(cfg: Config, st: State, events: seq<Event>, c: string)
    ensures var ts := HintTimes(cfg, st, events, c);
      && (forall t :: t in ts ==> t - LastSent(st.hintLastSent, c) >= HintIntervalMs)
      && (forall i, j :: 0 <= i < j < |ts| ==> ts[j] - ts[i] >= HintIntervalMs)
    decreases |events|
  {
    if events != [] {
      HintsAtLeastIntervalApart(cfg, Next(cfg, st, events[0]), events[1..], c);
      SpacedAfterStep(cfg, st, events, c);
    }
  }

  /** The spacing of the hints after the first event carries over to the whole run. */
  lemma SpacedAfterStep(cfg: Config, st: State, events: seq<Event>, c: string)
    requires events != []
    requires var st1 := Next(cfg, st, events[0]);
      var rest := HintTimes(cfg, st1, events[1..], c);
      && (forall t :: t in rest ==> t - LastSent(st1.hintLastSent, c) >= HintIntervalMs)
      && (forall i, j :: 0 <= i < j < |rest| ==> rest[j] - rest[i] >= HintIntervalMs)
    ensures var ts := HintTimes(cfg, st, events, c);
      && (forall t :: t in ts ==> t - LastSent(st.hintLastSent, c) >= HintIntervalMs)
      && (forall i, j :: 0 <= i < j < |ts| ==> ts[j] - ts[i] >= HintIntervalMs)
  {
    var ev := events[0];
    var st1 := Next(cfg, st, ev);
    NextLastSent(cfg, st, ev, c);
    HintTimesStep(cfg, st, events, c);
    SpacingStep(DeliversHint(cfg, st, ev, c), ev.env.clock.nowMs, LastSent(st.hintLastSent, c),
                LastSent(st1.hintLastSent, c), HintTimes(cfg, st1, events[1..], c));
  }

  lemma HintTimesStep(cfg: Config, st: State, events: seq<Event>, c: string)
    requires events != []
    ensures HintTimes(cfg, st, events, c) ==
      (if DeliversHint(cfg, st, events[0], c) then [events[0].env.clock.nowMs] else [])
      + HintTimes(cfg, Next(cfg, st, events[0]), events[1..], c)
    ensures DeliversHint(cfg, st, events[0], c) ==> HintDue(st.hintLastSent, c, events[0].env.clock.nowMs)
  {
  }

  /** The arithmetic of one step: a hint that was due, in front of hints spaced from it. */
  lemma SpacingStep(d: bool, now: int, last: int, last1: int, rest: seq<int>)
    requires d ==> now - last >= HintIntervalMs
    requires last1 == if d then now else last
    requires forall t :: t in rest ==> t - last1 >= HintIntervalMs
    requires forall i, j :: 0 <= i < j < |rest| ==> rest[j] - rest[i] >= HintIntervalMs
    ensures var ts := (if d then [now] else []) + rest;
      && (forall t :: t in ts ==> t - last >= HintIntervalMs)
      && (forall i, j :: 0 <= i < j < |ts| ==> ts[j] - ts[i] >= HintIntervalMs)
  {
    var ts := (if d then [now] else []) + rest;
    if d {
      forall i, j | 0 <= i < j < |ts| ensures ts[j] - ts[i] >= HintIntervalMs {
        assert ts[j] == rest[j - 1] && ts[j] in rest;
        if i > 0 {
          assert ts[i] == rest[i - 1];
        }
      }
    } else {
      assert ts == rest;
    }
  }

  // ===== the command-word set =====

  /** The lower-cased name (when non-empty) and aliases of one command. */
  function CommandNameWords(c: Command): set<string>
  {
    (if c.name != "" then {Lower(c.name)} else {}) + (set a | a in c.aliases :: Lower(a))
  }

  function ValueWords(cs: set<Command>): set<string>
  {
    set w, c | c in cs && w in CommandNameWords(c) :: w
  }

  /**
   * commandWords: every registered command's lower-cased name and aliases, plus the
   * fixed words; empty when the registry is empty.
   */
  function CommandWords(m: map<string, Command>): set<string>
  {
    if |m| == 0 then {} else ValueWords(m.Values) + FixedCommandWords
  }

  /** The nested loops over the registry's values and each value's aliases. */
  method BuildCommandWords(m: map<string, Command>) returns (words: set<string>)
    ensures words == CommandWords(m)
  {
    words := {};
    if |m| > 0 {
      var remaining := m.Values;
      while remaining != {}
        invariant remaining <= m.Values
        invariant words == ValueWords(m.Values - remaining)
        decreases remaining
      {
        var c :| c in remaining;
        ghost var done := m.Values - remaining;
        words := AddCommandWords(words, c);
        remaining := remaining - {c};
        assert m.Values - remaining == done + {c};
        ValueWordsAdd(done, c);
      }
      words := words + FixedCommandWords;
    }
  }

  /** The inner loop: one command's lower-cased name, when non-empty, then each alias. */
  method AddCommandWords(words: set<string>, c: Command) returns (r: set<string>)
    ensures r == words + CommandNameWords(c)
  {
    r := words;
    if c.name != "" {
      r := r + {Lower(c.name)};
    }
    var i := 0;
    while i < |c.aliases|
      invariant 0 <= i <= |c.aliases|
      invariant r == words + (if c.name != "" then {Lower(c.name)} else {}) + (set a | a in c.aliases[..i] :: Lower(a))
    {
      AliasWordsStep(c.aliases, i);
      r := r + {Lower(c.aliases[i])};
      i := i + 1;
    }
    assert c.aliases[..i] == c.aliases;
  }

  lemma AliasWordsStep(aliases: seq<string>, i: nat)
    requires i < |aliases|
    ensures (set a | a in aliases[..i + 1] :: Lower(a)) == (set a | a in aliases[..i] :: Lower(a)) + {Lower(aliases[i])}
  {
    assert aliases[..i + 1] == aliases[..i] + [aliases[i]];
  }

  lemma ValueWordsAdd(cs: set<Command>, c: Command)
    ensures ValueWords(cs + {c}) == ValueWords(cs) + CommandNameWords(c)
  {
  }

  // ===== the ignore store and the router object =====

  /** The ignore-list collection, seen as a set of chat ids. */
  class IgnoreStore {
    var chats: set<string>

    constructor (initial: set<string>)
      ensures chats == initial
    {
      chats := initial;
    }

    /** `IgnoreChat.exists({chatId})`. */
    method Exists(chatId: string) returns (b: bool)
      ensures b <==> chatId in chats
    {
      b := chatId in chats;
    }

    /** `IgnoreChat.updateOne(..., {upsert: true})`. */
    method Upsert(chatId: string)
      modifies this
      ensures chats == old(chats) + {chatId}
    {
      chats := chats + {chatId};
    }

    /** `IgnoreChat.deleteOne({chatId})`, returning its `deletedCount`. */
    method DeleteOne(chatId: string) returns (deleted: nat)
      modifies this
      ensures deleted == (if chatId in old(chats) then 1 else 0)
      ensures chats == old(chats) - {chatId}
    {
      deleted := if chatId in chats then 1 else 0;
      chats := chats - {chatId};
    }

    /** Whether the recent-entries query returns no row. */
    method IsEmpty() returns (b: bool)
      ensures b <==> chats == {}
    {
      b := chats == {};
    }
  }

  /**
   * The module state of handlers/messages.js (the lazily loaded registry and the hint
   * throttle) together with what each registration computes (the command words and
   * the administrator's digits).
   */
  class MessageRouter {
    var commandsCache: Option<map<string, Command>>
    var commandWords: set<string>
    var adminWa: string
    var hintLastSent: map<string, int>
    const store: IgnoreStore

    constructor (store: IgnoreStore)
      ensures this.store == store
      ensures commandsCache == None && commandWords == {} && adminWa == "" && hintLastSent == map[]
    {
      this.store := store;
      commandsCache := None;
      commandWords := {};
      adminWa := "";
      hintLastSent := map[];
    }

    function Cfg(): Config
      reads this`commandsCache, this`commandWords, this`adminWa
      requires commandsCache.Some?
    {
      Config(commandsCache.value, commandWords, adminWa)
    }

    /**
     * registerMessageHandlers: load the registry on the first call only, then rebuild
     * the command words and read the administrator's digits.
     */
    method RegisterMessageHandlers(dir: Option<seq<SourceFile>>, adminEnv: string)
      modifies this
      ensures commandsCache == if old(commandsCache).Some? then old(commandsCache) else Some(Load(dir))
      ensures commandWords == CommandWords(commandsCache.value)
      ensures adminWa == KeepDigits(adminEnv)
      ensures hintLastSent == old(hintLastSent)
    {
      if commandsCache.None? {
        var loaded := LoadCommands(dir);
        commandsCache := Some(loaded);
      }
      commandWords := BuildCommandWords(commandsCache.value);
      adminWa := KeepDigits(adminEnv);
    }

    /** The `messages.upsert` listener: one event, step by step. */
    method HandleUpsert(messages: seq<Message>, env: RouterEnv) returns (actions: seq<Action>)
      requires commandsCache.Some?
      modifies this`hintLastSent, store
      ensures var o := Route(Cfg(), old(store.chats), old(hintLastSent), messages, env);
        actions == o.actions && store.chats == o.ignored && hintLastSent == o.hintLastSent
    {
      actions := [];
      var accepted := Accept(messages);
      if accepted.None? {
        return;
      }
      actions := HandleIncoming(accepted.value, env);
    }

    /** The listener's work on an accepted message. */
    method HandleIncoming(inc: Incoming, env: RouterEnv) returns (actions: seq<Action>)
      requires commandsCache.Some?
      modifies this`hintLastSent, store
      ensures var o := RouteIncoming(Cfg(), old(store.chats), old(hintLastSent), inc, env);
        actions == o.actions && store.chats == o.ignored && hintLastSent == o.hintLastSent
    {
      var handled;
      handled, actions := AdminCommands(inc, env);
      if handled {
        return;
      }
      var ignored := store.Exists(inc.chatId);
      if ignored {
        return;
      }
      actions := DispatchMessage(inc, env);
    }

    /** The administrator's three sub-commands, answered before the ignore check. */
    method AdminCommands(inc: Incoming, env: RouterEnv) returns (handled: bool, actions: seq<Action>)
      requires commandsCache.Some?
      modifies store
      ensures handled <==> AdminCommandOf(Cfg(), inc).Some?
      ensures handled ==>
        var o := AdminStep(AdminCommandOf(Cfg(), inc).value, old(store.chats), inc.chatId, env.ignoreListing, hintLastSent);
        actions == o.actions && store.chats == o.ignored
      ensures !handled ==> actions == [] && store.chats == old(store.chats)
    {
      handled, actions := false, [];
      if !AdminIsSender(adminWa, inc.senderId, inc.chatId) {
        return;
      }
      var lowerText := Lower(inc.text);
      assert AdminCommandOf(Cfg(), inc) == ParseAdmin(lowerText);
      var m := MatchCommandArg(lowerText, IgnoreWord);
      if m.Some? {
        handled := true;
        actions := IgnoreCommand(m.value, inc.chatId, env);
        return;
      }
      m := MatchCommandArg(lowerText, AllowWord);
      if m.Some? {
        handled := true;
        actions := AllowCommand(m.value, inc.chatId, env);
        return;
      }
      if lowerText == ListWord {
        handled := true;
        actions := ListCommand(inc.chatId, env);
      }
    }

    /** `تجاهل <number>`: add the chat to the ignore list. */
    method IgnoreCommand(arg: string, chatId: string, env: RouterEnv) returns (actions: seq<Action>)
      modifies store
      ensures var o := AdminStep(IgnoreChat(arg), old(store.chats), chatId, env.ignoreListing, hintLastSent);
        actions == o.actions && store.chats == o.ignored
    {
      var jid := ToJid(arg);
      if jid.None? {
        actions := [Reply(chatId, InvalidJidText)];
        return;
      }
      store.Upsert(jid.value);
      actions := [Reply(chatId, IgnoredPrefix + jid.value)];
    }

    /** `سماح <number>`: remove the chat from the ignore list, saying whether it was there. */
    method AllowCommand(arg: string, chatId: string, env: RouterEnv) returns (actions: seq<Action>)
      modifies store
      ensures var o := AdminStep(AllowChat(arg), old(store.chats), chatId, env.ignoreListing, hintLastSent);
        actions == o.actions && store.chats == o.ignored
    {
      ghost var before := store.chats;
      var jid := ToJid(arg);
      if jid.None? {
        actions := [Reply(chatId, InvalidJidText)];
        return;
      }
      assert AdminStep(AllowChat(arg), before, chatId, env.ignoreListing, hintLastSent) ==
        if jid.value in before then Outcome([Reply(chatId, AllowedPrefix + jid.value)], before - {jid.value}, hintLastSent)
        else Outcome([Reply(chatId, NotIgnoredText)], before, hintLastSent);
      var deleted := store.DeleteOne(jid.value);
      if deleted > 0 {
        actions := [Reply(chatId, AllowedPrefix + jid.value)];
        return;
      }
      actions := [Reply(chatId, NotIgnoredText)];
    }

    /** `قائمة_التجاهل`: the listing, or a notice that the list is empty. */
    method ListCommand(chatId: string, env: RouterEnv) returns (actions: seq<Action>)
      ensures var o := AdminStep(ListIgnored, store.chats, chatId, env.ignoreListing, hintLastSent);
        actions == o.actions
    {
      var empty := store.IsEmpty();
      if empty {
        actions := [Reply(chatId, EmptyListText)];
        return;
      }
      actions := [Reply(chatId, ListPrefix + env.ignoreListing)];
    }

    /** Registry, built-in switch, keyword table and default hint, for a chat that is not ignored. */
    method DispatchMessage(inc: Incoming, env: RouterEnv) returns (actions: seq<Action>)
      requires commandsCache.Some?
      modifies this`hintLastSent
      ensures var d := Dispatch(Cfg(), inc, old(hintLastSent), env);
        actions == d.0 && hintLastSent == d.1
    {
      actions := [];
      var chatId := inc.chatId;
      var words := SplitWs(inc.text);
      var firstWord := Lower(words[0]);
      var args := words[1..];
      var commands := commandsCache.value;
      if |commands| > 0 && firstWord in commands {
        actions := [RunCommand(commands[firstWord], args, chatId, inc.senderId, inc.isGroup)];
        return;
      }

      var builtin := BuiltinReply(firstWord, inc, env.clock);
      if builtin.Some? {
        actions := [Reply(chatId, builtin.value)];
        return;
      }

      var lowerText := Lower(inc.text);
      if lowerText !in commandWords && lowerText in env.keywords && env.keywords[lowerText] != "" {
        actions := [Reply(chatId, env.keywords[lowerText])];
        return;
      }

      if !inc.isGroup {
        var now := env.clock.nowMs;
        var last := if chatId in hintLastSent then hintLastSent[chatId] else 0;
        if now - last >= HintIntervalMs {
          actions := [Reply(chatId, DefaultHintText)];
          if env.hintDelivered {
            hintLastSent := hintLastSent[chatId := now];
          }
        }
      }
    }
  }
}
