/**
 * Welcome and farewell messages for group membership changes
 * (events/group-participants.update.js). A valid update for a group chat with at
 * least one participant gets, depending on its action and the group's settings, one
 * welcome message (names, subject, rules, optional link) or one farewell message, and
 * both mention exactly the affected participants.
 */
module GroupParticipants {
  import opened Wrappers
  import opened Text

  /** The settings of one group. */
  datatype GroupConfig = GroupConfig(welcomeOn: bool, farewellOn: bool, useDescAsRules: bool, rules: seq<string>, link: string)

  /** `GROUP_RULES`: entries keyed by group id, and the optional `default` entry. */
  datatype RulesTable = RulesTable(perGroup: map<string, GroupConfig>, default: Option<GroupConfig>)

  const DefaultRules: seq<string> := [
    "الرجاء الالتزام بالأدب العام وعدم إرسال السبام.",
    "المواضيع خارج الاهتمام تُرسل في أوقات محددة فقط.",
    "احترام آراء الآخرين والابتعاد عن الجدل الحاد."]

  const DefaultLink: string := "https://whatsapp.com/channel/0029VakGg7g1dAvzb2edgI05"

  /** The `default` entry of the shipped table. */
  const DefaultConfig: GroupConfig := GroupConfig(true, true, true, DefaultRules, DefaultLink)

  /** The shipped table: only the `default` entry. */
  const ShippedTable: RulesTable := RulesTable(map[], Some(DefaultConfig))

  /** The last-resort settings when the table has neither an entry nor a default. */
  const FallbackConfig: GroupConfig := GroupConfig(true, true, true, [], "")

  const NoRulesText: string := "— لا توجد قوانين محددة —"
  const RulesIntro: string := "هذه بعض القوانين عندنا:"
  const GenericGreeting: string := "يا أهلاً وسهلاً."
  const LinkPrefix: string := "\n🔗 رابط القروب: "
  const NameSeparator: string := "، "

  /** A contact as the socket's cache knows it; "" for a missing field. */
  datatype Contact = Contact(name: string, verifiedName: string, notify: string)

  /** The group metadata fetch: none when it failed. */
  datatype Metadata = Metadata(subject: string, desc: string)

  /** One update: the group id ("" when absent), the participants and the action. */
  datatype GroupUpdate = GroupUpdate(groupJid: string, participants: seq<string>, action: string)

  /** The one message the handler may send. */
  datatype Send = Send(groupJid: string, text: string, mentions: seq<string>)

  /** numberFromJid: the part before the first `@`, and of that the part before the first `:`. */
  function NumberFromJid(jid: string): (n: string)
    ensures '@' !in n && ':' !in n
    ensures StartsWith(jid, n)
    ensures |n| == |jid| || jid[|n|] == '@' || jid[|n|] == ':'
  {
    var user := Split(jid, '@')[0];
    assert user == jid[..IndexOf(jid, '@')];
    var n := Split(user, ':')[0];
    assert n == user[..IndexOf(user, ':')];
    assert forall k :: 0 <= k < |n| ==> n[k] == user[k] && n[k] != '@';
    n
  }

  /** An id with neither `@` nor `:` is its own number. */
  lemma NumberFromBareId(number: string)
    requires '@' !in number && ':' !in number
    ensures NumberFromJid(number) == number
  {
    assert forall k :: 0 <= k < |number| ==> number[k] != '@' && number[k] != ':';
  }

  /** A user chat id, with or without a device suffix, gives back its phone number. */
  lemma NumberFromJidRoundTrip(number: string, device: string, server: string)
    requires '@' !in number && ':' !in number
    ensures NumberFromJid(number + "@" + server) == number
    ensures '@' !in device ==> NumberFromJid(number + ":" + device + "@" + server) == number
  {
    IndexOfPrefix(number, "@" + server, '@');
    assert number + "@" + server == number + ("@" + server);
    assert (number + "@" + server)[..|number|] == number;
    IndexOfUpTo(number, ':');
    if '@' !in device {
      var j := number + ":" + device + "@" + server;
      var user := number + ":" + device;
      assert '@' !in user;
      IndexOfPrefix(user, "@" + server, '@');
      assert user == number + (":" + device);
      assert j == user + ("@" + server);
      assert j[..|user|] == user;
      IndexOfPrefix(number, ":" + device, ':');
      assert user[..|number|] == number;
    }
  }

  /** humanList with its default separator. */
  function HumanList(items: seq<string>): string
  {
    Join(items, NameSeparator)
  }

  /** getDisplayName: name, else verified name, else notify name, else `@` and the number. */
  function DisplayName(contacts: map<string, Contact>, jid: string): (d: string)
    ensures d != ""
  {
    var c := if jid in contacts then contacts[jid] else Contact("", "", "");
    if c.name != "" then c.name
    else if c.verifiedName != "" then c.verifiedName
    else if c.notify != "" then c.notify
    else "@" + NumberFromJid(jid)
  }

  /** Each field of the contact is used only when the fields before it are empty; without any, the mention form. */
  lemma DisplayNamePriority(contacts: map<string, Contact>, jid: string)
    ensures jid !in contacts ==> DisplayName(contacts, jid) == "@" + NumberFromJid(jid)
    ensures jid in contacts ==>
      var c := contacts[jid];
      DisplayName(contacts, jid) ==
        if c.name != "" then c.name
        else if c.verifiedName != "" then c.verifiedName
        else if c.notify != "" then c.notify
        else "@" + NumberFromJid(jid)
  {
  }

  /** The fixed rules, each behind a bullet, one per line. */
  function Bullets(rules: seq<string>): seq<string>
  {
    seq(|rules|, i requires 0 <= i < |rules| => "• " + rules[i])
  }

  /** The parts of the rules text: the trimmed description when enabled and non-empty, then the fixed rules. */
  function RulesParts(cfg: GroupConfig, groupDesc: string): seq<string>
  {
    (if cfg.useDescAsRules && groupDesc != "" && Trim(groupDesc) != "" then [Trim(groupDesc)] else [])
    + (if |cfg.rules| > 0 then [Join(Bullets(cfg.rules), "\n")] else [])
  }

  /** buildRulesText. */
  function BuildRulesText(cfg: GroupConfig, groupDesc: string): (t: string)
    ensures RulesParts(cfg, groupDesc) == [] ==> t == NoRulesText
    ensures RulesParts(cfg, groupDesc) != [] ==> t == Join(RulesParts(cfg, groupDesc), "\n")
  {
    var parts := RulesParts(cfg, groupDesc);
    if |parts| == 0 then NoRulesText else Join(parts, "\n")
  }

  /**
   * The placeholder appears exactly when there is nothing to show: the description
   * is disabled or blank and there are no fixed rules. With both, the description
   * comes first.
   */
  lemma RulesTextCases(cfg: GroupConfig, groupDesc: string)
    ensures RulesParts(cfg, groupDesc) == [] <==>
      (!cfg.useDescAsRules || Trim(groupDesc) == "") && cfg.rules == []
    ensures cfg.useDescAsRules && Trim(groupDesc) != "" && cfg.rules != [] ==>
      BuildRulesText(cfg, groupDesc) == Trim(groupDesc) + "\n" + Join(Bullets(cfg.rules), "\n")
    ensures (!cfg.useDescAsRules || Trim(groupDesc) == "") && cfg.rules != [] ==>
      BuildRulesText(cfg, groupDesc) == Join(Bullets(cfg.rules), "\n")
  {
    if groupDesc == "" {
      assert Trim(groupDesc) == "";
    }
    var b := Join(Bullets(cfg.rules), "\n");
    if cfg.useDescAsRules && Trim(groupDesc) != "" && cfg.rules != [] {
      assert RulesParts(cfg, groupDesc) == [Trim(groupDesc), b];
      assert [Trim(groupDesc), b][1..] == [b];
      assert Join([Trim(groupDesc), b], "\n") == Trim(groupDesc) + "\n" + Join([b], "\n");
      assert BuildRulesText(cfg, groupDesc) == Join([Trim(groupDesc), b], "\n");
    }
  }

  /** With the shipped settings and no description, the rules text is the three bulleted rules. */
  lemma DefaultRulesText()
    ensures BuildRulesText(DefaultConfig, "") ==
      "• " + DefaultRules[0] + "\n" + ("• " + DefaultRules[1] + "\n" + "• " + DefaultRules[2])
  {
    var b := Bullets(DefaultRules);
    assert b == ["• " + DefaultRules[0], "• " + DefaultRules[1], "• " + DefaultRules[2]];
    assert b[1..][1..] == ["• " + DefaultRules[2]];
    assert RulesParts(DefaultConfig, "") == [Join(b, "\n")];
  }

  /** The group's own entry, else the default, else the fallback. */
  function ConfigFor(table: RulesTable, groupJid: string): GroupConfig
  {
    if groupJid in table.perGroup then table.perGroup[groupJid]
    else match table.default
      case Some(d) => d
      case None => FallbackConfig
  }

  lemma ShippedTableUsesDefault(groupJid: string)
    ensures ConfigFor(ShippedTable, groupJid) == DefaultConfig
  {
  }

  function SubjectLine(subject: string): string
  {
    if subject != "" then "في قروب *" + subject + "*." else GenericGreeting
  }

  function LinkLine(link: string): string
  {
    if link != "" then LinkPrefix + link else ""
  }

  const GreetingPrefix: string := "مرحبًا "
  const GreetingSuffix: string := "! 👋"

  /** The six welcome lines. */
  function WelcomeLines(namesText: string, subject: string, rulesText: string, link: string): (lines: seq<string>)
    ensures |lines| == 6
  {
    [GreetingPrefix + namesText + GreetingSuffix, SubjectLine(subject), "", RulesIntro, rulesText, LinkLine(link)]
  }

  /** The welcome lines joined by line feeds. */
  function WelcomeText(namesText: string, subject: string, rulesText: string, link: string): string
  {
    Join(WelcomeLines(namesText, subject, rulesText, link), "\n")
  }

  /**
   * The welcome text ends with the rules and then the link line; without a link the
   * link line is empty and the text ends in a line feed right after the rules.
   */
  lemma WelcomeTextEnding(namesText: string, subject: string, rulesText: string, link: string)
    ensures var t := WelcomeText(namesText, subject, rulesText, link);
      && (link == "" ==> EndsWith(t, "\n" + rulesText + "\n"))
      && (link != "" ==> EndsWith(t, "\n" + rulesText + "\n" + LinkPrefix + link))
  {
    var lines := WelcomeLines(namesText, subject, rulesText, link);
    var t := WelcomeText(namesText, subject, rulesText, link);
    assert lines == lines[..4] + [rulesText] + [LinkLine(link)];
    JoinSnoc(lines[..4], rulesText, "\n");
    JoinSnoc(lines[..4] + [rulesText], LinkLine(link), "\n");
    var head := Join(lines[..4], "\n");
    assert t == head + "\n" + rulesText + "\n" + LinkLine(link);
    var tail := "\n" + rulesText + "\n" + LinkLine(link);
    assert t == head + tail;
    assert t[|t| - |tail|..] == tail;
  }

  /**
   * The whole welcome text: the greeting with the names, the subject line, a blank
   * line, the rules introduction, the rules and the link line, separated by line feeds.
   */
  lemma WelcomeTextWhole(namesText: string, subject: string, rulesText: string, link: string)
    ensures WelcomeText(namesText, subject, rulesText, link) ==
      GreetingPrefix + namesText + GreetingSuffix + "\n" + SubjectLine(subject) + "\n\n" +
      RulesIntro + "\n" + rulesText + "\n" + LinkLine(link)
  {
    BlankLineJoin(GreetingPrefix + namesText + GreetingSuffix, SubjectLine(subject), RulesIntro, rulesText, LinkLine(link));
  }

  /** Six lines with an empty third one, joined by line feeds. */
  lemma BlankLineJoin(a: string, b: string, d: string, e: string, f: string)
    ensures Join([a, b, "", d, e, f], "\n") == a + "\n" + b + "\n\n" + d + "\n" + e + "\n" + f
  {
    JoinSix(a, b, "", d, e, f, "\n");
  }

  /** The welcome text opens with the greeting and the names, then the subject line or the generic greeting. */
  lemma WelcomeTextOpening(namesText: string, subject: string, rulesText: string, link: string)
    ensures StartsWith(WelcomeText(namesText, subject, rulesText, link),
                       GreetingPrefix + namesText + GreetingSuffix + "\n" + SubjectLine(subject) + "\n")
  {
    var lines := WelcomeLines(namesText, subject, rulesText, link);
    var t := WelcomeText(namesText, subject, rulesText, link);
    var rest := Join(lines[2..], "\n");
    assert lines[1..][1..] == lines[2..];
    assert Join(lines[1..], "\n") == lines[1] + "\n" + rest;
    var open := lines[0] + "\n" + lines[1] + "\n";
    assert t == open + rest;
    assert t[..|open|] == open;
  }

  function ByeText(namesText: string): string
  {
    "مع السلامة " + namesText + " 👋\nنتمنّى لكم التوفيق."
  }

  /** The display name of every participant, in order. */
  function Names(contacts: map<string, Contact>, participants: seq<string>): (names: seq<string>)
    ensures |names| == |participants|
    ensures forall i :: 0 <= i < |participants| ==> names[i] == DisplayName(contacts, participants[i])
  {
    seq(|participants|, i requires 0 <= i < |participants| => DisplayName(contacts, participants[i]))
  }

  /** The guard at the top of the handler. */
  predicate Accepted(update: Option<GroupUpdate>)
  {
    update.Some? && update.value.groupJid != "" && EndsWith(update.value.groupJid, "@g.us") && update.value.participants != []
  }

  /** The exported handler for one update: at most one send. */
  function HandleUpdate(table: RulesTable, contacts: map<string, Contact>, meta: Option<Metadata>, update: Option<GroupUpdate>): (r: Option<Send>)
    ensures r.Some? ==> Accepted(update) && r.value.groupJid == update.value.groupJid && r.value.mentions == update.value.participants
    ensures r.Some? ==> update.value.action == "add" || update.value.action == "remove"
  {
    if !Accepted(update) then None
    else
      var u := update.value;
      var cfg := ConfigFor(table, u.groupJid);
      var subject := if meta.Some? then meta.value.subject else "";
      var groupDesc := if meta.Some? then meta.value.desc else "";
      var namesText := HumanList(Names(contacts, u.participants));
      if u.action == "add" && cfg.welcomeOn then
        Some(Send(u.groupJid, WelcomeText(namesText, subject, BuildRulesText(cfg, groupDesc), cfg.link), u.participants))
      else if u.action == "remove" && cfg.farewellOn then
        Some(Send(u.groupJid, ByeText(namesText), u.participants))
      else None
  }

  /** Updates without a group id, outside a group, or without participants send nothing. */
  lemma DroppedUpdates(table: RulesTable, contacts: map<string, Contact>, meta: Option<Metadata>, update: Option<GroupUpdate>)
    requires !Accepted(update)
    ensures HandleUpdate(table, contacts, meta, update) == None
  {
  }

  /**
   * For an accepted update: an `add` with welcomes on sends one welcome, a `remove`
   * with farewells on sends one farewell, and anything else sends nothing; the message
   * goes to the group and mentions exactly the participants.
   */
  lemma ActionRule(table: RulesTable, contacts: map<string, Contact>, meta: Option<Metadata>, update: Option<GroupUpdate>)
    requires Accepted(update)
    ensures var u := update.value;
      var cfg := ConfigFor(table, u.groupJid);
      var r := HandleUpdate(table, contacts, meta, update);
      && (r.Some? <==> (u.action == "add" && cfg.welcomeOn) || (u.action == "remove" && cfg.farewellOn))
      && (r.Some? ==> r.value.groupJid == u.groupJid && r.value.mentions == u.participants)
      && (r.Some? && u.action == "remove" ==> r.value.text == ByeText(HumanList(Names(contacts, u.participants))))
  {
  }

  /** A failed metadata fetch is treated as an empty subject and description and does not stop the welcome. */
  lemma MetadataFailureTolerated(table: RulesTable, contacts: map<string, Contact>, update: Option<GroupUpdate>)
    requires Accepted(update) && update.value.action == "add" && ConfigFor(table, update.value.groupJid).welcomeOn
    ensures var u := update.value;
      var cfg := ConfigFor(table, u.groupJid);
      HandleUpdate(table, contacts, None, update) ==
        Some(Send(u.groupJid, WelcomeText(HumanList(Names(contacts, u.participants)), "", BuildRulesText(cfg, ""), cfg.link), u.participants))
    ensures HandleUpdate(table, contacts, None, update) == HandleUpdate(table, contacts, Some(Metadata("", "")), update)
  {
  }

  /** With the shipped table every `add` is welcomed, even without metadata, and the welcome ends with the default rules and the channel link. */
  lemma ShippedWelcome(contacts: map<string, Contact>, update: Option<GroupUpdate>)
    requires Accepted(update) && update.value.action == "add"
    ensures var r := HandleUpdate(ShippedTable, contacts, None, update);
      r.Some? && EndsWith(r.value.text, "\n" + BuildRulesText(DefaultConfig, "") + "\n" + LinkPrefix + DefaultLink)
  {
    var u := update.value;
    ShippedTableUsesDefault(u.groupJid);
    WelcomeTextEnding(HumanList(Names(contacts, u.participants)), "", BuildRulesText(DefaultConfig, ""), DefaultLink);
  }
}
