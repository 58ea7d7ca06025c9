# WhatsApp bot core, modelled in Dafny

This project models the decision logic of a WhatsApp bot and proves properties
about it. The bot is built on a WhatsApp Web client library, a MongoDB store and an
optional Telegram relay. The model covers seven parts:

- **Command registry** (module `CommandLoader`). Every `.js` file in the commands
  directory is loaded. Its export is normalised to a `{name, aliases, run}` record.
  The name and every alias are entered in one shared map twice: lower-cased, and
  with the leading `!` toggled. When two files register the same key, the later
  file wins. `registerNames` and `loadCommands` are loops that mutate a map, so the
  model writes them as methods on a map field and proves them against the
  functions `Register` and `Load`.
- **Current message router** (modules `Inbound` and `Router`). For the first
  message of a batch it runs these steps in order:
  1. the filter for status broadcasts, own messages and blank texts;
  2. the fixed field priority for the text;
  3. the administrator's `تجاهل` / `سماح` / `قائمة_التجاهل` sub-commands, which
     come before the ignore check;
  4. silence in ignored chats;
  5. the command registry;
  6. a built-in Arabic switch;
  7. a keyword table;
  8. a default hint for private chats, sent at most once every 24 hours.

  The module state becomes the class `Router.MessageRouter`: the lazily loaded
  registry, the command words, the administrator's digits and the hint throttle.
  The ignore collection becomes the class `Router.IgnoreStore`, a set of chat ids.
  Each method is proved equal to the pure step function `Router.Route`. The
  properties are lemmas about `Route`, including one over any run of events.
- **Legacy message router** (module `LegacyRouter`). After the same filter, a text
  starting with `!` is matched case-insensitively against five commands. Any other
  text gets an acknowledgement.
- **Connection handler** (module `Connection`). It relays the QR code to Telegram,
  restarts 3000 ms after a close that is not a logout, and on open registers the
  credential listener and greets the bot's own chat. The handler's effects are a
  list of actions.
- **Group welcome and farewell** (module `GroupParticipants`). This covers phone
  numbers from chat ids, display names, the rules text, choosing the group's
  settings, and the add / remove decision.
- **Poll command** (module `Polls`). It parses `question | a, b, c`, validates it,
  and builds the poll payload.
- **Image command** (module `Image`). It cleans the link and applies the
  `http(s)://` gate. It then runs download, JPEG conversion with a PNG fallback,
  and the send, each of whose outcomes is an input.

JavaScript's string operations are modelled exactly in module `Text`:

- `trim` and `\s` use the ECMAScript whitespace set;
- `split` on one character, `join`, and `split(/\s+/)`;
- `replace(/\D+/g, "")`, `replace(/\s+/g, " ")` and removing one code point;
- `toLowerCase`, limited to ASCII.

Module `Wrappers` holds `Option`.

Two behaviours of the code are easy to misread, and the model follows the code:

- `normalizeCommand` keeps a declared `name`. `moduleExport.name || "!" + fileBase`
  falls back to `"!" + fileBase` only when the name is missing or empty. Its third
  branch (lib/commandLoader.js:30-36) can never run, because the second branch
  already accepts every object with a `run` function.
- When the image message itself fails to send, the `catch` block sends the error
  text as well. That is two send attempts in one run; `Image.SendCount` states it.

## Model

| member | source | states |
|---|---|---|
| CommandLoader.Normalize | lib/commandLoader.js:12-40 | An export is accepted exactly when it is a function, or an object with a function `run`. A bare function gets the name `"!"+base` and the alias `[base]`. An object keeps its declared name and aliases, each defaulting the same way. Every accepted name is non-empty. |
| CommandLoader.FileCommand | lib/commandLoader.js:72-80 | A file yields a command only when its name ends in `.js`, loading it did not throw, and `normalizeCommand` accepted the export. The command's name is then non-empty. |
| CommandLoader.ToggleTwice | lib/commandLoader.js:50-54 | Toggling the `!` prefix twice gives the key back, unless the key starts with `!!`. |
| CommandLoader.KeysOfSpec | lib/commandLoader.js:45-58 | A key is registered for a command exactly when it is `lower(n)` or the toggled `lower(n)` of a non-empty name or alias `n`; empty names add nothing. |
| CommandLoader.KeysOfPaired | lib/commandLoader.js:48-55 | Every registered key is lower case. Its toggled form is registered too, when no name lower-cases to something starting with `!!`. |
| CommandLoader.Register | lib/commandLoader.js:60 | After registering a command, the key set is the old keys plus the command's keys. Each of its keys maps to the command, and every other key keeps its old command. |
| CommandLoader.RegisterPaired | lib/commandLoader.js:45-61 | Registering a command preserves the invariant that the map is lower case and closed under toggling, with both forms mapping to the same command. |
| CommandLoader.LoadAllPaired | lib/commandLoader.js:72-87 | The loop over the files preserves that invariant. |
| CommandLoader.LoadPaired | lib/commandLoader.js:63-90 | A loaded registry is lower case and closed under toggling. |
| CommandLoader.LastWriterWins | lib/commandLoader.js:73-87 | When file `i` registers key `k` and no later file does, the loaded map sends `k` to file `i`'s command. |
| CommandLoader.LoadedKeyOrigin | lib/commandLoader.js:73-87 | Every key of the loaded map was registered by some loaded file, and maps to that file's command. |
| CommandLoader.LoadAllAppend | lib/commandLoader.js:73-87 | Loading two lists of files one after the other is the same as loading their concatenation. |
| CommandLoader.LoadAllKeysGrow | lib/commandLoader.js:73-87 | Loading never removes a key. |
| CommandLoader.LoadedFileKeysPresent | lib/commandLoader.js:73-87 | Every key of every loaded file is in the final map, whatever later files register. |
| CommandLoader.SkippedFileIsInert | lib/commandLoader.js:72-86 | A file that is not `.js`, throws while loading, or is rejected leaves the result exactly as if it were absent. |
| CommandLoader.LoadAll | lib/commandLoader.js:73-87 | The loop over the files, one `FileCommand` and `registerNames` per file in directory order. It has no contract of its own; `LoadAllAppend`, `LoadAllKeysGrow`, `LastWriterWins`, `LoadedKeyOrigin` and `LoadAllPaired` state its properties. |
| CommandLoader.Load | lib/commandLoader.js:63-90 | A missing directory gives the empty map, otherwise the loop over the files from the empty map. `LoadPaired`, `LoadedFileKeysPresent` and `LoadCommands` state its properties. |
| CommandLoader.CommandTable.constructor | lib/commandLoader.js:65 | The table starts empty. |
| CommandLoader.CommandTable.RegisterNames | lib/commandLoader.js:45-61 | The two loops, one collecting the key set and one setting each key, leave the table equal to `Register` of the old table. |
| CommandLoader.LoadCommands | lib/commandLoader.js:63-90 | The loop over the directory returns `Load(dir)`. A missing directory gives the empty map. |
| Inbound.FirstNonEmpty | handlers/messages.js:72-80 | The result is the first non-empty field, with every field before it empty; it is "" only when all fields are empty. |
| Inbound.ConversationFirst | handlers/messages.js:73 | A non-empty conversation text always becomes the body. |
| Inbound.BodyPriority | handlers/messages.js:72-80 | A field becomes the body exactly when it is non-empty and every field before it is empty. |
| Inbound.SenderId | handlers/messages.js:69 | The sender id contains no `:` and is a prefix of the participant, or of the chat id when there is no participant. It stops at the first `:`, or is the whole id when there is none. |
| Inbound.SenderIdOfDevice | handlers/messages.js:69 | A `user:device` participant gives `user`; a participant or, without one, a chat id with no `:` is its own sender id. |
| Inbound.Accept | handlers/messages.js:60-83 | A batch passes exactly when it is non-empty, its first message is neither a status broadcast nor the bot's own, and the text trims to something non-empty. The chat, group flag, sender and trimmed text are then taken from that first message. |
| Inbound.OnlyFirstMessage | handlers/messages.js:60-61 | Messages after the first never change the outcome. |
| Inbound.LatencyWithoutTimestamp | handlers/messages.js:144-146 | The clock is read twice. Without a message time, the latency is the part of the first reading's second already elapsed plus the time between the readings. It is below 1000 exactly when both readings fall in the same second. |
| Inbound.LatencyWithTimestamp | events/handlers/messages.js:50-52 | With a message time only the second reading counts: a past message time gives the elapsed milliseconds, a future one gives 0, so the latency is never negative. |
| LegacyRouter.HandleUpsert | events/handlers/messages.js:12-96 | A reply is produced exactly when the batch passes the filter. It is exactly one reply, and it goes to the first message's chat. |
| LegacyRouter.CommandReply | events/handlers/messages.js:46-91 | The reply to a `!` command is never empty. A command outside the five gets the unknown-command text, and `!echo` with arguments replies with exactly the argument text. |
| LegacyRouter.FilteredGetNoReply | events/handlers/messages.js:12-17 | An empty batch, a status broadcast, the bot's own message or a blank text gets no reply. |
| LegacyRouter.PlainTextReceipt | events/handlers/messages.js:96 | A text not starting with `!` gets the receipt prefix followed by the trimmed text. |
| LegacyRouter.UnknownCommand | events/handlers/messages.js:89-90 | A `!` token whose lower case is none of the five commands gets the unknown-command reply. |
| LegacyRouter.PingInAnyCase | events/handlers/messages.js:47-53 | Any spelling of `!ping`, in any letter case, gets the latency reply. |
| LegacyRouter.EchoRepliesWords | events/handlers/messages.js:42-44 | `!echo` followed by words replies with exactly those words joined by single spaces. A bare `!echo` gets the usage text. |
| Router.ToJid | handlers/messages.js:30-37 | An empty input gives none. A trimmed input holding `@` is returned as it is. Otherwise the digits get the user suffix, and an input without digits gives none. Every result is a trimmed id holding `@`. |
| Router.ToJidIdempotent | handlers/messages.js:30-37 | Applying `toJid` to its own result changes nothing. |
| Router.ToJidOfNumber | handlers/messages.js:34-36 | A bare phone number becomes that number with the user suffix. |
| Router.MatchCommandArg | handlers/messages.js:95 | A match starts with the sub-command word and captures a non-empty argument. |
| Router.MatchCommandArgRoundTrip | handlers/messages.js:95-104 | The word, one space and an argument without line terminators match back to exactly that argument. |
| Router.ParseAdmin | handlers/messages.js:93-114 | A text parses as `تجاهل` only when it starts with that word and carries a non-empty argument. The same holds for `سماح`. It parses as the listing only when it is exactly the listing word. |
| Router.AdminIsSender | handlers/messages.js:55-91 | The sender is the administrator when `ADMIN_WA` is set and its digits occur in the sender id or, with the user suffix, in the chat id. `AdminRecognised` states its consequences. |
| Router.AdminRecognised | handlers/messages.js:55-91 | An unset `ADMIN_WA` admits nobody. A set one admits every sender id holding its digits, and anyone writing in the administrator's own private chat. |
| Router.AdminStep | handlers/messages.js:93-121 | Every sub-command answers with exactly one reply to the chat and leaves the hint throttle as it was. |
| Router.AdminStepIgnoreSet | handlers/messages.js:95-121 | `تجاهل` adds exactly the parsed chat, `سماح` removes exactly it, and the listing leaves the set unchanged. An invalid id changes nothing. |
| Router.AllowStepRemoves | handlers/messages.js:104-111 | Once the argument is a chat id, `سماح` removes exactly that id, which changes nothing when it was not ignored. An invalid id leaves the set as it was. |
| Router.Dispatch | handlers/messages.js:130-192 | Registry, switch, keywords and hint together produce at most one action. |
| Router.Route | handlers/messages.js:58-197 | One message event produces at most one action. |
| Router.RouteIncoming | handlers/messages.js:85-197 | An accepted message produces at most one action, whichever of the sub-command, ignore and dispatch steps answers it. |
| Router.BuiltinReply | handlers/messages.js:142-176 | The fallback switch answers exactly the words `اختبار`, `الوقت`, `المعرف`, `id` and `مساعدة`, and `مساعدة` gets the fixed command list. |
| Router.FilteredIsSilent | handlers/messages.js:60-83 | Filtered batches produce nothing and change neither the ignore set nor the throttle. |
| Router.IgnoredChatIsSilent | handlers/messages.js:124-128 | In an ignored chat, anything except an administrator sub-command produces nothing and changes nothing. |
| Router.AdminBeforeIgnore | handlers/messages.js:87-128 | The administrator's sub-commands are answered before the ignore check, in ignored chats too. |
| Router.AdminIgnoreNumber | handlers/messages.js:94-101 | An administrator's `تجاهل <number>` replies with that number's chat id and adds exactly that id to the ignore set. |
| Router.ParseIgnoreNumber | handlers/messages.js:88-95 | `تجاهل <digits>` parses as the ignore sub-command with those digits. |
| Router.RegistryFirst | handlers/messages.js:131-139 | A registered lower-cased first word always runs its command, with the remaining words as arguments, before the switch is tried. |
| Router.ShippedKeys | commands/help.js:3 | Loading the shipped help, ping and time files registers `مساعدة`, `اختبار` and `الوقت`. |
| Router.DeclaredNameLoaded | lib/commandLoader.js:24 | A `.js` file exporting a declared name and a `run` function has its lower-cased name in the loaded map. |
| Router.ShippedCommandsShadowSwitch | handlers/messages.js:134-176 | With the shipped files loaded, the first words `مساعدة`, `اختبار` and `الوقت` always run the registered command, so the switch cases for them are unreachable. |
| Router.OneWordResolves | handlers/messages.js:131-137 | A one-word text whose lower case is registered runs that command with no arguments. |
| Router.KeywordReplyRule | handlers/messages.js:178-182 | After registry and switch miss, a text that is not a command word and has a non-empty canned reply gets exactly that reply, and nothing changes. |
| Router.CommandWordNeverKeyword | handlers/messages.js:179 | A text that is a command word never gets a keyword reply. |
| Router.DefaultHintRule | handlers/messages.js:184-192 | When nothing else applies, a private chat gets the hint exactly when 24 hours have passed since the last one (0 when none). A group never gets it. Only that chat's throttle entry changes, and only when the hint was delivered. |
| Router.ThrottleFrame | handlers/messages.js:18-190 | Only the default hint touches the throttle, and then only the entry of the message's chat, set to the current time. |
| Router.DispatchThrottle | handlers/messages.js:130-192 | Within the dispatch steps, only the delivered hint updates the throttle. |
| Router.IgnoreSetFrame | handlers/messages.js:87-128 | Only an administrator sub-command changes the ignore set. |
| Router.NextLastSent | handlers/messages.js:187-190 | After one event, a chat's last-sent time is the event's clock when it delivered a hint to that chat, and unchanged otherwise. |
| Router.HintTimesStep | handlers/messages.js:185-188 | A delivered hint was due: 24 hours had passed since the chat's last one. |
| Router.HintsAtLeastIntervalApart | handlers/messages.js:15-192 | Over any run of events, every hint to a chat comes at least 24 hours after that chat's throttle entry at the start, and any two hints delivered to the same chat are at least 24 hours apart, with no assumption on the clock. |
| Router.BuildCommandWords | handlers/messages.js:44-54 | The nested loops build exactly the lower-cased names and aliases of all registered commands plus the five fixed words, or nothing when the registry is empty. |
| Router.ValueWordsAdd | handlers/messages.js:47-52 | One more command adds exactly its own name and alias words. |
| Router.AddCommandWords | handlers/messages.js:48-51 | The inner loop adds exactly one command's lower-cased name, when it is non-empty, and its aliases. |
| Router.IgnoreStore.constructor | models/IgnoreChat.js:4-10 | The store holds the given chat ids. |
| Router.IgnoreStore.Exists | handlers/messages.js:125 | The answer is true exactly when the chat is in the store. |
| Router.IgnoreStore.Upsert | handlers/messages.js:99 | The chat is in the store afterwards, and nothing else changes. |
| Router.IgnoreStore.DeleteOne | handlers/messages.js:108-109 | The deleted count is 1 exactly when the chat was present. Afterwards the chat is gone, and nothing else changes. |
| Router.IgnoreStore.IsEmpty | handlers/messages.js:115-116 | The answer is true exactly when the store has no chat. |
| Router.MessageRouter.constructor | handlers/messages.js:4-18 | No registry is loaded yet and the throttle is empty. |
| Router.MessageRouter.RegisterMessageHandlers | handlers/messages.js:39-56 | The registry is loaded on the first registration only. The command words are rebuilt from it, the administrator's digits are read, and the throttle is kept. |
| Router.MessageRouter.HandleUpsert | handlers/messages.js:58-197 | The actions, the new ignore store and the new throttle are exactly those of `Route` on the old state. |
| Router.MessageRouter.HandleIncoming | handlers/messages.js:85-192 | For an accepted message, the actions, the new ignore store and the new throttle are exactly those of `RouteIncoming` on the old state. |
| Router.MessageRouter.AdminCommands | handlers/messages.js:87-122 | The message is handled exactly when its sender is the administrator and it carries a sub-command. The sub-command's reply and ignore-set change are then `AdminStep`'s; otherwise nothing changes. |
| Router.MessageRouter.IgnoreCommand | handlers/messages.js:95-101 | The reply and the store change are those of `AdminStep` for `تجاهل`. |
| Router.MessageRouter.AllowCommand | handlers/messages.js:104-111 | The reply and the store change are those of `AdminStep` for `سماح`, which depend on whether the chat was ignored. |
| Router.MessageRouter.ListCommand | handlers/messages.js:114-121 | The reply is the empty-list notice exactly when the store is empty, else the listing. |
| Router.MessageRouter.DispatchMessage | handlers/messages.js:130-192 | The actions and the new throttle are exactly those of `Dispatch`. |
| Connection.HandleUpdate | events/connection.update.js:50-97 | One update yields at most five actions. The first is the QR relay exactly when there is a QR and Telegram is configured. A close always ends with the restart or with the logout error. |
| Connection.StartBotCount | events/connection.update.js:52-64 | The bot is restarted exactly once for a close that is not a logout, and never otherwise. |
| Connection.CloseWaitsThenRestarts | events/connection.update.js:58-60 | A reconnecting close ends with the 3000 ms wait followed by the restart. |
| Connection.CloseWithoutError | events/connection.update.js:52-60 | A close whose error carries no status reports the default 500 in its warning, and restarts the bot. |
| Connection.LoggedOutStops | events/connection.update.js:54-63 | A logout close logs the error and neither waits nor restarts. |
| Connection.CloseAndOpenExclusive | events/connection.update.js:52-97 | The credential listener appears only on open, and a wait or restart only on close. |
| Connection.OtherStatesInert | events/connection.update.js:52-67 | Any other connection state does no more than the QR relay. |
| Connection.QrRelayRule | events/connection.update.js:24-49 | The QR is relayed exactly when there is one and Telegram is configured. It is relayed at most once, first. |
| Connection.SelfDmRule | events/connection.update.js:85-93 | On open, the self-DM goes to the user's id, else its jid, else the user object. A warning replaces it exactly when the socket has no user. |
| Connection.QrCallbackOnlyLogs | events/connection.update.js:34-48 | The QR callback only logs, and logs an error exactly when generation or the Telegram send failed. |
| GroupParticipants.NumberFromJid | events/group-participants.update.js:44-46 | The number holds no `@` and no `:` and is a prefix of the chat id. It stops at the first `@` or `:`, or is the whole id when there is neither. |
| GroupParticipants.NumberFromBareId | events/group-participants.update.js:44-46 | An id with neither `@` nor `:` is its own number. |
| GroupParticipants.NumberFromJidRoundTrip | events/group-participants.update.js:44-46 | A number followed by `@server`, with or without a `:device` part, gives back the number. |
| GroupParticipants.DisplayName | events/group-participants.update.js:54-65 | A display name is never empty. |
| GroupParticipants.DisplayNamePriority | events/group-participants.update.js:58-64 | The result is the name, else the verified name, else the notify name, else `@` and the number; an unknown contact gets the mention form. |
| GroupParticipants.BuildRulesText | events/group-participants.update.js:68-87 | The text is the placeholder when there are no parts, and otherwise the parts joined by line feeds. |
| GroupParticipants.RulesTextCases | events/group-participants.update.js:72-86 | The placeholder appears exactly when the description is disabled or blank and there are no fixed rules. With both, the trimmed description comes first and the bulleted rules follow. |
| GroupParticipants.DefaultRulesText | events/group-participants.update.js:18-83 | With the shipped settings and no description, the rules text is the three bulleted rules. |
| GroupParticipants.ShippedTableUsesDefault | events/group-participants.update.js:18-102 | Every group gets the `default` entry of the shipped table. |
| GroupParticipants.WelcomeLines | events/group-participants.update.js:127-134 | The welcome has six lines; `WelcomeTextWhole` gives their contents. |
| GroupParticipants.WelcomeTextWhole | events/group-participants.update.js:127-134 | The whole welcome: the greeting with the names, the subject line, a blank line, the rules introduction, the rules and the link line, separated by line feeds. |
| GroupParticipants.WelcomeTextEnding | events/group-participants.update.js:124-134 | The welcome ends with the rules and then the link line. Without a link it ends in a line feed right after the rules. |
| GroupParticipants.WelcomeTextOpening | events/group-participants.update.js:128-129 | The welcome opens with the greeting and the names, then the subject line, or the generic greeting when the subject is empty. |
| GroupParticipants.Names | events/group-participants.update.js:118 | There is one display name per participant, in order. |
| GroupParticipants.DroppedUpdates | events/group-participants.update.js:92-93 | An update without a group id, outside a group, or without participants sends nothing. |
| GroupParticipants.HandleUpdate | events/group-participants.update.js:89-144 | A message is sent only for an accepted `add` or `remove` update. It goes to the group and mentions exactly the participants. |
| GroupParticipants.ActionRule | events/group-participants.update.js:123-144 | For an accepted update, one message is sent exactly for an `add` with welcomes on or a `remove` with farewells on. It goes to the group and mentions exactly the participants, and a `remove` gets the farewell text. |
| GroupParticipants.MetadataFailureTolerated | events/group-participants.update.js:104-114 | A failed metadata fetch acts as an empty subject and description and does not stop the welcome. |
| GroupParticipants.ShippedWelcome | events/group-participants.update.js:18-137 | With the shipped table every `add` is welcomed, even without metadata, and the welcome ends with the default rules and the channel link. |
| Polls.CleanOptionsClean | commands/polls.js:16 | There are no more options than pieces, and every option is non-empty and trimmed. |
| Polls.OptionsFree | commands/polls.js:16 | An option holds no character that none of the pieces holds. |
| Polls.CleanOptionsAppend | commands/polls.js:16 | Cleaning distributes over concatenation, so the order of the pieces is kept. |
| Polls.CleanOptionsMembers | commands/polls.js:16 | A string is an option exactly when it is the non-empty trimmed form of some piece. |
| Polls.CleanOptionsOfClean | commands/polls.js:16 | Pieces that are already clean come through unchanged. |
| Polls.Reply | commands/polls.js:6-31 | A poll is named after the trimmed question, which is non-empty and has no vertical bar. It allows one choice and has at least two options, each non-empty, trimmed and free of commas and vertical bars. |
| Polls.PollFor | commands/polls.js:9-31 | The usage text exactly when the question or the option list is empty. The at-least-two reminder exactly when both are present and fewer than two options survive cleaning. Otherwise a single-choice poll named after the question, whose options are the cleaned comma pieces. |
| Polls.Run | commands/polls.js:4-31 | The message goes to the chat it came from, and a poll is always single-choice with at least two options. |
| Polls.UsageRule | commands/polls.js:8-15 | The usage text is sent exactly when the question or the option list is empty. |
| Polls.NoBarIsUsage | commands/polls.js:8-15 | A text without a vertical bar always gets the usage text. |
| Polls.TooFewRule | commands/polls.js:16-19 | The at-least-two reminder is sent exactly when both parts are present but fewer than two options survive cleaning. |
| Polls.PollOptions | commands/polls.js:16-26 | The options of a poll are the non-empty trimmed comma pieces of the option list, in input order. |
| Polls.SplitTwo | commands/polls.js:8 | Two pieces joined by a vertical bar split back into those two pieces; with a third piece the split still starts with the first two. |
| Polls.ExtraPiecesIgnored | commands/polls.js:8 | Anything after a second vertical bar is ignored. |
| Polls.RoundTrip | commands/polls.js:6-31 | Writing a question and at least two clean options as the question, a vertical bar, and the options joined by commas gives back exactly that poll. |
| Polls.SpacedBar | commands/polls.js:8 | For any trimmed `a` and `b` without a vertical bar, `a`, a spaced vertical bar and `b` read as the question `a` with the option list `b`. |
| Polls.SpacedComma | commands/polls.js:16 | For any non-empty trimmed `x` and `y` without a comma, `x, y` gives exactly the two options `x` and `y`. |
| Polls.TwoOptionPoll | commands/polls.js:6-31 | `a`, a spaced vertical bar and `x, y` make the poll `a` with the options `x` and `y`. |
| Image.DropLeading | commands/image.js:7 | Only a leading run of the character is removed, and the result does not start with it. |
| Image.DropTrailing | commands/image.js:7 | Only a trailing run of the character is removed, and the result does not end with it. |
| Image.CleanUrl | commands/image.js:4-10 | The cleaned link holds no zero-width space and no two neighbouring whitespace characters, and is no longer than the input. |
| Image.Pipeline | commands/image.js:28-60 | An accepted link is downloaded first, and the run always ends with a send: the image or the error text. |
| Image.Run | commands/image.js:15-61 | Every run ends with a send, so every invocation answers the chat. |
| Image.NoArgumentsIsUsage | commands/image.js:5-26 | An empty input cleans to the empty link, and no arguments get only the usage text. |
| Image.StripOnePair | commands/image.js:7 | One pair of angle brackets around a link is stripped, and a link without brackets is kept. |
| Image.UnwrapsBrackets | commands/image.js:4-10 | A link without whitespace, given in angle brackets, cleans to the link itself, and the bare link is unchanged. |
| Image.SpaceInsideBracketRefused | commands/image.js:6-20 | A space just inside the opening bracket survives as a leading space, because whitespace is collapsed after stripping, so the link is refused. |
| Image.LeadingSpaceRefused | commands/image.js:9-20 | A text that starts with whitespace has no scheme after collapsing. |
| Image.UsageRule | commands/image.js:17-26 | The usage text is the whole answer exactly when the cleaned link is refused, and a download happens exactly when it is accepted. |
| Image.FetchFirstAndOnce | commands/image.js:28-30 | An accepted run downloads the cleaned link once, first. |
| Image.PngOnlyAfterJpegFails | commands/image.js:40-45 | PNG is tried exactly when the download worked and JPEG failed. |
| Image.ImageSentOnce | commands/image.js:40-52 | The image goes out at most once, only after a successful download and conversion. It is JPEG unless JPEG failed. |
| Image.ErrorRule | commands/image.js:31-59 | The error text is sent exactly when the download, both conversions or the image send fail, and it is always the last action. |
| Image.SuccessIsOneSend | commands/image.js:48-52 | Without any failure the run ends with the image and sends nothing else. |
| Image.SendCount | commands/image.js:15-61 | Every run makes exactly one send, except when the image send itself fails: then the error text follows it, two sends. |
| Text.TrimOfTrimmed | commands/polls.js:8 | Trimming a string that is already trimmed changes nothing. |
| Text.SplitJoin | commands/polls.js:8 | Splitting a joined list gives the list back, when no element holds the separator. |
| Text.JoinSplit | commands/polls.js:8 | Joining the pieces of a split restores the string. |
| Text.SplitWsOfTrimmed | handlers/messages.js:131 | Splitting a trimmed non-empty text on whitespace gives non-empty words without whitespace, and the first word leads the text. |
| Text.SplitWsJoin | events/handlers/messages.js:43-44 | Words joined by single spaces split back into the same words. |
| Text.KeepDigits | handlers/messages.js:34 | Only digits remain, and the result is empty exactly when the input has no digit. |
| Text.KeepDigitsAppend | handlers/messages.js:34 | Removing the non-digits distributes over concatenation, so the digits keep their order. |
| Text.KeepAllDigits | handlers/messages.js:34-36 | A run of digits is kept whole. |

## Examples

These lemmas check single inputs. They illustrate the rules above and are not promises of their own.

- `LegacyRouter.PingSpellings`: `!PING` and `!PiNg` lower-case to `!ping` (events/handlers/messages.js:47).
- `Router.PingSpellings`: `PING` and `Ping` are single words that lower-case to `ping` (handlers/messages.js:132).
- `Image.SchemeIgnoresCase`: `HTTPS://x` and `Http://x` pass the scheme test, `ftp://x` and `http:/x` do not (commands/image.js:20).
- `Polls.ScenarioBestColor`: the words `Best`, `color`, `|`, `Red,` and `Blue` make the poll "Best color" with the options Red and Blue (commands/polls.js:4-31).
- `Inbound.LatencyAcrossSecond`: clock readings 999 and 1000 with no message time report a latency of 1000 (handlers/messages.js:144-145).

## Left out

- Input and output are actions or inputs, not effects. This covers the WhatsApp
  socket, the MongoDB session and ignore collections, the Telegram bot, QR
  rendering to a PNG file, `fetch`, and the `sharp` conversions. Their outcomes
  (sent or failed, downloaded or not) are parameters, and log lines are actions or
  are dropped.
- The clock and the locale renderings (`Date.now`, `toLocaleString`, the Aden
  timezone) are parameters (`Inbound.Clock`, `Connection.ConnEnv.serverTime`).
- `new Boom(error).output.statusCode` is computed inside a foreign library. The
  close status code is a parameter (`Connection.Update.reasonCode`) holding the
  number the wrapper reports. For a close without an error object, or with an
  error that carries no status, the wrapper reports 500 (`DefaultStatusCode`);
  the warning then reads "Code: 500" and the bot reconnects, as
  `Connection.CloseWithoutError` states.
- Async concurrency is not modelled: each event handler is one atomic step, and
  interleavings between `await reply` and the throttle update are not. A failed
  hint send is the `hintDelivered` input; it leaves the throttle unchanged, like
  the rejected `await` in the source.
- Ignore-store exceptions and the handlers' catch-all error logging are not modelled.
- The ignore listing's sort by `createdAt`, its limit of 100 and its line
  formatting are not modelled. The rendered listing is the input `ignoreListing`.
- `toLowerCase` folds only ASCII letters. Non-ASCII case mappings are not modelled.
- The `\s` set is the ECMAScript whitespace set, written out. Code points beyond
  the Basic Multilingual Plane are single characters.
- The keyword table is a parameter (`RouterEnv.keywords`). Keys that exist only on
  the object prototype (`keywordReplies["constructor"]`) are not modelled.
- Registry values always have a function `run`, because `Normalize` accepts only
  such exports. So the `typeof mod.run === "function"` test at
  handlers/messages.js:136 always holds in the model.
- Names and aliases are strings. Non-string `name` values (`String(mod.name)`)
  and non-array `aliases` are not modelled.
- CommandLoader.KeysOfPaired: closure under toggling is proved only when no name
  lower-cases to something starting with `!!`. `"!!x"` registers `"!!x"` and
  `"!x"`, and `"!x"` toggles to `"x"`, which is not registered.
- CommandLoader.RegisterPaired: requires the same: no name of the command
  lower-cases to something starting with `!!`.
- CommandLoader.LoadAllPaired: requires the same of every loaded file's names.
- CommandLoader.LoadPaired: requires the same of every loaded file's names.
- A missing `args` list (`args || []`) and a missing `remoteJid` are the empty list
  and the empty string.
- `meta.desc.toString()` for a description that is not a string is not modelled.
  The description is a string, "" when absent.
- The unused `atText` (events/group-participants.update.js:119-121) is not modelled.
- index.js (socket construction, the auth state, the health server, the 5000 ms
  retry) is not part of this model, nor are the command bodies of commands/help.js,
  commands/ping.js, commands/time.js and commands/hi.js. Only the help, ping and
  time name tables appear, as registry inputs.
- The image command's content-type header and its warning and error log lines are
  not modelled.
- The poll command's single `sendMessage` is the one `Send` value that `Polls.Run`
  returns, so it makes exactly one send by construction; no lemma restates this.
