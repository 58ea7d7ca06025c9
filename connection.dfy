/**
 * The `connection.update` handler (events/connection.update.js): relay a fresh QR
 * code to the Telegram administrator when Telegram is configured, restart the bot
 * 3000 ms after any close that is not a logout, and on open register the credentials
 * listener and greet the bot's own chat. The effects become a list of actions.
 */
module Connection {
  import opened Wrappers
  import opened Text

  /** `DisconnectReason.loggedOut` of the WhatsApp client library. */
  const LoggedOut: nat := 401

  /** The fixed wait before a restart. */
  const ReconnectDelayMs: nat := 3000

  const QrCaption: string := "📱 امسح هذا الكود لتسجيل الدخول في واتساب"
  const LoggedOutText: string := "Logged out. Please reauthenticate."
  const ConnectedText: string := "✅ Connected to WhatsApp"
  const NoSelfIdText: string := "Could not determine bot's own WhatsApp ID for self-DM."
  const SelfDmFailedText: string := "Failed to send self-DM:"

  /** The status code the error wrapper reports for a close whose error carries none. */
  const DefaultStatusCode: nat := 500

  /**
   * One update: `connection` ("" when absent), the close status code as the error
   * wrapper reports it (`DefaultStatusCode` when the close carries no error or its
   * error no status), and `qr` ("" when absent).
   */
  datatype Update = Update(connection: string, reasonCode: nat, qr: string)

  /** `sock.user`: absent, or an object whose `id` and `jid` may be empty. */
  datatype SockUser = NoUser | User(id: string, jid: string)

  /** Where the self-DM goes: a chat id, or the user object itself when it has neither id nor jid. */
  datatype SelfTarget = SelfJid(jid: string) | UserObject

  /** The handler's surroundings: the Telegram settings, the socket's user, the clock rendering and whether the self-DM goes through. */
  datatype ConnEnv = ConnEnv(tgToken: string, adminId: string, user: SockUser, serverTime: string, selfDmDelivered: bool)

  datatype ConnAction =
    | RelayQr(qr: string, adminId: string)
    | LogInfo(text: string)
    | LogWarn(text: string)
    | LogError(text: string)
    | Delay(ms: nat)
    | StartBot
    | ListenCreds
    | SendSelfDm(target: SelfTarget, text: string)

  /** `tgBot` exists only when both the token and the administrator id are set. */
  predicate TelegramConfigured(env: ConnEnv)
  {
    env.tgToken != "" && env.adminId != ""
  }

  /** The guard of the QR block: a QR, a bot and an administrator id. */
  predicate RelaysQr(u: Update, env: ConnEnv)
  {
    u.qr != "" && TelegramConfigured(env) && env.adminId != ""
  }

  /** A close restarts unless its status code is `loggedOut`; a close without a status code restarts too. */
  predicate ShouldReconnect(u: Update)
  {
    u.reasonCode != LoggedOut
  }

  function BoolText(b: bool): string
  {
    if b then "true" else "false"
  }

  function CloseWarning(u: Update): string
  {
    "Connection closed. Code: " + NatToString(u.reasonCode) + ". Reconnecting? " + BoolText(ShouldReconnect(u))
  }

  /** `sock.user?.id || sock.user?.jid || sock.user`. */
  function SelfId(user: SockUser): Option<SelfTarget>
  {
    match user
    case NoUser => None
    case User(id, jid) => if id != "" then Some(SelfJid(id)) else if jid != "" then Some(SelfJid(jid)) else Some(UserObject)
  }

  const SelfDmHead: string :=
    "*Thank you for Using Nexos Bot!* \n\n - *Official Discord Server:* https://discord.com/invite/A3euTAVqHv \n - *Server Time:* "
  const SelfDmTail: string := " \n\n We ❤️ contributions!"

  /** The greeting sent to the bot's own chat, around the server time. */
  function SelfDmText(serverTime: string): string
  {
    SelfDmHead + serverTime + SelfDmTail
  }

  /** The QR block's work item, when its guard holds. */
  function QrActions(u: Update, env: ConnEnv): seq<ConnAction>
  {
    if RelaysQr(u, env) then [RelayQr(u.qr, env.adminId)] else []
  }

  /** The open branch: log, register the credentials listener, then the self-DM or a warning. */
  function OpenActions(env: ConnEnv): seq<ConnAction>
  {
    [LogInfo(ConnectedText), ListenCreds] +
    match SelfId(env.user)
    case None => [LogWarn(NoSelfIdText)]
    case Some(t) =>
      [SendSelfDm(t, SelfDmText(env.serverTime))] + (if env.selfDmDelivered then [] else [LogError(SelfDmFailedText)])
  }

  /** The close branch: warn, then either wait and restart or report the logout. */
  function CloseActions(u: Update): seq<ConnAction>
  {
    [LogWarn(CloseWarning(u))] +
    if ShouldReconnect(u) then [Delay(ReconnectDelayMs), StartBot] else [LogError(LoggedOutText)]
  }

  /** The handler for one update. */
  function HandleUpdate(u: Update, env: ConnEnv): (acts: seq<ConnAction>)
    ensures |acts| <= 5
    ensures (acts != [] && acts[0].RelayQr?) <==> RelaysQr(u, env)
    ensures u.connection == "close" ==>
      |acts| >= 2 && (acts[|acts| - 1] == StartBot || acts[|acts| - 1] == LogError(LoggedOutText))
  {
    QrActions(u, env) +
    if u.connection == "close" then CloseActions(u)
    else if u.connection == "open" then OpenActions(env)
    else []
  }

  /** How many times an action occurs. */
  function Count(acts: seq<ConnAction>, a: ConnAction): nat
  {
    if acts == [] then 0 else (if acts[0] == a then 1 else 0) + Count(acts[1..], a)
  }

  lemma {:induction false} CountAppend(xs: seq<ConnAction>, ys: seq<ConnAction>, a: ConnAction)
    ensures Count(xs + ys, a) == Count(xs, a) + Count(ys, a)
    decreases |xs|
  {
    if xs != [] {
      assert (xs + ys)[1..] == xs[1..] + ys;
      assert (xs + ys)[0] == xs[0];
      CountAppend(xs[1..], ys, a);
    } else {
      assert xs + ys == ys;
    }
  }

  lemma {:induction false} CountZero(xs: seq<ConnAction>, a: ConnAction)
    ensures Count(xs, a) == 0 <==> a !in xs
    decreases |xs|
  {
    if xs != [] {
      CountZero(xs[1..], a);
      assert a in xs <==> xs[0] == a || a in xs[1..];
    }
  }

  /**
   * The bot is restarted exactly once for a close that is not a logout, after the
   * 3000 ms wait, and never otherwise: not for a logout, not on open, not for any
   * other connection state.
   */
  lemma StartBotCount(u: Update, env: ConnEnv)
    ensures Count(HandleUpdate(u, env), StartBot) ==
      if u.connection == "close" && ShouldReconnect(u) then 1 else 0
  {
    var q := QrActions(u, env);
    var rest := if u.connection == "close" then CloseActions(u)
                else if u.connection == "open" then OpenActions(env) else [];
    CountAppend(q, rest, StartBot);
    CountZero(q, StartBot);
    if u.connection == "close" {
      var tail := if ShouldReconnect(u) then [Delay(ReconnectDelayMs), StartBot] else [LogError(LoggedOutText)];
      CountAppend([LogWarn(CloseWarning(u))], tail, StartBot);
      CountZero(tail[1..], StartBot);
    } else if u.connection == "open" {
      CountZero(rest, StartBot);
    }
  }

  /** A reconnecting close ends with the wait and then the restart. */
  lemma CloseWaitsThenRestarts(u: Update, env: ConnEnv)
    requires u.connection == "close" && ShouldReconnect(u)
    ensures var acts := HandleUpdate(u, env);
      |acts| >= 2 && acts[|acts| - 2..] == [Delay(3000), StartBot]
  {
  }

  /**
   * A close without an error reports the wrapper's default code 500 in its warning,
   * and restarts.
   */
  lemma CloseWithoutError(u: Update, env: ConnEnv)
    requires u.connection == "close" && u.reasonCode == DefaultStatusCode
    ensures CloseWarning(u) == "Connection closed. Code: " + "500" + ". Reconnecting? " + "true"
    ensures var acts := HandleUpdate(u, env);
      LogWarn(CloseWarning(u)) in acts && StartBot in acts
  {
    assert NatToString(5) == "5" && NatToString(50) == "50";
    assert NatToString(500) == "500";
    var q := QrActions(u, env);
    assert HandleUpdate(u, env) == q + CloseActions(u);
    assert HandleUpdate(u, env)[|q|] == LogWarn(CloseWarning(u));
    assert HandleUpdate(u, env)[|q| + 2] == StartBot;
  }

  /** A logout close reports the logout and schedules nothing. */
  lemma LoggedOutStops(u: Update, env: ConnEnv)
    requires u.connection == "close" && u.reasonCode == 401
    ensures var acts := HandleUpdate(u, env);
      LogError(LoggedOutText) in acts && StartBot !in acts && (forall ms :: Delay(ms) !in acts)
  {
    CountZero(HandleUpdate(u, env), StartBot);
    StartBotCount(u, env);
  }

  /**
   * The close and open branches exclude each other: what a close does never includes
   * the open branch's listener or self-DM, and an open never waits or restarts.
   */
  lemma CloseAndOpenExclusive(u: Update, env: ConnEnv)
    ensures var acts := HandleUpdate(u, env);
      && (ListenCreds in acts ==> u.connection == "open")
      && ((StartBot in acts || exists ms :: Delay(ms) in acts) ==> u.connection == "close")
  {
    var acts := HandleUpdate(u, env);
    if u.connection != "open" {
      assert ListenCreds !in QrActions(u, env);
    }
    if u.connection != "close" {
      assert forall a :: a in acts ==> !a.StartBot? && !a.Delay?;
    }
  }

  /** Any other connection state (connecting, or none at all) does no more than the QR relay. */
  lemma OtherStatesInert(u: Update, env: ConnEnv)
    requires u.connection != "close" && u.connection != "open"
    ensures HandleUpdate(u, env) == QrActions(u, env)
  {
  }

  /** The QR is relayed exactly when there is one and Telegram is configured, and at most once. */
  lemma QrRelayRule(u: Update, env: ConnEnv)
    ensures var acts := HandleUpdate(u, env);
      (exists i :: 0 <= i < |acts| && acts[i].RelayQr?) <==> (u.qr != "" && TelegramConfigured(env))
    ensures var acts := HandleUpdate(u, env);
      forall i :: 0 <= i < |acts| && acts[i].RelayQr? ==> i == 0 && acts[i] == RelayQr(u.qr, env.adminId)
  {
    var acts := HandleUpdate(u, env);
    var rest := if u.connection == "close" then CloseActions(u)
                else if u.connection == "open" then OpenActions(env) else [];
    assert acts == QrActions(u, env) + rest;
    assert forall i :: 0 <= i < |rest| ==> !rest[i].RelayQr?;
    if u.qr != "" && TelegramConfigured(env) {
      assert acts[0].RelayQr?;
    }
  }

  /**
   * On open the self-DM goes to the user's id, else its jid, else the user object; a
   * warning replaces it exactly when the socket has no user.
   */
  lemma SelfDmRule(env: ConnEnv)
    ensures var acts := OpenActions(env);
      && (LogWarn(NoSelfIdText) in acts <==> env.user.NoUser?)
      && (env.user.User? && env.user.id != "" ==> acts[2] == SendSelfDm(SelfJid(env.user.id), SelfDmText(env.serverTime)))
      && (env.user.User? && env.user.id == "" && env.user.jid != "" ==> acts[2] == SendSelfDm(SelfJid(env.user.jid), SelfDmText(env.serverTime)))
      && (env.user.User? && env.user.id == "" && env.user.jid == "" ==> acts[2] == SendSelfDm(UserObject, SelfDmText(env.serverTime)))
  {
    var acts := OpenActions(env);
    if env.user.User? {
      assert forall i :: 0 <= i < |acts| ==> !acts[i].LogWarn?;
    }
  }

  // ===== the QR callback =====

  /** What `QRCode.toFile` and the Telegram send come to. */
  datatype QrOutcome = GenerationFailed | Generated(sent: bool)

  /** The callback's log lines: every failure is logged, none is thrown. */
  function QrCallback(outcome: QrOutcome, qrPath: string): (logs: seq<ConnAction>)
  {
    match outcome
    case GenerationFailed => [LogError("❌ Failed to generate QR:")]
    case Generated(sent) =>
      [LogInfo("✅ QR code generated at: " + qrPath)] +
      (if sent then [LogInfo("📤 QR code sent to Telegram admin.")] else [LogError("❌ Failed to send QR to Telegram:")])
  }

  /** The callback only logs, and logs an error exactly when generation or the send failed. */
  lemma QrCallbackOnlyLogs(outcome: QrOutcome, qrPath: string)
    ensures var logs := QrCallback(outcome, qrPath);
      && (forall i :: 0 <= i < |logs| ==> logs[i].LogInfo? || logs[i].LogError?)
      && ((exists i :: 0 <= i < |logs| && logs[i].LogError?) <==> outcome != Generated(true))
  {
    var logs := QrCallback(outcome, qrPath);
    if outcome != Generated(true) {
      assert logs[|logs| - 1].LogError?;
    }
  }
}
