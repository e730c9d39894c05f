/** What the web client's handlers do (app/src/app.js): each user action,
    the socket's open and close callbacks and each view's first display is an
    ordered list of actions, either a message dispatched to the reducer or a
    console command sent over the socket. */
module Commands {
  import opened Wrappers
  import opened Js
  import opened App

  datatype Action = Dispatch(message: Message) | Send(command: string)

  const CONSOLE_COMMAND := "ConsoleCommand"

  /** `ConsoleCommand(command)` as handed to `JSON.stringify`: the flat object
      `{type: "ConsoleCommand", command}`. */
  function CommandFrame(command: string): Json {
    JObject([("type", JString(CONSOLE_COMMAND)), ("command", JString(command))])
  }

  /** How the daemon's difficulty command spells a boolean. */
  function Flag(enabled: bool): string {
    if enabled then "1" else "0"
  }

  /** `BanType`: the `type` a ban record carries. */
  function BanType(ban: Ban): string {
    match ban
    case IPBan(_) => "IP"
    case NameBan(_) => "Name"
  }

  function UpperChar(c: char): char {
    if 'a' <= c <= 'z' then (c as int - 32) as char else c
  }

  /** `toUpperCase` on ASCII text: no lower-case letter is left, each one is
      replaced by its capital in place, and every other character stays. */
  function ToUpper(s: string): (r: string)
    ensures |r| == |s|
    ensures forall i :: 0 <= i < |r| ==> !('a' <= r[i] <= 'z')
    ensures forall i :: 0 <= i < |s| && 'a' <= s[i] <= 'z' ==> r[i] as int == s[i] as int - ('a' as int - 'A' as int)
    ensures forall i :: 0 <= i < |s| && !('a' <= s[i] <= 'z') ==> r[i] == s[i]
  {
    seq(|s|, i requires 0 <= i < |s| => UpperChar(s[i]))
  }

  /** Upper-casing twice is upper-casing once. */
  lemma ToUpperIdempotent(s: string)
    ensures ToUpper(ToUpper(s)) == ToUpper(s)
  {
    var u := ToUpper(s);
    assert forall i :: 0 <= i < |u| ==> ToUpper(u)[i] == u[i];
  }

  /** `ban.name || ban.ip` as it appears in a template string: an IP record
      has no name, so its ip is used; a name record with an empty name falls
      through to its missing ip, which prints as "undefined". */
  function BanKey(ban: Ban): string {
    match ban
    case IPBan(ip) => ip
    case NameBan(name) => if name != "" then name else "undefined"
  }

  // ---------------------------------------------------------------------------
  // Handlers

  function KickActions(pilot: Pilot): seq<Action> {
    [Send("kick " + pilot.name)]
  }

  function BanActions(pilot: Pilot): seq<Action> {
    [Dispatch(ClearBansMessage), Send("ban ADD NAME " + pilot.name),
     Send("kick " + pilot.name), Send("ban")]
  }

  function IPBanActions(pilot: Pilot): seq<Action> {
    [Dispatch(ClearBansMessage), Send("ban ADD IP " + pilot.ip),
     Send("kick " + pilot.name), Send("ban")]
  }

  function LiftBanActions(ban: Ban): seq<Action> {
    [Dispatch(ClearBansMessage), Send("ban REM " + ToUpper(BanType(ban)) + " " + BanKey(ban)),
     Send("ban")]
  }

  /** The checkbox of a difficulty setting currently `enabled` asks for the
      opposite value and then for the settings again. */
  function ToggleDifficultyActions(setting: string, enabled: bool): seq<Action> {
    [Send("difficulty " + setting + " " + (if enabled then "0" else "1")), Send("difficulty")]
  }

  /** A key press in the console input: Enter sends the typed line. */
  function ConsoleInputActions(key: string, text: string): seq<Action> {
    if key == "Enter" then [Send(text)] else []
  }

  function OnOpenActions(webSocket: Handle): seq<Action> {
    [Dispatch(ConnectionMessage(true, Some(webSocket))), Send("server"), Send("mission")]
  }

  function OnCloseActions(): seq<Action> {
    [Dispatch(ConnectionMessage(false, None))]
  }

  /** `webSocket && webSocket.send(...)`: each view asks only when there is a socket. */
  function PilotsViewActions(webSocket: Option<Handle>): seq<Action> {
    if webSocket.Some? then [Send("host"), Send("user")] else []
  }

  function BansViewActions(webSocket: Option<Handle>): seq<Action> {
    if webSocket.Some? then [Send("ban")] else []
  }

  function DifficultyViewActions(webSocket: Option<Handle>): seq<Action> {
    if webSocket.Some? then [Send("difficulty")] else []
  }

  /** Buttons and the console input are disabled while not connected. */
  predicate ControlEnabled(s: AppState) {
    s.connected
  }

  /** A difficulty checkbox is also disabled while a mission is playing. */
  predicate DifficultyControlEnabled(s: AppState) {
    s.connected && s.mission.status != Playing
  }

  // ---------------------------------------------------------------------------
  // Running a handler

  /** What running a handler leaves: the state, the commands sent, and whether
      it ran to the end. */
  datatype Effects = Effects(state: AppState, sent: seq<string>, completed: bool)

  /** Runs `actions` from state `s`. A dispatch goes through the reducer; a send
      appends its command, except that with no socket the call throws
      (`null.send`) and the handler stops there, keeping what it already did. */
  ghost function Perform(s: AppState, actions: seq<Action>): Effects
    decreases |actions|
  {
    if actions == [] then Effects(s, [], true)
    else
      match actions[0]
      case Dispatch(m) => Perform(Reduce(s, m), actions[1..])
      case Send(c) =>
        if s.webSocket.None? then Effects(s, [], false)
        else
          var e := Perform(s, actions[1..]);
          e.(sent := [c] + e.sent)
  }

  /** With a socket, a handler made only of sends completes, sends exactly
      those commands in order and leaves the state unchanged. */
  lemma {:induction false} PerformSends(s: AppState, commands: seq<string>)
    requires s.webSocket.Some?
    ensures Perform(s, seq(|commands|, i requires 0 <= i < |commands| => Send(commands[i]))) ==
              Effects(s, commands, true)
    decreases |commands|
  {
    var actions := seq(|commands|, i requires 0 <= i < |commands| => Send(commands[i]));
    if commands != [] {
      var rest := seq(|commands| - 1, i requires 0 <= i < |commands| - 1 => Send(commands[1..][i]));
      assert actions[1..] == rest;
      PerformSends(s, commands[1..]);
      assert [commands[0]] + commands[1..] == commands;
    }
  }

  /** A handler starting with a dispatch performs it first. */
  lemma PerformDispatch(s: AppState, m: Message, rest: seq<Action>)
    ensures Perform(s, [Dispatch(m)] + rest) == Perform(Reduce(s, m), rest)
  {
    assert ([Dispatch(m)] + rest)[1..] == rest;
  }

  // ---------------------------------------------------------------------------
  // Properties of the handlers

  /** Kicking sends "kick <name>" and changes no state. */
  lemma KickEffect(s: AppState, pilot: Pilot)
    requires Valid(s) && ControlEnabled(s)
    ensures Perform(s, KickActions(pilot)) == Effects(s, ["kick " + pilot.name], true)
  {
    PerformSends(s, ["kick " + pilot.name]);
    assert KickActions(pilot) == seq(1, i requires 0 <= i < 1 => Send(["kick " + pilot.name][i]));
  }

  /** Banning by name empties the ban list, then adds the name ban, kicks the
      pilot and asks for the list, in that order. */
  lemma BanEffect(s: AppState, pilot: Pilot)
    requires Valid(s) && ControlEnabled(s)
    ensures Perform(s, BanActions(pilot)) ==
              Effects(s.(bans := []), ["ban ADD NAME " + pilot.name, "kick " + pilot.name, "ban"], true)
  {
    var cmds := ["ban ADD NAME " + pilot.name, "kick " + pilot.name, "ban"];
    var sends := seq(|cmds|, i requires 0 <= i < |cmds| => Send(cmds[i]));
    assert BanActions(pilot) == [Dispatch(ClearBansMessage)] + sends;
    PerformDispatch(s, ClearBansMessage, sends);
    PerformSends(s.(bans := []), cmds);
  }

  /** Banning by IP empties the ban list, then adds the IP ban, kicks the
      pilot by name and asks for the list. */
  lemma IPBanEffect(s: AppState, pilot: Pilot)
    requires Valid(s) && ControlEnabled(s)
    ensures Perform(s, IPBanActions(pilot)) ==
              Effects(s.(bans := []), ["ban ADD IP " + pilot.ip, "kick " + pilot.name, "ban"], true)
  {
    var cmds := ["ban ADD IP " + pilot.ip, "kick " + pilot.name, "ban"];
    var sends := seq(|cmds|, i requires 0 <= i < |cmds| => Send(cmds[i]));
    assert IPBanActions(pilot) == [Dispatch(ClearBansMessage)] + sends;
    PerformDispatch(s, ClearBansMessage, sends);
    PerformSends(s.(bans := []), cmds);
  }

  /** The upper-cased ban types the daemon's "ban REM" command expects. */
  lemma BanTypeUpper()
    ensures ToUpper(BanType(IPBan(""))) == "IP"
    ensures ToUpper(BanType(NameBan(""))) == "NAME"
  {
    assert ToUpper("IP") == "IP";
    var n := ToUpper("Name");
    assert n[0] == 'N' && n[1] == 'A' && n[2] == 'M' && n[3] == 'E';
    assert n == "NAME";
  }

  /** Lifting a ban empties the ban list, removes the record by name (or, for
      an IP record, by ip) and asks for the list. */
  lemma LiftBanEffect(s: AppState, ban: Ban)
    requires Valid(s) && ControlEnabled(s)
    ensures Perform(s, LiftBanActions(ban)) ==
              Effects(s.(bans := []),
                      [(match ban
                        case IPBan(ip) => "ban REM IP " + ip
                        case NameBan(name) => "ban REM NAME " + (if name != "" then name else "undefined")),
                       "ban"],
                      true)
  {
    BanTypeUpper();
    var cmds := ["ban REM " + ToUpper(BanType(ban)) + " " + BanKey(ban), "ban"];
    match ban {
      case IPBan(ip) =>
        assert ToUpper(BanType(ban)) == "IP";
        assert "ban REM " + "IP" + " " + ip == "ban REM IP " + ip;
      case NameBan(name) =>
        assert ToUpper(BanType(ban)) == "NAME";
        assert "ban REM " + "NAME" + " " + BanKey(ban) == "ban REM NAME " + BanKey(ban);
    }
    var sends := seq(|cmds|, i requires 0 <= i < |cmds| => Send(cmds[i]));
    assert LiftBanActions(ban) == [Dispatch(ClearBansMessage)] + sends;
    PerformDispatch(s, ClearBansMessage, sends);
    PerformSends(s.(bans := []), cmds);
  }

  /** Toggling a setting asks the daemon for the opposite of its current value
      and then for the settings; nothing local changes. */
  lemma ToggleDifficultyEffect(s: AppState, setting: string, enabled: bool)
    requires Valid(s) && DifficultyControlEnabled(s)
    ensures Perform(s, ToggleDifficultyActions(setting, enabled)) ==
              Effects(s, ["difficulty " + setting + " " + Flag(!enabled), "difficulty"], true)
  {
    var cmds := ["difficulty " + setting + " " + Flag(!enabled), "difficulty"];
    assert ToggleDifficultyActions(setting, enabled) ==
             seq(|cmds|, i requires 0 <= i < |cmds| => Send(cmds[i]));
    PerformSends(s, cmds);
  }

  /** The console input sends the typed line on Enter and nothing otherwise. */
  lemma ConsoleInputEffect(s: AppState, key: string, text: string)
    requires Valid(s) && ControlEnabled(s)
    ensures Perform(s, ConsoleInputActions(key, text)) ==
              Effects(s, if key == "Enter" then [text] else [], true)
  {
    if key == "Enter" {
      assert ConsoleInputActions(key, text) == seq(1, i requires 0 <= i < 1 => Send([text][i]));
      PerformSends(s, [text]);
    }
  }

  /** Controls are disabled for a reason: while disconnected a kick would
      send nothing and throw, and a ban would only empty the ban list. */
  lemma DisconnectedSendsNothing(s: AppState, pilot: Pilot, ban: Ban)
    requires Valid(s) && !ControlEnabled(s)
    ensures Perform(s, KickActions(pilot)) == Effects(s, [], false)
    ensures Perform(s, BanActions(pilot)) == Effects(s.(bans := []), [], false)
    ensures Perform(s, IPBanActions(pilot)) == Effects(s.(bans := []), [], false)
    ensures Perform(s, LiftBanActions(ban)) == Effects(s.(bans := []), [], false)
  {
    var s' := s.(bans := []);
    assert Reduce(s, ClearBansMessage) == s';
    PerformDispatch(s, ClearBansMessage, BanActions(pilot)[1..]);
    assert BanActions(pilot) == [Dispatch(ClearBansMessage)] + BanActions(pilot)[1..];
    PerformDispatch(s, ClearBansMessage, IPBanActions(pilot)[1..]);
    assert IPBanActions(pilot) == [Dispatch(ClearBansMessage)] + IPBanActions(pilot)[1..];
    PerformDispatch(s, ClearBansMessage, LiftBanActions(ban)[1..]);
    assert LiftBanActions(ban) == [Dispatch(ClearBansMessage)] + LiftBanActions(ban)[1..];
  }

  /** A ban-changing action followed by whatever the daemon sends next (the
      kicked pilot's leave, console output, the reply to "ban"), as long as no
      further clear-bans dispatch intervenes, leaves exactly the ban records
      of those messages, in order: the list emptied first is what keeps
      refreshes from piling up duplicates. */
  lemma BanRoundTrip(s: AppState, pilot: Pilot, ban: Ban, reply: seq<Message>)
    requires Valid(s) && ControlEnabled(s)
    requires forall i :: 0 <= i < |reply| ==> !reply[i].ClearBansMessage?
    ensures ReduceAll(Perform(s, BanActions(pilot)).state, reply).bans == BanRecords(reply)
    ensures ReduceAll(Perform(s, IPBanActions(pilot)).state, reply).bans == BanRecords(reply)
    ensures ReduceAll(Perform(s, LiftBanActions(ban)).state, reply).bans == BanRecords(reply)
  {
    BanEffect(s, pilot);
    IPBanEffect(s, pilot);
    LiftBanEffect(s, ban);
    BansAccumulate(s.(bans := []), reply);
  }

  /** Opening the socket records it as connected and sends "server" and then
      "mission"; nothing else in the state changes. */
  lemma OnOpenEffect(s: AppState, webSocket: Handle)
    ensures Perform(s, OnOpenActions(webSocket)) ==
              Effects(s.(connected := true, webSocket := Some(webSocket)), ["server", "mission"], true)
    ensures forall i :: 0 <= i < |OnOpenActions(webSocket)| && OnOpenActions(webSocket)[i].Dispatch? ==>
              WellFormed(OnOpenActions(webSocket)[i].message)
  {
    var m := ConnectionMessage(true, Some(webSocket));
    var cmds := ["server", "mission"];
    var sends := seq(|cmds|, i requires 0 <= i < |cmds| => Send(cmds[i]));
    assert OnOpenActions(webSocket) == [Dispatch(m)] + sends;
    PerformDispatch(s, m, sends);
    PerformSends(Reduce(s, m), cmds);
  }

  /** Closing marks the state disconnected and drops the socket, sends
      nothing, keeps everything else, and keeps the state valid. */
  lemma OnCloseEffect(s: AppState)
    requires Valid(s)
    ensures Perform(s, OnCloseActions()) ==
              Effects(s.(connected := false, webSocket := None), [], true)
    ensures Valid(Perform(s, OnCloseActions()).state)
  {
    PerformDispatch(s, ConnectionMessage(false, None), []);
  }

  /** Each view asks for its data exactly when there is a socket, and changes
      no state. */
  lemma ViewRefreshEffect(s: AppState)
    ensures Perform(s, PilotsViewActions(s.webSocket)) ==
              Effects(s, if s.webSocket.Some? then ["host", "user"] else [], true)
    ensures Perform(s, BansViewActions(s.webSocket)) ==
              Effects(s, if s.webSocket.Some? then ["ban"] else [], true)
    ensures Perform(s, DifficultyViewActions(s.webSocket)) ==
              Effects(s, if s.webSocket.Some? then ["difficulty"] else [], true)
  {
    if s.webSocket.Some? {
      var p := ["host", "user"];
      assert PilotsViewActions(s.webSocket) == seq(|p|, i requires 0 <= i < |p| => Send(p[i]));
      PerformSends(s, p);
      assert BansViewActions(s.webSocket) == seq(1, i requires 0 <= i < 1 => Send(["ban"][i]));
      PerformSends(s, ["ban"]);
      assert DifficultyViewActions(s.webSocket) == seq(1, i requires 0 <= i < 1 => Send(["difficulty"][i]));
      PerformSends(s, ["difficulty"]);
    }
  }

  /** The frame of every sent command is a ConsoleCommand object whose
      `command` property is the command text. */
  lemma CommandFrameFields(command: string)
    ensures Property(CommandFrame(command), "type") == Defined(JString("ConsoleCommand"))
    ensures Property(CommandFrame(command), "command") == Defined(JString(command))
  {
    var fields := CommandFrame(command).fields;
    assert fields[1].0 == "command" != "type";
    assert fields[..|fields| - 1] == [("type", JString(CONSOLE_COMMAND))];
    assert Lookup(fields, "type") == Lookup([("type", JString(CONSOLE_COMMAND))], "type");
  }
}
