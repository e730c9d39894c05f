/** The application state of the web client and the reducer that folds each
    dispatched message into it (app/src/app.js). Messages are the flat
    `{type, ...content}` objects of the source; each `type` string becomes a
    constructor of `Message`, and every other `type` is `UnknownMessage`. */
module App {
  import opened Wrappers
  import opened ConsoleLog

  /** The connection-level identifier of a pilot, the roster's key. */
  type Socket = string

  /** An open WebSocket, known only by identity. */
  datatype Handle = Handle(id: nat)

  datatype MissionStatus = Playing | Loaded | NotLoaded

  /** `{status, mission}`: the name is absent before the first mission message
      and after `MissionNotLoadedMessage`. */
  datatype Mission = Mission(status: MissionStatus, name: Option<string>)

  /** A ban record, `{type: "IP", ip}` or `{type: "Name", name}`. */
  datatype Ban = IPBan(ip: string) | NameBan(name: string)

  /** A roster entry. A join gives socket, ip, port and name; `number` comes
      with a host message or a user message, the statistics with a user
      message. `None` stands for a property the record does not have (or holds
      as `undefined`). */
  datatype Pilot = Pilot(
    socket: Socket, ip: string, port: int, name: string,
    number: Option<int>, ping: Option<int>, score: Option<int>,
    army: Option<string>, aircraft: Option<string>)

  datatype AppState = AppState(
    connected: bool,
    webSocket: Option<Handle>,
    messages: seq<string>,
    pilots: map<Socket, Pilot>,
    bans: seq<Ban>,
    difficulty: map<string, bool>,
    mission: Mission)

  /** The message vocabulary. `ConnectionMessage` and `ClearBansMessage` are
      raised by the client itself; the others arrive from the daemon. The
      `number` of a host or user message is optional because the frame is
      dispatched without validation and the reducer copies whatever it holds. */
  datatype Message =
    | ConnectionMessage(connected: bool, webSocket: Option<Handle>)
    | ClearBansMessage
    | ConsoleMessage(message: string)
    | PilotJoinMessage(socket: Socket, ip: string, port: int, name: string)
    | HostMessage(socket: Socket, ip: string, port: int, name: string, number: Option<int>)
    | UserMessage(number: Option<int>, ping: int, score: int, army: Option<string>, aircraft: Option<string>)
    | PilotLeaveMessage(socket: Socket)
    | MissionPlayingMessage(mission: string)
    | MissionLoadedMessage(mission: string)
    | MissionNotLoadedMessage
    | IPBanMessage(ip: string)
    | NameBanMessage(name: string)
    | DifficultyMessage(setting: string, enabled: bool)
    | UnknownMessage(tag: string)
  {
    /** The `type` string the message carries on the wire. */
    function Type(): string {
      match this
      case ConnectionMessage(_, _) => "ConnectionMessage"
      case ClearBansMessage => "ClearBansMessage"
      case ConsoleMessage(_) => "ConsoleMessage"
      case PilotJoinMessage(_, _, _, _) => "PilotJoinMessage"
      case HostMessage(_, _, _, _, _) => "HostMessage"
      case UserMessage(_, _, _, _, _) => "UserMessage"
      case PilotLeaveMessage(_) => "PilotLeaveMessage"
      case MissionPlayingMessage(_) => "MissionPlayingMessage"
      case MissionLoadedMessage(_) => "MissionLoadedMessage"
      case MissionNotLoadedMessage => "MissionNotLoadedMessage"
      case IPBanMessage(_) => "IPBanMessage"
      case NameBanMessage(_) => "NameBanMessage"
      case DifficultyMessage(_, _) => "DifficultyMessage"
      case UnknownMessage(tag) => tag
    }
  }

  const KNOWN_TYPES: set<string> := {
    "ConnectionMessage", "ClearBansMessage", "ConsoleMessage", "PilotJoinMessage",
    "HostMessage", "UserMessage", "PilotLeaveMessage", "MissionPlayingMessage",
    "MissionLoadedMessage", "MissionNotLoadedMessage", "IPBanMessage",
    "NameBanMessage", "DifficultyMessage"
  }

  const MAX_CONSOLE_MESSAGES: nat := 100

  const InitialAppState := AppState(
    false, None, [], map[], [], map[], Mission(NotLoaded, None))

  /** A message as the client can produce it: an unknown message carries a
      `type` no case of the reducer matches, and a connection message is
      connected exactly when it carries a socket (the client raises only
      `(true, socket)` on open and `(false, null)` on close). */
  predicate WellFormed(m: Message) {
    && (m.UnknownMessage? ==> m.tag !in KNOWN_TYPES)
    && (m.ConnectionMessage? ==> (m.connected <==> m.webSocket.Some?))
  }

  /** Every roster entry is stored under its own socket. */
  predicate RosterKeyed(pilots: map<Socket, Pilot>) {
    forall k :: k in pilots ==> pilots[k].socket == k
  }

  /** What every state reachable from `InitialAppState` satisfies. */
  predicate Valid(s: AppState) {
    && RosterKeyed(s.pilots)
    && |s.messages| <= MAX_CONSOLE_MESSAGES + 1
    && (s.connected <==> s.webSocket.Some?)
  }

  /** Immutable's `pilots.find(p => p.number === number)`: some entry whose
      number equals `number`, if there is one. Which one, when several match,
      depends on the library's iteration order and is left unspecified. */
  ghost function Find(pilots: map<Socket, Pilot>, number: Option<int>): (r: Option<Pilot>)
    ensures r.Some? <==> exists k :: k in pilots && pilots[k].number == number
    ensures r.Some? ==> exists k :: k in pilots && pilots[k] == r.value && r.value.number == number
  {
    if exists k :: k in pilots && pilots[k].number == number then
      var k :| k in pilots && pilots[k].number == number;
      Some(pilots[k])
    else
      None
  }

  /** `{...existing, ...user}`: the user message's five fields overwrite the
      entry's, and its socket, ip, port and name stay. */
  function Merge(existing: Pilot, number: Option<int>, ping: int, score: int,
                 army: Option<string>, aircraft: Option<string>): Pilot
  {
    existing.(number := number, ping := Some(ping), score := Some(score),
              army := army, aircraft := aircraft)
  }

  /** `AppReducer(state, message)`. Each part of the state is changed only by
      the messages that concern it. */
  ghost function Reduce(s: AppState, m: Message): (r: AppState)
    ensures !m.ConnectionMessage? ==> r.connected == s.connected && r.webSocket == s.webSocket
    ensures !m.ConsoleMessage? ==> r.messages == s.messages
    ensures !(m.PilotJoinMessage? || m.HostMessage? || m.UserMessage? || m.PilotLeaveMessage?) ==>
              r.pilots == s.pilots
    ensures !(m.ClearBansMessage? || m.IPBanMessage? || m.NameBanMessage?) ==> r.bans == s.bans
    ensures !m.DifficultyMessage? ==> r.difficulty == s.difficulty
    ensures !(m.MissionPlayingMessage? || m.MissionLoadedMessage? || m.MissionNotLoadedMessage?) ==>
              r.mission == s.mission
  {
    match m
    case ConnectionMessage(connected, webSocket) =>
      s.(connected := connected, webSocket := webSocket)
    case ClearBansMessage =>
      s.(bans := [])
    case ConsoleMessage(text) =>
      s.(messages :=
           if |s.messages| > MAX_CONSOLE_MESSAGES then s.messages[1..] + [text]
           else s.messages + [text])
    case PilotJoinMessage(socket, ip, port, name) =>
      s.(pilots := s.pilots[socket := Pilot(socket, ip, port, name, None, None, None, None, None)])
    case HostMessage(socket, ip, port, name, number) =>
      s.(pilots := s.pilots[socket := Pilot(socket, ip, port, name, number, None, None, None, None)])
    case UserMessage(number, ping, score, army, aircraft) =>
      (match Find(s.pilots, number)
       case Some(existing) =>
         s.(pilots := s.pilots[existing.socket := Merge(existing, number, ping, score, army, aircraft)])
       case None => s)
    case PilotLeaveMessage(socket) =>
      s.(pilots := s.pilots - {socket})
    case MissionPlayingMessage(name) =>
      s.(mission := Mission(Playing, Some(name)))
    case MissionLoadedMessage(name) =>
      s.(mission := Mission(Loaded, Some(name)))
    case MissionNotLoadedMessage =>
      s.(mission := Mission(NotLoaded, None))
    case IPBanMessage(ip) =>
      s.(bans := s.bans + [IPBan(ip)])
    case NameBanMessage(name) =>
      s.(bans := s.bans + [NameBan(name)])
    case DifficultyMessage(setting, enabled) =>
      s.(difficulty := s.difficulty[setting := enabled])
    case UnknownMessage(_) =>
      s
  }

  /** The state after the messages `ms`, dispatched in order. */
  ghost function ReduceAll(s: AppState, ms: seq<Message>): AppState
    decreases |ms|
  {
    if ms == [] then s else ReduceAll(Reduce(s, ms[0]), ms[1..])
  }

  /** The console text a message carries: none, or one. */
  function ConsoleText(m: Message): seq<string> {
    if m.ConsoleMessage? then [m.message] else []
  }

  /** The console texts among `ms`, in order. */
  function ConsoleTexts(ms: seq<Message>): seq<string>
    decreases |ms|
  {
    if ms == [] then [] else ConsoleText(ms[0]) + ConsoleTexts(ms[1..])
  }

  /** The ban records that the ban messages among `ms` append, in order. */
  function BanRecords(ms: seq<Message>): seq<Ban>
    decreases |ms|
  {
    if ms == [] then []
    else
      (match ms[0]
       case IPBanMessage(ip) => [IPBan(ip)]
       case NameBanMessage(name) => [NameBan(name)]
       case _ => []) + BanRecords(ms[1..])
  }

  // ---------------------------------------------------------------------------
  // The message vocabulary

  /** The reducer's switch is unambiguous: two well-formed messages with the
      same `type` are the same kind of message. */
  lemma TypeDeterminesKind(m1: Message, m2: Message)
    requires WellFormed(m1) && WellFormed(m2) && m1.Type() == m2.Type()
    ensures m1.ConnectionMessage? <==> m2.ConnectionMessage?
    ensures m1.ClearBansMessage? <==> m2.ClearBansMessage?
    ensures m1.ConsoleMessage? <==> m2.ConsoleMessage?
    ensures m1.PilotJoinMessage? <==> m2.PilotJoinMessage?
    ensures m1.HostMessage? <==> m2.HostMessage?
    ensures m1.UserMessage? <==> m2.UserMessage?
    ensures m1.PilotLeaveMessage? <==> m2.PilotLeaveMessage?
    ensures m1.MissionPlayingMessage? <==> m2.MissionPlayingMessage?
    ensures m1.MissionLoadedMessage? <==> m2.MissionLoadedMessage?
    ensures m1.MissionNotLoadedMessage? <==> m2.MissionNotLoadedMessage?
    ensures m1.IPBanMessage? <==> m2.IPBanMessage?
    ensures m1.NameBanMessage? <==> m2.NameBanMessage?
    ensures m1.DifficultyMessage? <==> m2.DifficultyMessage?
    ensures m1.UnknownMessage? <==> m2.UnknownMessage?
  {
  }

  // ---------------------------------------------------------------------------
  // Invariants

  lemma InitialStateValid()
    ensures Valid(InitialAppState)
    ensures InitialAppState.messages == [] && InitialAppState.pilots == map[]
    ensures InitialAppState.mission == Mission(NotLoaded, None) && !InitialAppState.connected
  {
  }

  /** The entry `find` returns for a keyed roster is stored under its socket. */
  lemma FindInRoster(pilots: map<Socket, Pilot>, number: Option<int>)
    requires RosterKeyed(pilots) && Find(pilots, number).Some?
    ensures var p := Find(pilots, number).value;
      p.socket in pilots && pilots[p.socket] == p && p.number == number
  {
    var p := Find(pilots, number).value;
    var k :| k in pilots && pilots[k] == p && p.number == number;
    assert p.socket == k;
  }

  /** Every well-formed message keeps the state valid. */
  lemma ReducePreservesValid(s: AppState, m: Message)
    requires Valid(s) && WellFormed(m)
    ensures Valid(Reduce(s, m))
  {
    if m.UserMessage? && Find(s.pilots, m.number).Some? {
      FindInRoster(s.pilots, m.number);
    }
  }

  /** Valid states stay valid under any sequence of well-formed messages. In
      particular the console log of every reachable state holds at most
      MAX_CONSOLE_MESSAGES + 1 = 101 entries: the reducer's test is `>`. */
  lemma {:induction false} ReduceAllPreservesValid(s: AppState, ms: seq<Message>)
    requires Valid(s)
    requires forall i :: 0 <= i < |ms| ==> WellFormed(ms[i])
    ensures Valid(ReduceAll(s, ms))
    decreases |ms|
  {
    if ms != [] {
      ReducePreservesValid(s, ms[0]);
      ReduceAllPreservesValid(Reduce(s, ms[0]), ms[1..]);
    }
  }

  /** Dispatching `a` and then `b` is dispatching `a + b`. */
  lemma {:induction false} ReduceAllConcat(s: AppState, a: seq<Message>, b: seq<Message>)
    ensures ReduceAll(s, a + b) == ReduceAll(ReduceAll(s, a), b)
    decreases |a|
  {
    if a != [] {
      assert (a + b)[0] == a[0];
      assert (a + b)[1..] == a[1..] + b;
      ReduceAllConcat(Reduce(s, a[0]), a[1..], b);
    } else {
      assert a + b == b;
    }
  }

  /** Two messages in a row. */
  lemma ReduceAllPair(s: AppState, m1: Message, m2: Message)
    ensures ReduceAll(s, [m1, m2]) == Reduce(Reduce(s, m1), m2)
  {
    var ms := [m1, m2];
    var s1 := Reduce(s, m1);
    assert ms[0] == m1 && ms[1..] == [m2];
    assert ReduceAll(s, ms) == ReduceAll(s1, [m2]);
    assert [m2][0] == m2 && [m2][1..] == [];
    assert ReduceAll(s1, [m2]) == ReduceAll(Reduce(s1, m2), []);
  }

  // ---------------------------------------------------------------------------
  // Console log

  /** One console message: its text becomes the last entry; when the log held
      more than MAX_CONSOLE_MESSAGES entries exactly the oldest is dropped,
      otherwise nothing is; no other part of the state changes. */
  lemma ConsoleAppend(s: AppState, text: string)
    ensures var r := Reduce(s, ConsoleMessage(text));
      && |r.messages| > 0 && r.messages[|r.messages| - 1] == text
      && r.messages[..|r.messages| - 1] ==
           (if |s.messages| > MAX_CONSOLE_MESSAGES then s.messages[1..] else s.messages)
      && r == s.(messages := r.messages)
  {
  }

  /** In a valid state the log is always the most recent 101 console texts of
      its history: the log after any messages is the window of the old log
      followed by the texts those messages carried. */
  lemma {:induction false} ConsoleWindow(s: AppState, ms: seq<Message>)
    requires |s.messages| <= MAX_CONSOLE_MESSAGES + 1
    ensures ReduceAll(s, ms).messages ==
              Last(s.messages + ConsoleTexts(ms), MAX_CONSOLE_MESSAGES + 1)
    decreases |ms|
  {
    var k := MAX_CONSOLE_MESSAGES + 1;
    if ms == [] {
      assert s.messages + [] == s.messages;
    } else {
      var head := ConsoleText(ms[0]);
      var rest := ConsoleTexts(ms[1..]);
      var s' := Reduce(s, ms[0]);
      assert ReduceAll(s, ms) == ReduceAll(s', ms[1..]);
      assert ConsoleTexts(ms) == head + rest;
      ConsoleStep(s, ms[0]);
      ConsoleWindow(s', ms[1..]);
      LastConcat3(s.messages, head, rest, k);
    }
  }

  /** One message moves a log of at most 101 entries to the window of the log
      followed by the message's console text. */
  lemma ConsoleStep(s: AppState, m: Message)
    requires |s.messages| <= MAX_CONSOLE_MESSAGES + 1
    ensures Reduce(s, m).messages == Last(s.messages + ConsoleText(m), MAX_CONSOLE_MESSAGES + 1)
    ensures |Reduce(s, m).messages| <= MAX_CONSOLE_MESSAGES + 1
  {
    var k := MAX_CONSOLE_MESSAGES + 1;
    if m.ConsoleMessage? {
      LastSnoc(s.messages, m.message, k);
    } else {
      assert s.messages + [] == s.messages;
    }
    LastIsBoundedSuffix(s.messages + ConsoleText(m), k);
  }

  /** From the initial state the log holds the last min(101, n) console texts
      of the n dispatched so far, oldest first. */
  lemma ConsoleFromInitial(ms: seq<Message>)
    ensures ReduceAll(InitialAppState, ms).messages ==
              Last(ConsoleTexts(ms), MAX_CONSOLE_MESSAGES + 1)
  {
    ConsoleWindow(InitialAppState, ms);
    assert InitialAppState.messages + ConsoleTexts(ms) == ConsoleTexts(ms);
  }

  // ---------------------------------------------------------------------------
  // Connection

  /** A connection message sets `connected` and `webSocket` and nothing else:
      a disconnect keeps the transcript, roster, bans, difficulty and mission. */
  lemma ConnectionOnlyTouchesConnection(s: AppState, connected: bool, ws: Option<Handle>)
    ensures var r := Reduce(s, ConnectionMessage(connected, ws));
      && r.connected == connected && r.webSocket == ws
      && r.messages == s.messages && r.pilots == s.pilots && r.bans == s.bans
      && r.difficulty == s.difficulty && r.mission == s.mission
  {
  }

  /** A message of unknown type leaves the state as it was. */
  lemma UnknownIsIgnored(s: AppState, tag: string)
    requires tag !in KNOWN_TYPES
    ensures Reduce(s, UnknownMessage(tag)) == s
  {
  }

  // ---------------------------------------------------------------------------
  // Roster

  /** A join stores exactly {socket, ip, port, name} under the socket, dropping
      any number or statistics known for that socket; other entries stay. */
  lemma JoinReplacesEntry(s: AppState, socket: Socket, ip: string, port: int, name: string)
    ensures var r := Reduce(s, PilotJoinMessage(socket, ip, port, name));
      && r.pilots.Keys == s.pilots.Keys + {socket}
      && r.pilots[socket] == Pilot(socket, ip, port, name, None, None, None, None, None)
      && (forall k :: k in s.pilots && k != socket ==> r.pilots[k] == s.pilots[k])
      && r == s.(pilots := r.pilots)
  {
  }

  /** A host message does what a join does and also records the number. */
  lemma HostReplacesEntry(s: AppState, socket: Socket, ip: string, port: int, name: string, number: Option<int>)
    ensures var r := Reduce(s, HostMessage(socket, ip, port, name, number));
      && r.pilots.Keys == s.pilots.Keys + {socket}
      && r.pilots[socket] == Pilot(socket, ip, port, name, number, None, None, None, None)
      && (forall k :: k in s.pilots && k != socket ==> r.pilots[k] == s.pilots[k])
      && r == s.(pilots := r.pilots)
  {
  }

  /** `number` belongs to the entry under `socket` and to no other entry. */
  predicate HeldOnlyBy(pilots: map<Socket, Pilot>, socket: Socket, number: Option<int>) {
    && socket in pilots && pilots[socket].number == number
    && forall k :: k in pilots && k != socket ==> pilots[k].number != number
  }

  /** A user message whose number belongs to exactly one entry merges its
      number, ping, score, army and aircraft into that entry, under that
      entry's own socket, keeping socket, ip, port and name; no entry is added,
      no other entry and no other part of the state changes. */
  lemma UserMergesIntoHolder(s: AppState, socket: Socket, number: int, ping: int, score: int,
                             army: Option<string>, aircraft: Option<string>)
    requires RosterKeyed(s.pilots) && HeldOnlyBy(s.pilots, socket, Some(number))
    ensures var r := Reduce(s, UserMessage(Some(number), ping, score, army, aircraft));
      var p := s.pilots[socket];
      && r.pilots.Keys == s.pilots.Keys
      && r.pilots[socket] ==
           Pilot(p.socket, p.ip, p.port, p.name, Some(number), Some(ping), Some(score), army, aircraft)
      && (forall k :: k in s.pilots && k != socket ==> r.pilots[k] == s.pilots[k])
      && r == s.(pilots := r.pilots)
  {
    FindInRoster(s.pilots, Some(number));
    var found := Find(s.pilots, Some(number)).value;
    assert found.socket == socket;
  }

  /** Whatever the number (an absent one included: `undefined === undefined`
      lets a user message without a number reach an entry that has none), a
      user message that matches some entry changes exactly one matching entry
      and never adds one. */
  lemma UserMergesIntoSomeMatch(s: AppState, number: Option<int>, ping: int, score: int,
                                army: Option<string>, aircraft: Option<string>)
    requires RosterKeyed(s.pilots)
    requires exists k :: k in s.pilots && s.pilots[k].number == number
    ensures var r := Reduce(s, UserMessage(number, ping, score, army, aircraft));
      && r.pilots.Keys == s.pilots.Keys
      && exists k :: k in s.pilots && s.pilots[k].number == number &&
           r.pilots == s.pilots[k := Merge(s.pilots[k], number, ping, score, army, aircraft)]
  {
    FindInRoster(s.pilots, number);
  }

  /** A user message whose number no entry carries is dropped: the whole state
      is unchanged and no entry is created for it. */
  lemma UserWithoutMatchIsDropped(s: AppState, number: Option<int>, ping: int, score: int,
                                  army: Option<string>, aircraft: Option<string>)
    requires forall k :: k in s.pilots ==> s.pilots[k].number != number
    ensures Reduce(s, UserMessage(number, ping, score, army, aircraft)) == s
  {
  }

  /** A leave removes exactly the key `socket`, and is a no-op when it is absent. */
  lemma LeaveRemovesEntry(s: AppState, socket: Socket)
    ensures var r := Reduce(s, PilotLeaveMessage(socket));
      && r.pilots.Keys == s.pilots.Keys - {socket}
      && (forall k :: k in r.pilots ==> r.pilots[k] == s.pilots[k])
      && r == s.(pilots := r.pilots)
      && (socket !in s.pilots ==> r == s)
  {
    if socket !in s.pilots {
      assert s.pilots - {socket} == s.pilots;
    }
  }

  /** A join and then a leave of a socket the roster did not hold restores the
      roster. */
  lemma JoinThenLeaveRestores(s: AppState, socket: Socket, ip: string, port: int, name: string)
    requires socket !in s.pilots
    ensures ReduceAll(s, [PilotJoinMessage(socket, ip, port, name), PilotLeaveMessage(socket)]) ==
              s
  {
    ReduceAllPair(s, PilotJoinMessage(socket, ip, port, name), PilotLeaveMessage(socket));
    var s1 := Reduce(s, PilotJoinMessage(socket, ip, port, name));
    assert s1.pilots - {socket} == s.pilots;
  }

  /** The roster a host message and then that host's user message leave: one
      entry carrying the host's identity and the user message's statistics. */
  lemma HostThenUser(socket: Socket, ip: string, port: int, name: string, number: int,
                     ping: int, score: int, army: string, aircraft: string)
    ensures ReduceAll(InitialAppState,
              [HostMessage(socket, ip, port, name, Some(number)),
               UserMessage(Some(number), ping, score, Some(army), Some(aircraft))]).pilots ==
            map[socket := Pilot(socket, ip, port, name, Some(number), Some(ping), Some(score),
                                Some(army), Some(aircraft))]
  {
    var host := HostMessage(socket, ip, port, name, Some(number));
    var user := UserMessage(Some(number), ping, score, Some(army), Some(aircraft));
    ReduceAllPair(InitialAppState, host, user);
    var s1 := Reduce(InitialAppState, host);
    assert HeldOnlyBy(s1.pilots, socket, Some(number));
    UserMergesIntoHolder(s1, socket, number, ping, score, Some(army), Some(aircraft));
  }

  // ---------------------------------------------------------------------------
  // Mission and difficulty

  /** Each mission message replaces the whole mission value and nothing else;
      the not-loaded message clears the name. */
  lemma MissionOverwrites(s: AppState, name: string)
    ensures Reduce(s, MissionPlayingMessage(name)).mission == Mission(Playing, Some(name))
    ensures Reduce(s, MissionLoadedMessage(name)).mission == Mission(Loaded, Some(name))
    ensures Reduce(s, MissionNotLoadedMessage).mission == Mission(NotLoaded, None)
    ensures Reduce(s, MissionPlayingMessage(name)) == s.(mission := Mission(Playing, Some(name)))
    ensures Reduce(s, MissionLoadedMessage(name)) == s.(mission := Mission(Loaded, Some(name)))
    ensures Reduce(s, MissionNotLoadedMessage) == s.(mission := Mission(NotLoaded, None))
  {
  }

  /** The difficulty messages for one setting carrying `values` in turn. */
  function DifficultyRun(setting: string, values: seq<bool>): seq<Message>
    decreases |values|
  {
    if values == [] then [] else [DifficultyMessage(setting, values[0])] + DifficultyRun(setting, values[1..])
  }

  /** Difficulty is last-write-wins: after several messages for one setting the
      map holds that one key once more, carrying the final value, and every
      other key as before. */
  lemma {:induction false} DifficultyLastWriteWins(s: AppState, setting: string, values: seq<bool>)
    requires |values| > 0
    ensures ReduceAll(s, DifficultyRun(setting, values)).difficulty ==
              s.difficulty[setting := values[|values| - 1]]
    decreases |values|
  {
    var ms := DifficultyRun(setting, values);
    var rest := DifficultyRun(setting, values[1..]);
    assert ms == [DifficultyMessage(setting, values[0])] + rest;
    assert ms[0] == DifficultyMessage(setting, values[0]) && ms[1..] == rest;
    var s' := Reduce(s, ms[0]);
    assert ReduceAll(s, ms) == ReduceAll(s', rest);
    if |values| > 1 {
      DifficultyLastWriteWins(s', setting, values[1..]);
      assert values[1..][|values[1..]| - 1] == values[|values| - 1];
      assert s'.difficulty[setting := values[|values| - 1]] == s.difficulty[setting := values[|values| - 1]];
    } else {
      assert rest == [];
    }
  }

  // ---------------------------------------------------------------------------
  // Bans

  /** Messages without a clear-bans message append exactly their ban records,
      in arrival order, to the ban list. */
  lemma {:induction false} BansAccumulate(s: AppState, ms: seq<Message>)
    requires forall i :: 0 <= i < |ms| ==> !ms[i].ClearBansMessage?
    ensures ReduceAll(s, ms).bans == s.bans + BanRecords(ms)
    decreases |ms|
  {
    if ms != [] {
      BansAccumulate(Reduce(s, ms[0]), ms[1..]);
      var head := match ms[0]
        case IPBanMessage(ip) => [IPBan(ip)]
        case NameBanMessage(name) => [NameBan(name)]
        case _ => [];
      assert BanRecords(ms) == head + BanRecords(ms[1..]);
      assert Reduce(s, ms[0]).bans == s.bans + head;
    } else {
      assert s.bans + [] == s.bans;
    }
  }

  /** A clear-bans message followed by a listing leaves exactly the listed
      records, in order, whatever the ban list held before. */
  lemma BanRefresh(s: AppState, listing: seq<Message>)
    requires forall i :: 0 <= i < |listing| ==> !listing[i].ClearBansMessage?
    ensures ReduceAll(s, [ClearBansMessage] + listing).bans == BanRecords(listing)
  {
    var ms := [ClearBansMessage] + listing;
    assert ms[0] == ClearBansMessage && ms[1..] == listing;
    BansAccumulate(Reduce(s, ClearBansMessage), listing);
  }

  /** Repeating a refresh round-trip with the same listing gives the same ban
      list as doing it once: entries are never duplicated across refreshes. */
  lemma RefreshIsRepeatable(s: AppState, listing: seq<Message>)
    requires forall i :: 0 <= i < |listing| ==> !listing[i].ClearBansMessage?
    ensures var round := [ClearBansMessage] + listing;
      ReduceAll(s, round + round).bans == ReduceAll(s, round).bans
  {
    var round := [ClearBansMessage] + listing;
    ReduceAllConcat(s, round, round);
    BanRefresh(s, listing);
    BanRefresh(ReduceAll(s, round), listing);
  }
}
