# IL-2 Simple Server Daemon web client — state synchronisation model

This project models the browser client of the IL-2 Simple Server Daemon in
Dafny. The client keeps a live picture of a remote game server (connection
status, console transcript, pilot roster, ban list, difficulty settings and
mission status). It folds a stream of tagged messages from the daemon into
one application state, and it turns user actions into console commands sent
back over the same WebSocket.

Two files of the client are modelled:

- `app/src/app.js`, the current client:
  - its reducer `AppReducer` over the initial state `InitialAppState`
    (module `App`, file `app.dfy`);
  - what each handler dispatches and sends, in order (module `Commands`,
    file `commands.dfy`). A handler is a list of actions, `Dispatch(message)`
    or `Send(command)`. A ghost interpreter, `Perform`, runs that list
    against a state: a dispatch goes through the reducer, and a send appends
    the command to the list of commands sent. `Perform` calls the ghost
    reducer, so it is ghost too; the handler functions are compiled.
- `app/app.js`, the earlier prototype: its single-key command envelope and
  the bounded console updater passed to `setMessages` (module `Prototype`,
  file `prototype.dfy`).

The support modules are:

- `Js` (`js.dfy`): parsed JSON values, property lookup (a repeated key reads
  as its last occurrence) and JavaScript truthiness;
- `ConsoleLog` (`console_log.dfy`): the reference definition of a bounded
  transcript, `Last(xs, k)` = the most recent `k` entries;
- `Wrappers` (`wrappers.dfy`): `Option`.

Behaviour of the code worth knowing before reading the lemmas:

- **Console bound.** The reducer drops the oldest entry only when the log
  already holds MORE than `MAX_CONSOLE_MESSAGES` = 100 entries. The log
  therefore grows to 101 entries and stays there. The proved bound is 101
  (`ReduceAllPreservesValid`, `ConsoleWindow`). The prototype tests `>=`, so
  its bound really is 100 (`RunStaysBounded`, `FromEmpty`).
- **No decoder in `app/src/app.js`.** Messages there are flat objects
  `{type, ...content}` dispatched straight from `JSON.parse`. There is no
  single-key decoder and no decode error. The single-key envelope exists only
  in the prototype's encoder.
- **Mission shape.** The mission is a status plus an optional name, not a
  tagged union. The not-loaded message sets the name to `null`. Before the
  first mission message the name is absent.
- **Sends while disconnected.** A send while disconnected calls `send` on a
  `null` socket, which throws a TypeError that nothing catches: the handler
  stops there (`Perform` returns `completed == false`). This is why the controls are
  disabled while not connected (`DisconnectedSendsNothing`).

The pilot-roster lookup of a user message (`pilots.find(p => p.number ===
number)`) picks some matching entry in the order the Immutable library
iterates. `App.Find` models this as an unspecified choice, so `Reduce` is a
ghost function. The lemmas state the merge for a number that exactly one
entry holds (`UserMergesIntoHolder`), and for any number, an absent one
included (`UserMergesIntoSomeMatch`). JavaScript's `undefined === undefined`
lets a user message without a number reach an entry that has no number yet.
The roster keeps every entry under its own socket (`RosterKeyed`), which is
why the merged record, written back under `existing.socket`, replaces the
matched entry.

## Model

| member | source | states |
|---|---|---|
| Js.Truthy | app/app.js:62 | JavaScript truthiness of a parsed value (`if (consoleMessage)`): `null`, `false`, `0` and the empty string are falsy, every other value, arrays and objects included, is truthy; no contract of its own: `Prototype.Classify` uses it |
| Js.Lookup | app/app.js:61 | The value of the named field is the value of its last occurrence; the result is None exactly when no field has that key |
| Js.Property | app/app.js:61 | Reading a property of a non-null value: a non-object gives `undefined`; an object gives a value exactly when some field has that name, and then the value of the last such field |
| Js.PropertyLastWins | app/app.js:60-61 | A field appended at the end of an object overrides every earlier field of that name and leaves every other name reading as before |
| App.Reduce | app/src/app.js:347-387 | `AppReducer`: every part of the state is changed only by the messages that concern it (the connection fields by a connection message, the log by a console message, the roster by join, host, user and leave, the bans by clear-bans and the two ban messages, the difficulty map by a difficulty message, the mission by the three mission messages); each branch is stated in the lemmas below |
| App.Find | app/src/app.js:366 | `find` by number gives an entry exactly when some entry's number equals the one sought, and the entry it gives is in the roster and carries that number |
| App.Merge | app/src/app.js:365-367 | `{...existing, ...user}`; no contract of its own: `UserMergesIntoHolder` states the merged record field by field |
| App.TypeDeterminesKind | app/src/app.js:16-32 | Two well-formed messages with the same `type` string are the same kind of message, so the reducer's switch is unambiguous |
| App.InitialStateValid | app/src/app.js:335-343 | The initial state is disconnected, with an empty log and roster and no mission loaded, and satisfies the state invariant |
| App.ReduceAll | app/src/app.js:390 | The state `useReducer` reaches after dispatching messages in order; no contract of its own: `ReduceAllConcat`, `ReduceAllPreservesValid` and the window lemmas state its properties |
| App.FindInRoster | app/src/app.js:366-367 | In a socket-keyed roster the entry `find` returns is stored under its own socket |
| App.ReducePreservesValid | app/src/app.js:347-387 | Every well-formed message keeps the roster keyed by socket, the log at most 101 long, and `connected` true exactly when a socket is held |
| App.ReduceAllPreservesValid | app/src/app.js:345-357 | After any sequence of well-formed messages from a valid state, the invariant (roster keyed by socket, log of at most 101 entries, `connected` exactly when a socket is held) still holds |
| App.ReduceAllConcat | app/src/app.js:390 | Dispatching two message sequences one after the other equals dispatching their concatenation |
| App.ConsoleAppend | app/src/app.js:353-357 | A console message's text becomes the last entry; exactly the oldest entry is dropped when the log held more than 100, otherwise none; nothing else changes |
| App.ConsoleWindow | app/src/app.js:345-357 | From a log of at most 101 entries, the log after any messages is the most recent 101 entries of the old log and the console texts of those messages taken together, `Last(old log + texts, 101)` |
| App.ConsoleFromInitial | app/src/app.js:335-357 | From the initial state the log is the last min(101, n) console texts dispatched, in arrival order |
| App.ConnectionOnlyTouchesConnection | app/src/app.js:349-350 | A connection message sets `connected` and `webSocket` to its values and leaves messages, pilots, bans, difficulty and mission unchanged |
| App.UnknownIsIgnored | app/src/app.js:383-385 | A message whose type no case of the switch matches returns the state unchanged |
| App.JoinReplacesEntry | app/src/app.js:358-360 | A join stores exactly {socket, ip, port, name} under its socket, discarding any earlier number or statistics; other keys and the rest of the state are unchanged |
| App.HostReplacesEntry | app/src/app.js:361-363 | A host message stores {socket, ip, port, name, number} under its socket; other keys and the rest of the state are unchanged |
| App.UserMergesIntoHolder | app/src/app.js:364-368 | When exactly one entry has the number, that entry gets number, ping, score, army and aircraft overwritten and keeps socket, ip, port and name; no key is added and nothing else changes |
| App.UserMergesIntoSomeMatch | app/src/app.js:364-368 | For any number, an absent one included, a user message matching some entry merges into one matching entry and adds no key |
| App.UserWithoutMatchIsDropped | app/src/app.js:364-368 | A user message whose number no entry carries leaves the whole state unchanged, creating no entry |
| App.LeaveRemovesEntry | app/src/app.js:369-370 | A leave removes exactly the key `socket`, keeps every other entry, and is a no-op when the key is absent |
| App.JoinThenLeaveRestores | app/src/app.js:358-370 | A join followed by a leave of a socket not in the roster restores the original state |
| App.HostThenUser | app/src/app.js:361-368 | From the initial state, a host message and its user message leave exactly one entry combining the host's identity with the user's statistics |
| App.MissionOverwrites | app/src/app.js:371-376 | Playing and Loaded set status and name, NotLoaded sets status NotLoaded with no name, and each leaves the rest of the state unchanged |
| App.DifficultyLastWriteWins | app/src/app.js:381-382 | After several difficulty messages for one setting, the map is the old map with that one key carrying the final value |
| App.BansAccumulate | app/src/app.js:377-380 | Messages without a clear-bans message append exactly their IP and name ban records to the ban list, in arrival order |
| App.BanRefresh | app/src/app.js:351-380 | A clear-bans message followed by a listing leaves exactly the listed records, in order, whatever the list held before |
| App.RefreshIsRepeatable | app/src/app.js:351-380 | Two identical refresh rounds give the same ban list as one: no duplicates pile up across refreshes |
| Commands.ControlEnabled | app/src/app.js:156 | The `disabled={!connected}` test of the console input and the kick, ban, IP-ban and lift-ban buttons (also at :133, :143, :172 and :238): a control is enabled exactly when the state is connected; no contract of its own: it is the precondition of the handler lemmas and the negated precondition of `DisconnectedSendsNothing` |
| Commands.DifficultyControlEnabled | app/src/app.js:291 | A difficulty checkbox is enabled exactly when the state is connected and the mission is not playing; no contract of its own: it is the precondition of `ToggleDifficultyEffect` |
| Commands.ToUpper | app/src/app.js:242 | `toUpperCase` on ASCII text keeps the length, leaves no lower-case letter, turns each lower-case letter into its capital in place and keeps every other character |
| Commands.ToUpperIdempotent | app/src/app.js:242 | Upper-casing an upper-cased text changes nothing |
| Commands.BanKey | app/src/app.js:242 | The name of a ban record, or else its ip, as a template string prints it; no contract of its own: `LiftBanEffect` states the command it produces |
| Commands.BanType | app/src/app.js:44-47 | The `type` a ban record carries: "IP" for an IP record, "Name" for a name record, as pushed by the reducer at app/src/app.js:378 and :380; no contract of its own: `BanTypeUpper` and `LiftBanEffect` use it |
| Commands.BanTypeUpper | app/src/app.js:242 | The ban types upper-case to "IP" and "NAME" |
| Commands.CommandFrame | app/src/app.js:13-36 | `ConsoleCommand(command)` before `JSON.stringify`; no contract of its own: `CommandFrameFields` states its properties |
| Commands.KickActions | app/src/app.js:145-147 | The kick button's click handler; no contract of its own: `KickEffect` states what it does |
| Commands.BanActions | app/src/app.js:158-163 | The ban button's click handler; no contract of its own: `BanEffect` states what it does |
| Commands.IPBanActions | app/src/app.js:174-179 | The IP-ban button's click handler; no contract of its own: `IPBanEffect` states what it does |
| Commands.LiftBanActions | app/src/app.js:240-244 | The lift-ban button's click handler; no contract of its own: `LiftBanEffect` states what it does |
| Commands.ToggleDifficultyActions | app/src/app.js:293-297 | A difficulty checkbox's change handler; no contract of its own: `ToggleDifficultyEffect` states what it does |
| Commands.ConsoleInputActions | app/src/app.js:111-119 | The console input's key handler; no contract of its own: `ConsoleInputEffect` states what it does |
| Commands.OnOpenActions | app/src/app.js:407-411 | The socket's `onopen` callback; no contract of its own: `OnOpenEffect` states what it does |
| Commands.OnCloseActions | app/src/app.js:403-405 | The socket's `onclose` callback; no contract of its own: `OnCloseEffect` states what it does |
| Commands.PilotsViewActions | app/src/app.js:204-207 | The pilots view's effect; no contract of its own: `ViewRefreshEffect` states what it does |
| Commands.BansViewActions | app/src/app.js:263-265 | The bans view's effect; no contract of its own: `ViewRefreshEffect` states what it does |
| Commands.DifficultyViewActions | app/src/app.js:306-308 | The difficulty view's effect; no contract of its own: `ViewRefreshEffect` states what it does |
| Commands.Perform | app/src/app.js:146-162 | Running a handler: a dispatch goes through the reducer, a send records its command, and a send with no socket throws and stops the handler; no contract of its own: `PerformSends` and `PerformDispatch` state it |
| Commands.PerformSends | app/src/app.js:146-162 | With a socket, a handler made only of sends completes, sends exactly those commands in order and changes no state |
| Commands.PerformDispatch | app/src/app.js:159 | A handler that starts with a dispatch runs the reducer on that message before the rest |
| Commands.KickEffect | app/src/app.js:138-147 | While connected, kicking sends exactly "kick <name>" and changes no state |
| Commands.BanEffect | app/src/app.js:158-162 | While connected, banning by name empties the ban list and sends "ban ADD NAME <name>", "kick <name>", "ban" in that order |
| Commands.IPBanEffect | app/src/app.js:174-178 | While connected, banning by IP empties the ban list and sends "ban ADD IP <ip>", "kick <name>", "ban" in that order |
| Commands.LiftBanEffect | app/src/app.js:240-243 | While connected, lifting a ban empties the ban list and sends "ban REM IP <ip>" or "ban REM NAME <name>" (the name, or else the record's missing ip, "undefined"), then "ban" |
| Commands.ToggleDifficultyEffect | app/src/app.js:291-296 | While the checkbox is enabled, toggling sends "difficulty <setting> <opposite flag>" then "difficulty" and changes no state |
| Commands.ConsoleInputEffect | app/src/app.js:111-119 | While connected, the console input sends the typed line exactly on Enter and nothing on other keys |
| Commands.DisconnectedSendsNothing | app/src/app.js:138-246 | While disconnected, kick, ban, IP-ban and lift-ban send nothing and stop; the ban actions only empty the ban list |
| Commands.BanRoundTrip | app/src/app.js:158-178 | After a ban, IP-ban or lift-ban action and any messages that follow it without a further clear-bans dispatch (the kicked pilot's leave, console output, the reply to "ban"), the ban list is exactly the ban records of those messages, in order |
| Commands.OnOpenEffect | app/src/app.js:407-411 | On open, the state records the socket as connected, "server" then "mission" are sent, nothing else changes, and the dispatched message is well formed |
| Commands.OnCloseEffect | app/src/app.js:403-405 | On close, the state becomes disconnected with no socket, nothing is sent, everything else is kept, and the state stays valid |
| Commands.ViewRefreshEffect | app/src/app.js:204-308 | The pilots, bans and difficulty views send "host" and "user", "ban", or "difficulty" exactly when a socket is held, and change no state |
| Commands.CommandFrameFields | app/src/app.js:13-36 | A sent command is the flat object whose `type` is "ConsoleCommand" and whose `command` is the text |
| Prototype.ClientMessage | app/app.js:11 | The single-key object `{[type]: content}`; no contract of its own: `EnvelopeShape` states its shape |
| Prototype.ConsoleCommand | app/app.js:12 | The console command envelope; no contract of its own: `EnvelopeShape` states its shape |
| Prototype.EnvelopeShape | app/app.js:11-12 | A console command is a single-key object whose only key is "ConsoleCommand" and whose value is {command: c}; distinct commands give distinct frames |
| Prototype.OnOpenSendsServer | app/app.js:76-78 | `onopen` sends exactly one command, "server" |
| Prototype.ConsoleInputSendsLine | app/app.js:26-34 | A key press in the console input sends one command, the typed line, on Enter, and nothing for any other key |
| Prototype.OnOpenSends | app/app.js:76-78 | The frames `onopen` sends; no contract of its own: `OnOpenSendsServer` states them |
| Prototype.ConsoleInputSends | app/app.js:26-34 | The frames the console input's key handler sends; no contract of its own: `ConsoleInputSendsLine` states them |
| Prototype.Classify | app/app.js:60-62 | How the updater reads a parsed frame; no contract of its own: `NonConsoleFrame` and the append lemmas state it |
| Prototype.Update | app/app.js:59-69 | The updater passed to `setMessages`; no contract of its own: `AppendBelowBound`, `AppendAtBound` and `NonConsoleFrame` state it |
| Prototype.RunFrames | app/app.js:58-69 | The buffer after a run of frames, stopping at the first update that does not return a list; no contract of its own: `RunStaysBounded` and `RunWindow` state it |
| Prototype.AppendBelowBound | app/app.js:65-66 | Below 100 entries, a console frame's text is appended at the end and all earlier entries stay |
| Prototype.AppendAtBound | app/app.js:63-64 | At 100 or more entries, the oldest entry is dropped and the text pushed, so the size is unchanged |
| Prototype.NonConsoleFrame | app/app.js:59-69 | A frame without a truthy ConsoleMessage makes the updater return undefined (a null frame throws); an object lacking the key returns undefined |
| Prototype.RunStaysBounded | app/app.js:53-69 | From at most 100 entries, the buffer never exceeds 100 for as long as the updater returns a list |
| Prototype.RunWindow | app/app.js:53-69 | A run of console frames from a buffer of at most 100 entries leaves the most recent 100 entries of the old buffer and the new texts taken together, `Last(old buffer + texts, 100)` |
| Prototype.FromEmpty | app/app.js:53-69 | From the empty buffer, n console frames leave the last min(100, n) texts in order, never more than 100 |

## Left out

- Rendering, routing and styling (`Header`, `Footer`, the status displays, `Console`, the tables, `Router`/`Switch`/`Route`, CSS): presentation only. Clearing the console input on Enter (`event.target.value = ""`, app/src/app.js:115 and app/app.js:30) is a DOM update and is not modelled either; the console input handlers model only what is sent.
- The WebSocket itself: construction, URL derivation from `process.env` and `location`, `JSON.parse`, `JSON.stringify` and `close` are browser I/O. Frames are modelled as parsed values, and sends as the commands a handler emits.
- Reading fields from a parsed daemon frame into a `Message` is not modelled. Fields are assumed to hold the types shown, except the optional `number` of host and user messages. A daemon frame whose `type` is "ConnectionMessage" would be dispatched too. The invariant lemmas take only `WellFormed` connection messages, which are connected exactly when they carry a socket. The client's own open and close callbacks produce only such messages.
- A JSON `null` in the `number` of a host or user frame is not modelled: `None` stands for a missing number, which reads as `undefined`. A `null` host number and a missing user number are both `None` here, so the model merges them, where JavaScript's `null === undefined` is false and would not.
- React's `dispatch` applies its update at the next render. `Perform` applies it at once, and its sends use the state's socket. For the button handlers this is equivalent: they send on the socket of the state they were rendered with, and the clear-bans dispatch they start with does not change it. `onopen` sends on its own local `webSocket` instead, which is not yet in the state when it sends. That socket is the one its `ConnectionMessage` carries, so applying that dispatch first gives `Perform` the very socket the source sends on.
- The iteration order of Immutable `Map.find`: the choice among several matching entries is left unspecified.
- Effect timing (`useEffect` dependencies) and the textarea scroll logic: UI lifecycle.
- Display sorting of pilots and difficulty settings: it relies on JavaScript's mixed-type comparison and on library calls.
- `console.log` diagnostics in the reducer's default branch.
- Numbers are integers: JSON floating-point values are not modelled.
- `ToUpper` upper-cases ASCII letters only. The ban types it is applied to are ASCII.
- Prototype: `onclose` calling `webSocket.close()` is a foreign call. What `setMessages` holds after the updater has returned `undefined` is not modelled; `RunFrames` stops there.
- `app/index.js`: a ReactDOM bootstrap with no logic.
