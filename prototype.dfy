/** The earlier prototype client (app/app.js): it encodes commands as
    single-key envelopes and keeps only a bounded console transcript, updated
    from each received frame by a `setMessages` updater. */
module Prototype {
  import opened Wrappers
  import opened Js
  import opened ConsoleLog

  const MAX_MESSAGES: nat := 100

  /** `{[type]: content}`, the object `ClientMessage` stringifies. */
  function ClientMessage(tag: string, content: Json): Json {
    JObject([(tag, content)])
  }

  function ConsoleCommand(command: string): Json {
    ClientMessage("ConsoleCommand", JObject([("command", JString(command))]))
  }

  /** The frames `onopen` sends. */
  function OnOpenSends(): seq<Json> {
    [ConsoleCommand("server")]
  }

  /** The frames a key press in the console input sends. */
  function ConsoleInputSends(key: string, text: string): seq<Json> {
    if key == "Enter" then [ConsoleCommand(text)] else []
  }

  /** How the updater sees a parsed frame: reading a property of `null`
      throws; a frame whose `ConsoleMessage` property is truthy carries the
      text `consoleMessage.message` (possibly `undefined`); any other frame is
      not a console frame. */
  datatype Frame = Malformed | Other | Console(text: JsValue)

  function Classify(data: Json): Frame {
    match data
    case JNull => Malformed
    case JObject(fields) =>
      (match Lookup(fields, "ConsoleMessage")
       case Some(cm) => if Truthy(cm) then Console(Property(cm, "message")) else Other
       case None => Other)
    case _ => Other
  }

  /** What the updater passed to `setMessages` does: it throws, returns
      `undefined` (there is no return on the non-console path), or returns
      the new list. */
  datatype Outcome = Threw | ReturnedUndefined | Returned(messages: seq<JsValue>)

  function Update(msgs: seq<JsValue>, data: Json): Outcome {
    match Classify(data)
    case Malformed => Threw
    case Other => ReturnedUndefined
    case Console(text) =>
      if |msgs| >= MAX_MESSAGES then Returned(msgs[1..] + [text])
      else Returned(msgs + [text])
  }

  /** The buffer after the frames `frames`, stopping at the first update that
      does not return a list. */
  function RunFrames(msgs: seq<JsValue>, frames: seq<Json>): Outcome
    decreases |frames|
  {
    if frames == [] then Returned(msgs)
    else
      match Update(msgs, frames[0])
      case Returned(next) => RunFrames(next, frames[1..])
      case other => other
  }

  /** The texts of the console frames among `frames`, in order. */
  function Texts(frames: seq<Json>): seq<JsValue>
    decreases |frames|
  {
    if frames == [] then []
    else (match Classify(frames[0]) case Console(t) => [t] case _ => []) + Texts(frames[1..])
  }

  // ---------------------------------------------------------------------------
  // Properties

  /** A console command is a single-key object: its only key is
      "ConsoleCommand" and the value is `{command: c}`; distinct commands give
      distinct frames. */
  lemma EnvelopeShape(c: string, d: string)
    ensures ConsoleCommand(c).JObject? && |ConsoleCommand(c).fields| == 1
    ensures ConsoleCommand(c).fields[0].0 == "ConsoleCommand"
    ensures Property(ConsoleCommand(c), "ConsoleCommand") == Defined(JObject([("command", JString(c))]))
    ensures Property(JObject([("command", JString(c))]), "command") == Defined(JString(c))
    ensures ConsoleCommand(c) == ConsoleCommand(d) ==> c == d
  {
    assert ConsoleCommand(c) == ConsoleCommand(d) ==>
      ConsoleCommand(c).fields[0].1.fields[0].1.s == ConsoleCommand(d).fields[0].1.fields[0].1.s;
  }

  /** `onopen` sends exactly one command, "server". */
  lemma OnOpenSendsServer()
    ensures |OnOpenSends()| == 1
    ensures Property(Property(OnOpenSends()[0], "ConsoleCommand").json, "command") ==
              Defined(JString("server"))
  {
    EnvelopeShape("server", "server");
  }

  /** A key press in the console input sends one command, the typed line,
      when the key is Enter, and nothing for any other key. */
  lemma ConsoleInputSendsLine(key: string, text: string)
    ensures |ConsoleInputSends(key, text)| == if key == "Enter" then 1 else 0
    ensures key == "Enter" ==>
              Property(Property(ConsoleInputSends(key, text)[0], "ConsoleCommand").json, "command") ==
                Defined(JString(text))
  {
    EnvelopeShape(text, text);
  }

  /** Below the bound, a console frame's text is appended and every earlier
      entry stays. */
  lemma AppendBelowBound(msgs: seq<JsValue>, data: Json)
    requires Classify(data).Console? && |msgs| < MAX_MESSAGES
    ensures Update(msgs, data).Returned?
    ensures var r := Update(msgs, data).messages;
      |r| == |msgs| + 1 && r[..|msgs|] == msgs && r[|msgs|] == Classify(data).text
  {
    assert (msgs + [Classify(data).text])[..|msgs|] == msgs;
  }

  /** At or above the bound, the oldest entry leaves and the text is pushed:
      the size stays the same. */
  lemma AppendAtBound(msgs: seq<JsValue>, data: Json)
    requires Classify(data).Console? && |msgs| >= MAX_MESSAGES
    ensures Update(msgs, data).Returned?
    ensures var r := Update(msgs, data).messages;
      |r| == |msgs| && r[..|r| - 1] == msgs[1..] && r[|r| - 1] == Classify(data).text
  {
    assert (msgs[1..] + [Classify(data).text])[..|msgs| - 1] == msgs[1..];
  }

  /** A frame that is not a console frame makes the updater return nothing: an
      object without a truthy `ConsoleMessage` gives `undefined`, a `null`
      frame throws. */
  lemma NonConsoleFrame(msgs: seq<JsValue>, data: Json)
    requires !Classify(data).Console?
    ensures Update(msgs, data) == if data.JNull? then Threw else ReturnedUndefined
    ensures data.JObject? && (forall i :: 0 <= i < |data.fields| ==> data.fields[i].0 != "ConsoleMessage") ==>
              Update(msgs, data) == ReturnedUndefined
  {
  }

  /** Whatever the frames, a buffer that starts within the bound stays within
      it for as long as the updater keeps returning a list. */
  lemma {:induction false} RunStaysBounded(msgs: seq<JsValue>, frames: seq<Json>)
    requires |msgs| <= MAX_MESSAGES
    ensures RunFrames(msgs, frames).Returned? ==> |RunFrames(msgs, frames).messages| <= MAX_MESSAGES
    decreases |frames|
  {
    if frames != [] {
      match Update(msgs, frames[0]) {
        case Returned(next) => RunStaysBounded(next, frames[1..]);
        case _ =>
      }
    }
  }

  /** One console frame moves a buffer within the bound to the window of the
      buffer followed by the frame's text. */
  lemma UpdateStep(msgs: seq<JsValue>, data: Json)
    requires |msgs| <= MAX_MESSAGES && Classify(data).Console?
    ensures Update(msgs, data) == Returned(Last(msgs + [Classify(data).text], MAX_MESSAGES))
    ensures |Update(msgs, data).messages| <= MAX_MESSAGES
  {
    LastSnoc(msgs, Classify(data).text, MAX_MESSAGES);
    LastIsBoundedSuffix(msgs + [Classify(data).text], MAX_MESSAGES);
  }

  /** A run of console frames from a buffer within the bound leaves the most
      recent 100 entries of the old buffer followed by the new texts. */
  lemma {:induction false} RunWindow(msgs: seq<JsValue>, frames: seq<Json>)
    requires |msgs| <= MAX_MESSAGES
    requires forall i :: 0 <= i < |frames| ==> Classify(frames[i]).Console?
    ensures RunFrames(msgs, frames) == Returned(Last(msgs + Texts(frames), MAX_MESSAGES))
    decreases |frames|
  {
    if frames == [] {
      assert msgs + [] == msgs;
    } else {
      var t := Classify(frames[0]).text;
      var rest := Texts(frames[1..]);
      var next := Update(msgs, frames[0]).messages;
      assert RunFrames(msgs, frames) == RunFrames(next, frames[1..]);
      assert Texts(frames) == [t] + rest;
      UpdateStep(msgs, frames[0]);
      RunWindow(next, frames[1..]);
      LastConcat3(msgs, [t], rest, MAX_MESSAGES);
    }
  }

  /** From the empty buffer, after n console frames the buffer holds the last
      min(100, n) texts, oldest first, and never more than 100. */
  lemma FromEmpty(frames: seq<Json>)
    requires forall i :: 0 <= i < |frames| ==> Classify(frames[i]).Console?
    ensures RunFrames([], frames) == Returned(Last(Texts(frames), MAX_MESSAGES))
    ensures |RunFrames([], frames).messages| <= MAX_MESSAGES
  {
    RunWindow([], frames);
    assert [] + Texts(frames) == Texts(frames);
    LastIsBoundedSuffix(Texts(frames), MAX_MESSAGES);
  }
}
