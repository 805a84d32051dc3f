/** The host's chat bridge: runtime events of one prompt become the chat frames of one turn. */
module ChatBridge {
  import opened Prelude

  datatype AssistantEvent = AssistantEvent(kind: string, delta: Option<string>, text: Option<string>, toolName: Option<string>)

  /** `message.content`: a string, a list of parts with or without a text, or something else. */
  datatype Content = Plain(text: string) | Parts(parts: seq<Option<string>>) | Neither

  datatype Message = Message(role: string, content: Option<string>)

  /** A runtime event.  A field of another type than the bridge looks for counts as absent;
      `rejection` and `failure` are the rendered error of a response and of an error event. */
  datatype PiEvent = PiEvent(
    kind: string, success: bool, rejection: string, failure: string, ame: Option<AssistantEvent>,
    text: Option<string>, content: Option<string>, message: Content, messages: seq<Message>,
    toolName: string, partial: Option<string>)

  datatype ActiveTurn = ActiveTurn(turnId: string, target: Option<string>, sawText: bool, replyText: string)

  datatype TunnelMessage =
    | Chunk(turnId: string, target: Option<string>, token: string)
    | Activity(turnId: string, target: Option<string>, kind: string, status: string,
               toolName: Option<string>, delta: Option<string>)
    | Done(turnId: string, target: Option<string>, text: string)
    | Error(turnId: string, target: Option<string>, message: string)

  predicate Terminal(m: TunnelMessage) {
    m.Done? || m.Error?
  }

  /** The active turn, if any, and everything sent into the tunnel. */
  datatype State = State(active: Option<ActiveTurn>, sent: seq<TunnelMessage>)

  function JoinedParts(parts: seq<Option<string>>): string {
    if parts == [] then "" else (if parts[0].Some? then parts[0].value else "") + JoinedParts(parts[1..])
  }

  predicate AssistantText(m: Message) {
    m.role == "assistant" && m.content.Some? && m.content.value != ""
  }

  /** The text of the last assistant message among the first n that has one. */
  function LastText(messages: seq<Message>, n: nat): string
    requires n <= |messages|
  {
    if n == 0 then ""
    else if AssistantText(messages[n - 1]) then messages[n - 1].content.value
    else LastText(messages, n - 1)
  }

  /** The text of the last assistant message that has one, and empty if none has. */
  ghost predicate IsLastText(messages: seq<Message>, text: string) {
    || (text == "" && forall k :: 0 <= k < |messages| ==> !AssistantText(messages[k]))
    || exists k :: 0 <= k < |messages| && messages[k].role == "assistant" && messages[k].content == Some(text) && text != ""
                   && forall j :: k < j < |messages| ==> !AssistantText(messages[j])
  }

  lemma {:induction false} PartsJoined(a: seq<Option<string>>, b: seq<Option<string>>)
    ensures JoinedParts(a + b) == JoinedParts(a) + JoinedParts(b)
    ensures forall text :: JoinedParts([Some(text)]) == text
    ensures JoinedParts([None]) == "" && JoinedParts([]) == ""
  {
    if a == [] {
      assert a + b == b;
    } else {
      assert (a + b)[1..] == a[1..] + b;
      PartsJoined(a[1..], b);
    }
  }

  function FullText(evt: PiEvent): string {
    if evt.ame.Some? && evt.ame.value.text.Some? && evt.ame.value.text.value != "" then evt.ame.value.text.value
    else if evt.text.Some? && evt.text.value != "" then evt.text.value
    else if evt.content.Some? && evt.content.value != "" then evt.content.value
    else match evt.message
      case Plain(text) => text
      case Parts(parts) => JoinedParts(parts)
      case Neither => LastText(evt.messages, |evt.messages|)
  }

  lemma {:induction false} LastTextIs(messages: seq<Message>, n: nat)
    requires n <= |messages| && forall j :: n <= j < |messages| ==> !AssistantText(messages[j])
    ensures IsLastText(messages, LastText(messages, n))
  {
    if n > 0 {
      if AssistantText(messages[n - 1]) {
        assert messages[n - 1].content == Some(LastText(messages, n));
      } else {
        LastTextIs(messages, n - 1);
      }
    }
  }

  /** The full text of an event: the first text among three fields that is not empty; failing
      those the message, if it has one, and else the last assistant message. */
  lemma FullTextIs(evt: PiEvent)
    ensures var own := if evt.ame.Some? && evt.ame.value.text.Some? then evt.ame.value.text.value else "";
            var text := if evt.text.Some? then evt.text.value else "";
            var content := if evt.content.Some? then evt.content.value else "";
      && (own != "" ==> FullText(evt) == own)
      && (own == "" && text != "" ==> FullText(evt) == text)
      && (own == "" && text == "" && content != "" ==> FullText(evt) == content)
      && (own == "" && text == "" && content == "" ==>
            && (evt.message.Plain? ==> FullText(evt) == evt.message.text)
            && (evt.message.Parts? ==> FullText(evt) == JoinedParts(evt.message.parts))
            && (evt.message.Neither? ==> IsLastText(evt.messages, FullText(evt))))
  {
    hide IsLastText;
    LastTextIs(evt.messages, |evt.messages|);
  }

  // ---------------------------------------------------------------------------
  // What one event does to a turn
  // ---------------------------------------------------------------------------

  function Stays(t: ActiveTurn): State {
    State(Some(t), [])
  }

  function Doing(t: ActiveTurn, kind: string, status: string, toolName: Option<string>, delta: Option<string>): State {
    State(Some(t), [Activity(t.turnId, t.target, kind, status, toolName, delta)])
  }

  /** The reply becomes `full`; only what is beyond its present length is sent. */
  function Grown(t: ActiveTurn, full: string): State
    requires |full| > |t.replyText|
  {
    State(Some(t.(sawText := true, replyText := full)), [Chunk(t.turnId, t.target, full[|t.replyText|..])])
  }

  function Added(t: ActiveTurn, delta: string): State {
    State(Some(t.(sawText := true, replyText := t.replyText + delta)), [Chunk(t.turnId, t.target, delta)])
  }

  function Failed(t: ActiveTurn, message: string): State {
    State(None, [Error(t.turnId, t.target, message)])
  }

  /** A message update that is neither text nor activity, or a whole message. */
  predicate IsSnapshot(evt: PiEvent) {
    || evt.kind == "message" || evt.kind == "agent_message"
    || (evt.kind == "message_update"
        && (evt.ame.None?
            || (evt.ame.value.kind !in ["thinking_start", "thinking_end", "toolcall_start", "toolcall_end"]
                && !(evt.ame.value.kind == "text_delta" && evt.ame.value.delta.Some? && evt.ame.value.delta.value != "")
                && !(evt.ame.value.kind in ["thinking_delta", "toolcall_delta"] && evt.ame.value.delta.Some?))))
  }

  /** The full text that an event makes the reply, if it does. */
  function Accepted(t: ActiveTurn, evt: PiEvent): Option<string> {
    if IsSnapshot(evt) && |FullText(evt)| > |t.replyText| then Some(FullText(evt)) else None
  }

  function OnAssistant(t: ActiveTurn, ame: AssistantEvent): State {
    match ame.kind
    case "text_delta" => if ame.delta.Some? then Added(t, ame.delta.value) else Stays(t)
    case "thinking_start" => Doing(t, "thinking", "start", None, None)
    case "thinking_end" => Doing(t, "thinking", "end", None, None)
    case "thinking_delta" => Doing(t, "thinking", "delta", None, ame.delta)
    case "toolcall_start" => Doing(t, "tool_use", "start", ame.toolName, None)
    case "toolcall_delta" => Doing(t, "tool_use", "delta", None, ame.delta)
    case _ => Doing(t, "tool_use", "end", None, None)
  }

  function Ended(t: ActiveTurn, evt: PiEvent): State {
    var full := FullText(evt);
    if !t.sawText && full != "" then State(None, [Chunk(t.turnId, t.target, full), Done(t.turnId, t.target, full)])
    else State(None, [Done(t.turnId, t.target, t.replyText)])
  }

  function OnEvent(t: ActiveTurn, evt: PiEvent): State {
    if IsSnapshot(evt) then (if |FullText(evt)| > |t.replyText| then Grown(t, FullText(evt)) else Stays(t))
    else match evt.kind
      case "response" => if evt.success then Stays(t) else Failed(t, evt.rejection)
      case "message_update" => if evt.ame.Some? then OnAssistant(t, evt.ame.value) else Stays(t)
      case "tool_execution_start" => Doing(t, "tool_use", "start", Some(evt.toolName), None)
      case "tool_execution_update" => Doing(t, "tool_use", "delta", Some(evt.toolName), evt.partial)
      case "tool_execution_end" => Doing(t, "tool_use", "end", Some(evt.toolName), None)
      case "agent_end" => Ended(t, evt)
      case "error" => Failed(t, evt.failure)
      case "agent_error" => Failed(t, evt.failure)
      case _ => Stays(t)
  }

  /** What reaches the bridge: a request, with the error of a failed spawn and whether the
      prompt could be written; a runtime event; a failure of the runtime itself; or an
      interrupt, which kills the runtime. */
  datatype Input =
    | Request(turnId: string, target: Option<string>, spawnError: Option<string>, prompted: bool)
    | Event(evt: PiEvent)
    | Crash(message: string)
    | Interrupt

  function Outcome(active: Option<ActiveTurn>, i: Input): State {
    match i
    case Request(turnId, target, spawnError, prompted) =>
      if turnId == "" then State(active, [])
      else if spawnError.Some? then State(active, [Error(turnId, target, spawnError.value)])
      else if !prompted then State(None, [Error(turnId, target, "host_stdin_closed")])
      else State(Some(ActiveTurn(turnId, target, false, "")), [])
    case Event(evt) => if active.None? then State(None, []) else OnEvent(active.value, evt)
    case Crash(message) =>
      if active.None? then State(None, []) else Failed(active.value, if message == "" then "host_spawn_error" else message)
    // Nobody listens to the exit of the killed runtime.
    case Interrupt => State(active, [])
  }

  function Handle(s: State, i: Input): State {
    var o := Outcome(s.active, i);
    State(o.active, s.sent + o.sent)
  }

  function Run(s: State, inputs: seq<Input>): State {
    if inputs == [] then s else Handle(Run(s, inputs[..|inputs| - 1]), inputs[|inputs| - 1])
  }

  // ---------------------------------------------------------------------------
  // The bridge
  // ---------------------------------------------------------------------------

  class ChatBridge {
    var active: Option<ActiveTurn>
    var sent: seq<TunnelMessage>

    constructor ()
      ensures Now() == State(None, [])
    {
      active, sent := None, [];
    }

    ghost function Now(): State
      reads this
    {
      State(active, sent)
    }

    method Send(m: TunnelMessage)
      modifies this`sent
      ensures sent == old(sent) + [m]
    {
      sent := sent + [m];
    }

    method SendActivity(turn: ActiveTurn, kind: string, status: string, toolName: Option<string>, delta: Option<string>)
      modifies this`sent
      ensures sent == old(sent) + [Activity(turn.turnId, turn.target, kind, status, toolName, delta)]
    {
      Send(Activity(turn.turnId, turn.target, kind, status, toolName, delta));
    }

    method SendError(turnId: string, target: Option<string>, message: string)
      modifies this`sent
      ensures sent == old(sent) + [Error(turnId, target, message)]
    {
      Send(Error(turnId, target, message));
    }

    method OnChatRequest(turnId: string, target: Option<string>, spawnError: Option<string>, prompted: bool)
      modifies this
      ensures Now() == Handle(old(Now()), Request(turnId, target, spawnError, prompted))
      ensures turnId == "" ==> Now() == old(Now())
      ensures turnId != "" && spawnError.Some? ==> active == old(active) && sent == old(sent) + [Error(turnId, target, spawnError.value)]
      ensures turnId != "" && spawnError.None? && !prompted ==> active == None && sent == old(sent) + [Error(turnId, target, "host_stdin_closed")]
      ensures turnId != "" && spawnError.None? && prompted ==> active == Some(ActiveTurn(turnId, target, false, "")) && sent == old(sent)
    {
      assert sent + [] == sent;
      if turnId == "" {
        return;
      }
      if spawnError.Some? {
        SendError(turnId, target, spawnError.value);
        return;
      }
      active := Some(ActiveTurn(turnId, target, false, ""));
      if !prompted {
        SendError(turnId, target, "host_stdin_closed");
        active := None;
      }
    }

    method OnInterrupt()
      ensures Now() == Handle(old(Now()), Interrupt)
    {
      assert sent + [] == sent;
    }

    method FailActive(message: string)
      modifies this
      ensures Now() == Handle(old(Now()), Crash(message))
    {
      assert sent + [] == sent;
      if active.None? {
        return;
      }
      SendError(active.value.turnId, active.value.target, if message == "" then "host_spawn_error" else message);
      active := None;
    }

    method OnPiEvent(evt: PiEvent)
      modifies this
      ensures Now() == Handle(old(Now()), Event(evt))
    {
      assert sent + [] == sent;
      if active.None? {
        return;
      }
      var turn := active.value;
      if evt.kind == "response" {
        if !evt.success {
          SendError(turn.turnId, turn.target, evt.rejection);
          active := None;
        }
      } else if evt.kind == "message_update" {
        OnMessageUpdate(turn, evt);
      } else if evt.kind == "message" || evt.kind == "agent_message" {
        Snapshot(turn, evt);
      } else if evt.kind == "tool_execution_start" {
        SendActivity(turn, "tool_use", "start", Some(evt.toolName), None);
      } else if evt.kind == "tool_execution_update" {
        SendActivity(turn, "tool_use", "delta", Some(evt.toolName), evt.partial);
      } else if evt.kind == "tool_execution_end" {
        SendActivity(turn, "tool_use", "end", Some(evt.toolName), None);
      } else if evt.kind == "agent_end" {
        OnAgentEnd(turn, evt);
      } else if evt.kind == "error" || evt.kind == "agent_error" {
        SendError(turn.turnId, turn.target, evt.failure);
        active := None;
      }
    }

    method OnMessageUpdate(turn: ActiveTurn, evt: PiEvent)
      requires active == Some(turn) && evt.kind == "message_update"
      modifies this
      ensures Now() == State(OnEvent(turn, evt).active, old(sent) + OnEvent(turn, evt).sent)
    {
      hide FullText;
      var ame := evt.ame;
      if ame.Some? && ame.value.kind == "text_delta" && ame.value.delta.Some? && ame.value.delta.value != "" {
        active := Some(turn.(sawText := true, replyText := turn.replyText + ame.value.delta.value));
        Send(Chunk(turn.turnId, turn.target, ame.value.delta.value));
      } else if ame.Some? && (ame.value.kind == "thinking_start" || ame.value.kind == "thinking_end") {
        SendActivity(turn, "thinking", if ame.value.kind == "thinking_start" then "start" else "end", None, None);
      } else if ame.Some? && ame.value.kind == "thinking_delta" && ame.value.delta.Some? {
        SendActivity(turn, "thinking", "delta", None, ame.value.delta);
      } else if ame.Some? && ame.value.kind == "toolcall_start" {
        SendActivity(turn, "tool_use", "start", ame.value.toolName, None);
      } else if ame.Some? && ame.value.kind == "toolcall_delta" && ame.value.delta.Some? {
        SendActivity(turn, "tool_use", "delta", None, ame.value.delta);
      } else if ame.Some? && ame.value.kind == "toolcall_end" {
        SendActivity(turn, "tool_use", "end", None, None);
      } else {
        Snapshot(turn, evt);
      }
    }

    method Snapshot(turn: ActiveTurn, evt: PiEvent)
      requires active == Some(turn) && IsSnapshot(evt)
      modifies this
      ensures Now() == State(OnEvent(turn, evt).active, old(sent) + OnEvent(turn, evt).sent)
    {
      assert sent + [] == sent;
      var full := ExtractAssistantText(evt);
      if full != "" && |full| > |turn.replyText| {
        var delta := full[|turn.replyText|..];
        active := Some(turn.(sawText := true, replyText := full));
        Send(Chunk(turn.turnId, turn.target, delta));
      }
    }

    method OnAgentEnd(turn: ActiveTurn, evt: PiEvent)
      requires active == Some(turn)
      modifies this
      ensures Now() == State(None, old(sent) + Ended(turn, evt).sent)
    {
      var replyText := turn.replyText;
      if !turn.sawText {
        var full := ExtractAssistantText(evt);
        if full != "" {
          replyText := full;
          Send(Chunk(turn.turnId, turn.target, full));
        }
      }
      Send(Done(turn.turnId, turn.target, replyText));
      active := None;
    }
  }

  method ExtractAssistantText(evt: PiEvent) returns (text: string)
    ensures text == FullText(evt)
  {
    if evt.ame.Some? && evt.ame.value.text.Some? && evt.ame.value.text.value != "" {
      return evt.ame.value.text.value;
    }
    if evt.text.Some? && evt.text.value != "" {
      return evt.text.value;
    }
    if evt.content.Some? && evt.content.value != "" {
      return evt.content.value;
    }
    if evt.message.Plain? {
      return evt.message.text;
    }
    if evt.message.Parts? {
      return JoinedParts(evt.message.parts);
    }
    for i := |evt.messages| downto 0
      invariant LastText(evt.messages, |evt.messages|) == LastText(evt.messages, i)
    {
      if AssistantText(evt.messages[i]) {
        return evt.messages[i].content.value;
      }
    }
    return "";
  }

  // ---------------------------------------------------------------------------
  // One turn
  // ---------------------------------------------------------------------------

  function TokenOf(m: TunnelMessage): string {
    if m.Chunk? then m.token else ""
  }

  /** The text that a client sees by putting the chunks together. */
  function Tokens(sent: seq<TunnelMessage>): string {
    if sent == [] then "" else Tokens(sent[..|sent| - 1]) + TokenOf(sent[|sent| - 1])
  }

  predicate NoRequests(inputs: seq<Input>) {
    forall i :: 0 <= i < |inputs| ==> !inputs[i].Request?
  }

  function Started(turnId: string, target: Option<string>): State {
    State(Some(ActiveTurn(turnId, target, false, "")), [])
  }

  /** A turn has seen text exactly when it has a reply. */
  predicate Consistent(t: ActiveTurn) {
    t.sawText <==> t.replyText != ""
  }

  /** The shape of what one turn sends: its own frames only, activity and text first, then
      at most one end; and the reply is as long as the text sent. */
  ghost predicate TurnShape(s: State, turnId: string, target: Option<string>) {
    && (forall k :: 0 <= k < |s.sent| ==> s.sent[k].turnId == turnId && s.sent[k].target == target)
    && (forall k :: 0 <= k < |s.sent| ==> (Terminal(s.sent[k]) <==> s.active.None? && k == |s.sent| - 1))
    && (s.active.None? ==> s.sent != [])
    && (s.active.Some? ==>
          var t := s.active.value;
          t.turnId == turnId && t.target == target && Consistent(t) && |t.replyText| == |Tokens(s.sent)|)
    && (s.active.None? && s.sent[|s.sent| - 1].Done? ==> |s.sent[|s.sent| - 1].text| == |Tokens(s.sent)|)
  }

  lemma TokensMore(sent: seq<TunnelMessage>, m: TunnelMessage)
    ensures Tokens(sent + [m]) == Tokens(sent) + TokenOf(m)
  {
    assert (sent + [m])[..|sent|] == sent;
  }

  lemma NoTokens()
    ensures Tokens([]) == ""
  {
  }

  lemma {:induction false} TokensOut(sent: seq<TunnelMessage>, out: seq<TunnelMessage>)
    ensures Tokens(sent + out) == Tokens(sent) + Tokens(out)
  {
    hide Tokens, TokenOf;
    if out == [] {
      NoTokens();
      assert sent + out == sent && Tokens(sent) + "" == Tokens(sent);
    } else {
      var n := |out| - 1;
      TokensOut(sent, out[..n]);
      TokensMore(sent + out[..n], out[n]);
      TokensMore(out[..n], out[n]);
      assert sent + out[..n] + [out[n]] == sent + out && out[..n] + [out[n]] == out;
      assert Tokens(sent) + Tokens(out[..n]) + TokenOf(out[n]) == Tokens(sent) + (Tokens(out[..n]) + TokenOf(out[n]));
    }
  }

  /** The text of the messages that one input can cause. */
  lemma FewTokens(out: seq<TunnelMessage>)
    requires |out| <= 2
    ensures Tokens(out) == (if out == [] then "" else if |out| == 1 then TokenOf(out[0]) else TokenOf(out[0]) + TokenOf(out[1]))
  {
    if out != [] {
      assert out[..1] == [out[0]];
      assert Tokens([out[0]]) == Tokens([]) + TokenOf(out[0]);
      if |out| == 2 {
        assert Tokens(out) == Tokens(out[..1]) + TokenOf(out[1]);
      }
    }
  }

  /** What one input may do to a turn. */
  ghost predicate Fits(t: ActiveTurn, o: State) {
    && |o.sent| <= 2
    && (forall k :: 0 <= k < |o.sent| ==> o.sent[k].turnId == t.turnId && o.sent[k].target == t.target)
    && (forall k :: 0 <= k < |o.sent| ==> (Terminal(o.sent[k]) <==> o.active.None? && k == |o.sent| - 1))
    && (o.active.None? ==> o.sent != [])
    && (o.active.Some? ==>
          var u := o.active.value;
          u.turnId == t.turnId && u.target == t.target && Consistent(u)
          && |u.replyText| == |t.replyText| + |Tokens(o.sent)|)
    && (o.active.None? && o.sent[|o.sent| - 1].Done? ==> |o.sent[|o.sent| - 1].text| == |t.replyText| + |Tokens(o.sent)|)
  }

  lemma AssistantFits(t: ActiveTurn, ame: AssistantEvent)
    requires Consistent(t) && (ame.kind == "text_delta" && ame.delta.Some? ==> ame.delta.value != "")
    ensures Fits(t, OnAssistant(t, ame))
  {
    hide Tokens;
    FewTokens(OnAssistant(t, ame).sent);
  }

  lemma GrownFits(t: ActiveTurn, full: string)
    requires |full| > |t.replyText|
    ensures Fits(t, Grown(t, full))
  {
    hide Tokens;
    FewTokens(Grown(t, full).sent);
  }

  lemma EndedFits(t: ActiveTurn, evt: PiEvent)
    requires Consistent(t)
    ensures Fits(t, Ended(t, evt))
  {
    hide Tokens, FullText;
    FewTokens(Ended(t, evt).sent);
    assert FullText(evt) + "" == FullText(evt);
  }

  lemma PlainFits(t: ActiveTurn)
    requires Consistent(t)
    ensures Stays(t) == State(Some(t), []) && Fits(t, Stays(t)) && forall message :: Fits(t, Failed(t, message))
    ensures forall kind, status, toolName, delta :: Fits(t, Doing(t, kind, status, toolName, delta))
  {
    hide Tokens;
    FewTokens([]);
    forall message ensures Fits(t, Failed(t, message)) {
      FewTokens(Failed(t, message).sent);
    }
    forall kind, status, toolName, delta ensures Fits(t, Doing(t, kind, status, toolName, delta)) {
      FewTokens(Doing(t, kind, status, toolName, delta).sent);
    }
  }

  /** What any one input that is no request adds to a turn. */
  lemma OutcomeShape(t: ActiveTurn, i: Input)
    requires !i.Request? && Consistent(t)
    ensures Fits(t, Outcome(Some(t), i))
  {
    hide FullText, IsSnapshot, Fits, OnAssistant, Ended, Grown, Stays, Doing, Failed, Consistent;
    PlainFits(t);
    if i.Event? {
      var evt := i.evt;
      if IsSnapshot(evt) {
        if |FullText(evt)| > |t.replyText| {
          GrownFits(t, FullText(evt));
        }
      } else if evt.kind == "agent_end" {
        EndedFits(t, evt);
      } else if evt.kind == "message_update" && evt.ame.Some? {
        DeltaHasText(evt);
        AssistantFits(t, evt.ame.value);
      }
    }
  }

  lemma DeltaHasText(evt: PiEvent)
    requires evt.kind == "message_update" && evt.ame.Some? && !IsSnapshot(evt)
    ensures evt.ame.value.kind == "text_delta" && evt.ame.value.delta.Some? ==> evt.ame.value.delta.value != ""
  {
  }

  lemma StepShape(s: State, i: Input, turnId: string, target: Option<string>)
    requires TurnShape(s, turnId, target) && !i.Request?
    ensures TurnShape(Handle(s, i), turnId, target)
  {
    hide Outcome;
    if s.active.Some? {
      OutcomeShape(s.active.value, i);
      TokensOut(s.sent, Outcome(s.active, i).sent);
    } else {
      IdleOutcome(i);
      assert s.sent + [] == s.sent;
    }
  }

  lemma IdleOutcome(i: Input)
    requires !i.Request?
    ensures Outcome(None, i) == State(None, [])
  {
  }

  /** Every run of one turn has the shape of a turn. */
  lemma {:induction false} TurnRun(turnId: string, target: Option<string>, inputs: seq<Input>)
    requires NoRequests(inputs)
    ensures TurnShape(Run(Started(turnId, target), inputs), turnId, target)
  {
    hide Handle;
    if inputs != [] {
      TurnRun(turnId, target, inputs[..|inputs| - 1]);
      StepShape(Run(Started(turnId, target), inputs[..|inputs| - 1]), inputs[|inputs| - 1], turnId, target);
    }
  }

  // ---------------------------------------------------------------------------
  // When the chunks add up to the reply
  // ---------------------------------------------------------------------------

  /** The reply of a turn that is active or done. */
  function Reply(s: State): Option<string> {
    if s.active.Some? then Some(s.active.value.replyText)
    else if s.sent != [] && s.sent[|s.sent| - 1].Done? then Some(s.sent[|s.sent| - 1].text)
    else None
  }

  /** The full text that an input makes the reply, if it does. */
  function SnapshotOf(s: State, i: Input): Option<string> {
    if s.active.Some? && i.Event? then Accepted(s.active.value, i.evt) else None
  }

  /** The last accepted snapshot extends what had been streamed before it. */
  predicate InSync(s: State, inputs: seq<Input>) {
    inputs == [] ||
    var before, i := Run(s, inputs[..|inputs| - 1]), inputs[|inputs| - 1];
    match SnapshotOf(before, i)
    case None => InSync(s, inputs[..|inputs| - 1])
    case Some(full) => Tokens(before.sent) <= full
  }

  lemma GrownSync(streamed: string, full: string)
    requires |streamed| <= |full|
    ensures streamed + full[|streamed|..] == full <==> streamed <= full
  {
  }

  lemma AddedSync(a: string, b: string, delta: string)
    requires |a| == |b|
    ensures a + delta == b + delta <==> a == b
  {
    if a + delta == b + delta {
      assert a == (a + delta)[..|a|] && b == (b + delta)[..|b|];
    }
  }

  lemma AssistantSync(t: ActiveTurn, ame: AssistantEvent, streamed: string)
    requires |streamed| == |t.replyText|
    ensures var o := OnAssistant(t, ame);
            o.active.Some? && (streamed + Tokens(o.sent) == o.active.value.replyText <==> streamed == t.replyText)
  {
    hide Tokens;
    FewTokens(OnAssistant(t, ame).sent);
    assert streamed + "" == streamed;
    if ame.delta.Some? {
      AddedSync(streamed, t.replyText, ame.delta.value);
    }
  }

  lemma EndedSync(t: ActiveTurn, evt: PiEvent, streamed: string)
    requires |streamed| == |t.replyText| && Consistent(t)
    ensures var o := Ended(t, evt);
            Reply(o).Some? && (streamed + Tokens(o.sent) == Reply(o).value <==> streamed == t.replyText)
  {
    hide Tokens, FullText;
    FewTokens(Ended(t, evt).sent);
    assert streamed + "" == streamed;
    assert FullText(evt) + "" == FullText(evt) && "" + FullText(evt) == FullText(evt);
  }

  lemma PlainSync(t: ActiveTurn, streamed: string)
    ensures streamed + Tokens(Stays(t).sent) == streamed
    ensures forall kind, status, toolName, delta :: streamed + Tokens(Doing(t, kind, status, toolName, delta).sent) == streamed
  {
    hide Tokens;
    FewTokens([]);
    assert streamed + "" == streamed;
    forall kind, status, toolName, delta ensures streamed + Tokens(Doing(t, kind, status, toolName, delta).sent) == streamed {
      FewTokens(Doing(t, kind, status, toolName, delta).sent);
    }
  }

  lemma OutcomeSync(t: ActiveTurn, i: Input, streamed: string)
    requires !i.Request? && |streamed| == |t.replyText| && Consistent(t)
    ensures var o := Outcome(Some(t), i);
            Reply(o).Some? ==>
              (streamed + Tokens(o.sent) == Reply(o).value <==>
                match SnapshotOf(State(Some(t), []), i) case None => streamed == t.replyText case Some(full) => streamed <= full)
  {
    hide FullText, IsSnapshot, Tokens, OnAssistant, Ended;
    PlainSync(t, streamed);
    if i.Event? {
      var evt := i.evt;
      if IsSnapshot(evt) {
        if |FullText(evt)| > |t.replyText| {
          FewTokens(Grown(t, FullText(evt)).sent);
          GrownSync(streamed, FullText(evt));
        }
      } else if evt.kind == "agent_end" {
        EndedSync(t, evt, streamed);
      } else if evt.kind == "message_update" && evt.ame.Some? {
        AssistantSync(t, evt.ame.value, streamed);
      }
    }
  }

  /** The chunks of a turn add up to its reply exactly when the last full text that was
      accepted extends what had been streamed. */
  lemma {:induction false} StreamEqualsReply(turnId: string, target: Option<string>, inputs: seq<Input>)
    requires NoRequests(inputs)
    ensures var s := Run(Started(turnId, target), inputs);
            Reply(s).Some? ==> (Tokens(s.sent) == Reply(s).value <==> InSync(Started(turnId, target), inputs))
  {
    hide Outcome, SnapshotOf;
    if inputs != [] {
      var s0, i := Run(Started(turnId, target), inputs[..|inputs| - 1]), inputs[|inputs| - 1];
      TurnRun(turnId, target, inputs[..|inputs| - 1]);
      StreamEqualsReply(turnId, target, inputs[..|inputs| - 1]);
      ReplyStep(s0, i, turnId, target);
    }
  }

  lemma ReplyStep(s: State, i: Input, turnId: string, target: Option<string>)
    requires TurnShape(s, turnId, target) && !i.Request?
    ensures var s' := Handle(s, i);
      && (s.active.None? ==> s' == s && SnapshotOf(s, i).None?)
      && (s.active.Some? && Reply(s').Some? ==>
            (Tokens(s'.sent) == Reply(s').value <==>
              match SnapshotOf(s, i) case None => Tokens(s.sent) == Reply(s).value case Some(full) => Tokens(s.sent) <= full))
  {
    hide Outcome, TurnShape, Tokens, Fits, Reply, SnapshotOf, Consistent;
    ShapeFacts(s, turnId, target);
    if s.active.Some? {
      var t, o := s.active.value, Outcome(s.active, i);
      OutcomeShape(t, i);
      OutcomeSync(t, i, Tokens(s.sent));
      TokensOut(s.sent, o.sent);
      ReplyAfter(s, t, o);
      SnapshotAlone(s, i);
      ActiveReply(s);
    } else {
      IdleOutcome(i);
      NoSnapshot(s, i);
      assert s.sent + [] == s.sent;
    }
  }

  lemma ActiveReply(s: State)
    requires s.active.Some?
    ensures Reply(s) == Some(s.active.value.replyText)
  {
  }

  lemma ReplyAfter(s: State, t: ActiveTurn, o: State)
    requires Fits(t, o)
    ensures Reply(State(o.active, s.sent + o.sent)) == Reply(o)
  {
    hide Tokens;
  }

  lemma SnapshotAlone(s: State, i: Input)
    requires s.active.Some?
    ensures SnapshotOf(State(s.active, []), i) == SnapshotOf(s, i)
  {
    hide Accepted;
  }

  lemma NoSnapshot(s: State, i: Input)
    requires s.active.None?
    ensures SnapshotOf(s, i).None?
  {
  }

  lemma ShapeFacts(s: State, turnId: string, target: Option<string>)
    requires TurnShape(s, turnId, target)
    ensures s.active.Some? ==>
      var t := s.active.value; Consistent(t) && |t.replyText| == |Tokens(s.sent)|
  {
  }

  /** Every accepted full text extends the reply it replaces. */
  predicate Faithful(s: State, inputs: seq<Input>) {
    inputs == [] ||
    var before, i := Run(s, inputs[..|inputs| - 1]), inputs[|inputs| - 1];
    && Faithful(s, inputs[..|inputs| - 1])
    && (SnapshotOf(before, i).Some? ==> before.active.value.replyText <= SnapshotOf(before, i).value)
  }

  /** With faithful snapshots the chunks always add up to the reply. */
  lemma {:induction false} FaithfulStream(turnId: string, target: Option<string>, inputs: seq<Input>)
    requires NoRequests(inputs) && Faithful(Started(turnId, target), inputs)
    ensures var s := Run(Started(turnId, target), inputs);
            InSync(Started(turnId, target), inputs) && (Reply(s).Some? ==> Tokens(s.sent) == Reply(s).value)
  {
    hide Handle, Accepted, Tokens;
    if inputs != [] {
      FaithfulStream(turnId, target, inputs[..|inputs| - 1]);
    }
    StreamEqualsReply(turnId, target, inputs);
  }

  // ---------------------------------------------------------------------------
  // All turns
  // ---------------------------------------------------------------------------

  function Ids(inputs: seq<Input>): set<string> {
    set i | 0 <= i < |inputs| && inputs[i].Request? :: inputs[i].turnId
  }

  /** No turn id is requested twice. */
  predicate FreshIds(inputs: seq<Input>) {
    forall j, k :: 0 <= j < k < |inputs| && inputs[j].Request? && inputs[k].Request? ==> inputs[j].turnId != inputs[k].turnId
  }

  /** Nothing of a turn follows its end. */
  ghost predicate EndsLast(sent: seq<TunnelMessage>) {
    forall j, k :: 0 <= j < k < |sent| && sent[j].turnId == sent[k].turnId ==> !Terminal(sent[j])
  }

  ghost predicate Safe(s: State, ids: set<string>) {
    && EndsLast(s.sent)
    && (forall k :: 0 <= k < |s.sent| ==> s.sent[k].turnId in ids)
    && (s.active.Some? ==>
          && s.active.value.turnId in ids && Consistent(s.active.value)
          && forall k :: 0 <= k < |s.sent| && s.sent[k].turnId == s.active.value.turnId ==> !Terminal(s.sent[k]))
  }

  lemma SafeAppend(s: State, out: State, id: string, ids: set<string>)
    requires Safe(s, ids) && id in ids
    requires forall k :: 0 <= k < |out.sent| ==> out.sent[k].turnId == id
    requires forall k :: 0 <= k < |out.sent| ==> (Terminal(out.sent[k]) ==> k == |out.sent| - 1 && out.active.None?)
    requires forall k :: 0 <= k < |s.sent| && s.sent[k].turnId == id ==> !Terminal(s.sent[k])
    requires out.active.Some? ==> out.active.value.turnId == id && Consistent(out.active.value)
    ensures Safe(State(out.active, s.sent + out.sent), ids)
  {
  }

  lemma StepSafe(s: State, i: Input, ids: set<string>)
    requires Safe(s, ids) && (i.Request? ==> i.turnId !in ids)
    ensures Safe(Handle(s, i), if i.Request? then ids + {i.turnId} else ids)
  {
    hide OnEvent;
    if i.Request? {
      assert Safe(s, ids + {i.turnId});
      assert s.sent + [] == s.sent;
    } else if s.active.Some? {
      OutcomeShape(s.active.value, i);
      SafeAppend(s, Outcome(s.active, i), s.active.value.turnId, ids);
    } else {
      assert s.sent + [] == s.sent;
    }
  }

  /** Over every run, whatever the requests interrupt and whatever fails, a turn gets at
      most one end and nothing after it. */
  lemma {:induction false} EveryRunEndsLast(inputs: seq<Input>)
    requires FreshIds(inputs)
    ensures Safe(Run(State(None, []), inputs), Ids(inputs))
  {
    hide Handle, Safe;
    if inputs == [] {
      EmptySafe();
    } else {
      var before, i := inputs[..|inputs| - 1], inputs[|inputs| - 1];
      EveryRunEndsLast(before);
      IdsAppend(before, i);
      assert before + [i] == inputs;
      StepSafe(Run(State(None, []), before), i, Ids(before));
    }
  }

  lemma EmptySafe()
    ensures Safe(State(None, []), Ids([]))
  {
  }

  lemma IdsAppend(before: seq<Input>, i: Input)
    requires FreshIds(before + [i])
    ensures FreshIds(before) && (i.Request? ==> i.turnId !in Ids(before))
    ensures Ids(before + [i]) == if i.Request? then Ids(before) + {i.turnId} else Ids(before)
  {
    var all := before + [i];
    assert forall k :: 0 <= k < |before| ==> all[k] == before[k];
    assert all[|before|] == i;
  }

  /** A request that comes while a turn is active silences that turn: no end for it is
      ever sent, unless its id is requested again. */
  lemma {:induction false} SupersededTurnNeverEnds(s: State, r: Input, inputs: seq<Input>)
    requires s.active.Some? && r.Request? && r.turnId != "" && r.spawnError.None? && r.turnId != s.active.value.turnId
    requires forall k :: 0 <= k < |inputs| ==> !(inputs[k].Request? && inputs[k].turnId == s.active.value.turnId)
    ensures var id, s' := s.active.value.turnId, Run(Handle(s, r), inputs);
      && (s'.active.Some? ==> s'.active.value.turnId != id)
      && |s.sent| <= |s'.sent| && forall k :: |s.sent| <= k < |s'.sent| ==> s'.sent[k].turnId != id
  {
    hide OnEvent;
    if inputs != [] {
      var before, i := inputs[..|inputs| - 1], inputs[|inputs| - 1];
      SupersededTurnNeverEnds(s, r, before);
      var s0 := Run(Handle(s, r), before);
      if s0.active.Some? && !i.Request? {
        OutcomeOwn(s0.active.value, i);
      }
    }
  }

  lemma OutcomeOwn(t: ActiveTurn, i: Input)
    requires !i.Request?
    ensures var o := Outcome(Some(t), i);
      && (forall k :: 0 <= k < |o.sent| ==> o.sent[k].turnId == t.turnId)
      && (o.active.Some? ==> o.active.value.turnId == t.turnId)
  {
    hide FullText, IsSnapshot;
  }

  // ---------------------------------------------------------------------------
  // When a turn gets its end
  // ---------------------------------------------------------------------------

  /** The agent ends, or the runtime reports a failure or fails. */
  predicate Ends(i: Input) {
    || i.Crash?
    || (i.Event? && (i.evt.kind in ["agent_end", "error", "agent_error"] || (i.evt.kind == "response" && !i.evt.success)))
  }

  /** A request that takes the bridge over, whether or not its prompt can be written. */
  predicate Overtakes(i: Input) {
    i.Request? && i.turnId != "" && i.spawnError.None?
  }

  /** Nothing so far has ended or overtaken the turn. */
  predicate Alive(inputs: seq<Input>) {
    forall k :: 0 <= k < |inputs| ==> !Ends(inputs[k]) && !Overtakes(inputs[k])
  }

  /** An end comes before anything overtakes. */
  predicate EndsFirst(inputs: seq<Input>) {
    exists n :: 0 <= n < |inputs| && Ends(inputs[n]) && forall m :: 0 <= m < n ==> !Overtakes(inputs[m])
  }

  ghost predicate EndSent(sent: seq<TunnelMessage>, from: nat, id: string) {
    exists k :: from <= k < |sent| && sent[k].turnId == id && Terminal(sent[k])
  }

  lemma EndsFirstMore(inputs: seq<Input>)
    requires inputs != []
    ensures var n := |inputs| - 1;
      && (Alive(inputs) <==> Alive(inputs[..n]) && !Ends(inputs[n]) && !Overtakes(inputs[n]))
      && (EndsFirst(inputs) <==> EndsFirst(inputs[..n]) || (Alive(inputs[..n]) && Ends(inputs[n])))
  {
    hide Ends, Overtakes;
    var n := |inputs| - 1;
    var before := inputs[..n];
    assert forall k :: 0 <= k < n ==> before[k] == inputs[k];
    if EndsFirst(before) {
      var m :| 0 <= m < n && Ends(before[m]) && forall j :: 0 <= j < m ==> !Overtakes(before[j]);
      assert Ends(inputs[m]);
    }
    if EndsFirst(inputs) && !(Alive(before) && Ends(inputs[n])) {
      EndsFirstBack(inputs);
    }
  }

  lemma EndsFirstBack(inputs: seq<Input>)
    requires EndsFirst(inputs) && !(Alive(inputs[..|inputs| - 1]) && Ends(inputs[|inputs| - 1]))
    ensures EndsFirst(inputs[..|inputs| - 1])
  {
    hide Ends, Overtakes;
    var n, before := |inputs| - 1, inputs[..|inputs| - 1];
    assert forall k :: 0 <= k < n ==> before[k] == inputs[k];
    var m :| 0 <= m <= n && Ends(inputs[m]) && forall j :: 0 <= j < m ==> !Overtakes(inputs[j]);
    if m < n {
      assert Ends(before[m]);
    } else {
      var k :| 0 <= k < n && Ends(before[k]);
      assert forall j :: 0 <= j < k ==> !Overtakes(before[j]);
    }
  }

  /** What one input does to the turn that is active. */
  lemma EndStep(t: ActiveTurn, i: Input)
    requires Consistent(t) && !(i.Request? && i.turnId == t.turnId)
    ensures var o := Outcome(Some(t), i);
      && (o.active.Some? && o.active.value.turnId == t.turnId <==> !Ends(i) && !Overtakes(i))
      && (EndSent(o.sent, 0, t.turnId) <==> Ends(i))
      && (o.active.Some? ==> Consistent(o.active.value))
  {
    hide FullText;
    if !i.Request? {
      OutcomeShape(t, i);
      assert Outcome(Some(t), i).active.None? <==> Ends(i);
      var o := Outcome(Some(t), i);
      if Ends(i) {
        assert o.sent[|o.sent| - 1].turnId == t.turnId && Terminal(o.sent[|o.sent| - 1]);
      }
    }
  }

  lemma EndSentMore(sent: seq<TunnelMessage>, out: seq<TunnelMessage>, from: nat, id: string)
    requires from <= |sent|
    ensures EndSent(sent + out, from, id) <==> EndSent(sent, from, id) || EndSent(out, 0, id)
  {
    var all := sent + out;
    if EndSent(sent, from, id) {
      var k :| from <= k < |sent| && sent[k].turnId == id && Terminal(sent[k]);
      assert all[k] == sent[k];
    }
    if EndSent(out, 0, id) {
      var k :| 0 <= k < |out| && out[k].turnId == id && Terminal(out[k]);
      assert all[|sent| + k] == out[k];
    }
  }

  lemma OtherStep(active: Option<ActiveTurn>, i: Input, id: string)
    requires active.Some? ==> active.value.turnId != id && Consistent(active.value)
    requires !(i.Request? && i.turnId == id)
    ensures var o := Outcome(active, i);
      && (o.active.Some? ==> o.active.value.turnId != id && Consistent(o.active.value))
      && !EndSent(o.sent, 0, id)
  {
    hide FullText;
    if !i.Request? && active.Some? {
      OutcomeShape(active.value, i);
    }
  }

  /** A turn gets its end exactly when the agent ends or something fails before another request
      takes the bridge over. */
  lemma {:induction false} TurnEndsExactly(s: State, inputs: seq<Input>)
    requires s.active.Some? && Consistent(s.active.value)
    requires forall k :: 0 <= k < |inputs| ==> !(inputs[k].Request? && inputs[k].turnId == s.active.value.turnId)
    ensures var id, s' := s.active.value.turnId, Run(s, inputs);
      && |s.sent| <= |s'.sent| && (s'.active.Some? ==> Consistent(s'.active.value))
      && (s'.active.Some? && s'.active.value.turnId == id <==> Alive(inputs))
      && (EndSent(s'.sent, |s.sent|, id) <==> EndsFirst(inputs))
  {
    hide Outcome, Ends, Overtakes, EndSent, EndsFirst, Alive, Consistent;
    if inputs == [] {
      NothingDecided(s);
    } else {
      var before, i := inputs[..|inputs| - 1], inputs[|inputs| - 1];
      var id, s0 := s.active.value.turnId, Run(s, before);
      TurnEndsExactly(s, before);
      EndsFirstMore(inputs);
      EndSentMore(s0.sent, Outcome(s0.active, i).sent, |s.sent|, id);
      if Alive(before) {
        EndStep(s0.active.value, i);
      } else {
        OtherStep(s0.active, i, id);
      }
    }
  }

  lemma NothingDecided(s: State)
    requires s.active.Some?
    ensures Alive([]) && !EndsFirst([]) && !EndSent(s.sent, |s.sent|, s.active.value.turnId)
  {
  }

  /** What a killed runtime still brings about: nothing, until a request starts another. */
  predicate Quiet(inputs: seq<Input>) {
    forall k :: 0 <= k < |inputs| && Ends(inputs[k]) ==> exists m :: 0 <= m < k && Overtakes(inputs[m])
  }

  lemma InterruptedPlaces(before: seq<Input>, after: seq<Input>)
    ensures var inputs, d := before + [Interrupt] + after, |before| + 1;
      && |inputs| == d + |after| && inputs[|before|] == Interrupt
      && (forall k :: 0 <= k < |before| ==> inputs[k] == before[k])
      && (forall j :: 0 <= j < |after| ==> inputs[d + j] == after[j])
  {
  }

  lemma NotEndedFirst(before: seq<Input>, after: seq<Input>)
    requires Alive(before) && Quiet(after)
    ensures !EndsFirst(before + [Interrupt] + after)
  {
    hide Ends, Overtakes;
    var inputs, d := before + [Interrupt] + after, |before| + 1;
    InterruptedPlaces(before, after);
    InterruptDecidesNothing();
    forall n | 0 <= n < |inputs| && Ends(inputs[n]) ensures exists m :: 0 <= m < n && Overtakes(inputs[m]) {
      assert inputs[d + (n - d)] == after[n - d];
      var m :| 0 <= m < n - d && Overtakes(after[m]);
      assert Overtakes(inputs[d + m]);
    }
  }

  /** With nothing overtaking it afterwards the turn stays active. */
  lemma StillAlive(before: seq<Input>, after: seq<Input>)
    requires Alive(before) && Quiet(after) && forall k :: 0 <= k < |after| ==> !Overtakes(after[k])
    ensures Alive(before + [Interrupt] + after)
  {
    hide Ends, Overtakes;
    var inputs, d := before + [Interrupt] + after, |before| + 1;
    InterruptedPlaces(before, after);
    InterruptDecidesNothing();
    forall k | 0 <= k < |inputs| ensures !Ends(inputs[k]) && !Overtakes(inputs[k]) {
      if k >= d {
        assert inputs[d + (k - d)] == after[k - d];
      }
    }
  }

  predicate NotAsked(inputs: seq<Input>, id: string) {
    forall k :: 0 <= k < |inputs| ==> !(inputs[k].Request? && inputs[k].turnId == id)
  }

  lemma NotAskedAround(before: seq<Input>, after: seq<Input>, id: string)
    requires NotAsked(before, id) && NotAsked(after, id)
    ensures NotAsked(before + [Interrupt] + after, id)
  {
    var inputs, d := before + [Interrupt] + after, |before| + 1;
    InterruptedPlaces(before, after);
    forall k | 0 <= k < |inputs| ensures !(inputs[k].Request? && inputs[k].turnId == id) {
      if k >= d {
        assert inputs[d + (k - d)] == after[k - d];
      }
    }
  }

  /** A turn whose runtime is interrupted before any end never gets one: it stays active until
      a request overtakes it. */
  lemma InterruptedTurnNeverEnds(s: State, before: seq<Input>, after: seq<Input>)
    requires s.active.Some? && Consistent(s.active.value) && Alive(before) && Quiet(after)
    requires NotAsked(before, s.active.value.turnId) && NotAsked(after, s.active.value.turnId)
    ensures var id, s' := s.active.value.turnId, Run(s, before + [Interrupt] + after);
      && !EndSent(s'.sent, |s.sent|, id)
      && ((forall k :: 0 <= k < |after| ==> !Overtakes(after[k])) ==> s'.active.Some? && s'.active.value.turnId == id)
  {
    hide Ends, Overtakes, EndSent, Consistent, Run, Alive, Quiet, EndsFirst;
    NotAskedAround(before, after, s.active.value.turnId);
    TurnEndsExactly(s, before + [Interrupt] + after);
    NotEndedFirst(before, after);
    if forall k :: 0 <= k < |after| ==> !Overtakes(after[k]) {
      StillAlive(before, after);
    }
  }

  lemma InterruptDecidesNothing()
    ensures !Ends(Interrupt) && !Overtakes(Interrupt)
  {
  }
}
