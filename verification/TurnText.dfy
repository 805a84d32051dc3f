/** What one turn says, told from its inputs alone: the reply and every frame, without the
    bridge's own state. */
module TurnText {
  import opened Prelude
  import B = ChatBridge

  // ---------------------------------------------------------------------------
  // What an event says by its own fields
  // ---------------------------------------------------------------------------

  function AssistantKind(evt: B.PiEvent): string {
    if evt.kind == "message_update" && evt.ame.Some? then evt.ame.value.kind else ""
  }

  function AssistantDelta(evt: B.PiEvent): Option<string> {
    if evt.ame.Some? then evt.ame.value.delta else None
  }

  /** The text that a delta adds. */
  function DeltaText(evt: B.PiEvent): string {
    if AssistantKind(evt) == "text_delta" && AssistantDelta(evt).Some? then AssistantDelta(evt).value else ""
  }

  /** The activity that an event reports: its kind, its status, the tool and the delta. */
  function Activity(evt: B.PiEvent): Option<(string, string, Option<string>, Option<string>)> {
    var kind, delta := AssistantKind(evt), AssistantDelta(evt);
    if kind == "thinking_start" then Some(("thinking", "start", None, None))
    else if kind == "thinking_delta" && delta.Some? then Some(("thinking", "delta", None, delta))
    else if kind == "thinking_end" then Some(("thinking", "end", None, None))
    else if kind == "toolcall_start" then Some(("tool_use", "start", evt.ame.value.toolName, None))
    else if kind == "toolcall_delta" && delta.Some? then Some(("tool_use", "delta", None, delta))
    else if kind == "toolcall_end" then Some(("tool_use", "end", None, None))
    else if evt.kind == "tool_execution_start" then Some(("tool_use", "start", Some(evt.toolName), None))
    else if evt.kind == "tool_execution_update" then Some(("tool_use", "delta", Some(evt.toolName), evt.partial))
    else if evt.kind == "tool_execution_end" then Some(("tool_use", "end", Some(evt.toolName), None))
    else None
  }

  /** A whole message, or an update that is neither a delta of text nor an activity: its full
      text counts if it is longer than what was said. */
  predicate Whole(evt: B.PiEvent) {
    evt.kind in ["message", "agent_message"]
    || (evt.kind == "message_update" && DeltaText(evt) == "" && Activity(evt).None?)
  }

  /** The message of the failure that an input reports. */
  function Failure(i: B.Input): Option<string> {
    match i
    case Crash(message) => Some(if message == "" then "host_spawn_error" else message)
    case Event(evt) =>
      if evt.kind == "response" && !evt.success then Some(evt.rejection)
      else if evt.kind in ["error", "agent_error"] then Some(evt.failure)
      else None
    case _ => None
  }

  predicate Finishes(i: B.Input) {
    i.Event? && i.evt.kind == "agent_end"
  }

  // ---------------------------------------------------------------------------
  // What the inputs of one turn say
  // ---------------------------------------------------------------------------

  /** The turn has neither finished nor failed. */
  predicate Open(inputs: seq<B.Input>) {
    forall k :: 0 <= k < |inputs| ==> Failure(inputs[k]).None? && !Finishes(inputs[k])
  }

  /** What an open turn has said after one more input. */
  function Grown(said: string, i: B.Input): string {
    if !i.Event? then said
    else if DeltaText(i.evt) != "" then said + DeltaText(i.evt)
    else if Whole(i.evt) && |B.FullText(i.evt)| > |said| then B.FullText(i.evt)
    else if Finishes(i) && said == "" then B.FullText(i.evt)
    else said
  }

  /** The text said so far: the last full text that was longer than what came before it,
      followed by every later delta, up to the end of the turn. */
  function Said(inputs: seq<B.Input>): string {
    if inputs == [] then ""
    else
      var before := inputs[..|inputs| - 1];
      if Open(before) then Grown(Said(before), inputs[|inputs| - 1]) else Said(before)
  }

  /** The frames that one input of an open turn causes, by what was said before and after it. */
  function FramesOf(turnId: string, target: Option<string>, i: B.Input, before: string, after: string): seq<B.TunnelMessage> {
    (if after == before then [] else [B.Chunk(turnId, target, if |before| <= |after| then after[|before|..] else "")])
    + (if i.Event? && Activity(i.evt).Some? then
         var a := Activity(i.evt).value;
         [B.Activity(turnId, target, a.0, a.1, a.2, a.3)]
       else [])
    + (if Finishes(i) then [B.Done(turnId, target, after)] else [])
    + (if Failure(i).Some? then [B.Error(turnId, target, Failure(i).value)] else [])
  }

  /** Everything that the turn sends. */
  function Frames(turnId: string, target: Option<string>, inputs: seq<B.Input>): seq<B.TunnelMessage> {
    if inputs == [] then []
    else
      var before := inputs[..|inputs| - 1];
      Frames(turnId, target, before)
      + if Open(before) then FramesOf(turnId, target, inputs[|inputs| - 1], Said(before), Said(inputs)) else []
  }

  // ---------------------------------------------------------------------------
  // The bridge does just that
  // ---------------------------------------------------------------------------

  /** The bridge's turn when this much has been said. */
  function Turn(turnId: string, target: Option<string>, said: string): B.ActiveTurn {
    B.ActiveTurn(turnId, target, said != "", said)
  }

  /** The bridge's answer to an event, as the inputs alone tell it. */
  ghost predicate Agrees(turnId: string, target: Option<string>, said: string, evt: B.PiEvent) {
    var i, after := B.Event(evt), Grown(said, B.Event(evt));
    B.OnEvent(Turn(turnId, target, said), evt)
    == B.State(if Finishes(i) || Failure(i).Some? then None else Some(Turn(turnId, target, after)),
               FramesOf(turnId, target, i, said, after))
  }

  lemma DeltaStep(turnId: string, target: Option<string>, said: string, evt: B.PiEvent)
    requires DeltaText(evt) != ""
    ensures Agrees(turnId, target, said, evt)
  {
    hide B.FullText;
    assert evt.kind == "message_update" && evt.ame.value.kind == "text_delta";
    assert !B.IsSnapshot(evt) && Activity(evt).None?;
    assert (said + DeltaText(evt))[|said|..] == DeltaText(evt);
  }

  /** An activity says nothing and ends nothing. */
  lemma ActivityAlone(turnId: string, target: Option<string>, said: string, evt: B.PiEvent)
    requires Activity(evt).Some?
    ensures var i, a := B.Event(evt), Activity(evt).value;
      && !Finishes(i) && Failure(i).None? && Grown(said, i) == said && !Whole(evt)
      && FramesOf(turnId, target, i, said, said) == [B.Activity(turnId, target, a.0, a.1, a.2, a.3)]
  {
    hide B.FullText;
    assert evt.kind == "message_update" || evt.kind in ["tool_execution_start", "tool_execution_update", "tool_execution_end"];
    assert DeltaText(evt) == "";
  }

  lemma ActivityStep(turnId: string, target: Option<string>, said: string, evt: B.PiEvent)
    requires Activity(evt).Some?
    ensures Agrees(turnId, target, said, evt)
  {
    hide Grown, FramesOf, Finishes, Failure, Whole, B.FullText, B.IsSnapshot;
    ActivityAlone(turnId, target, said, evt);
    WholeIsSnapshot(evt);
  }

  lemma WholeStep(turnId: string, target: Option<string>, said: string, evt: B.PiEvent)
    requires Whole(evt)
    ensures Agrees(turnId, target, said, evt)
  {
    hide B.FullText;
    WholeIsSnapshot(evt);
    assert Activity(evt).None? && DeltaText(evt) == "";
  }

  lemma WholeIsSnapshot(evt: B.PiEvent)
    ensures Whole(evt) <==> B.IsSnapshot(evt)
  {
  }

  /** An update is text, activity or a whole message; a tool's event is activity. */
  lemma OtherKinds(evt: B.PiEvent)
    requires !Whole(evt) && Activity(evt).None? && DeltaText(evt) == ""
    ensures evt.kind !in ["message_update", "tool_execution_start", "tool_execution_update", "tool_execution_end"]
  {
    hide B.FullText;
  }

  lemma OtherStep(turnId: string, target: Option<string>, said: string, evt: B.PiEvent)
    requires !Whole(evt) && Activity(evt).None? && DeltaText(evt) == ""
    ensures Agrees(turnId, target, said, evt)
  {
    hide B.FullText, B.OnAssistant, B.IsSnapshot, Whole, Activity, DeltaText;
    WholeIsSnapshot(evt);
    OtherKinds(evt);
    assert B.FullText(evt)[0..] == B.FullText(evt);
  }

  lemma InputStep(turnId: string, target: Option<string>, said: string, i: B.Input)
    requires !i.Request?
    ensures var after := Grown(said, i);
      B.Outcome(Some(Turn(turnId, target, said)), i)
      == B.State(if Finishes(i) || Failure(i).Some? then None else Some(Turn(turnId, target, after)),
                 FramesOf(turnId, target, i, said, after))
  {
    hide B.FullText, Whole, Activity, DeltaText, B.OnEvent;
    if i.Event? {
      if DeltaText(i.evt) != "" {
        DeltaStep(turnId, target, said, i.evt);
      } else if Activity(i.evt).Some? {
        ActivityStep(turnId, target, said, i.evt);
      } else if Whole(i.evt) {
        WholeStep(turnId, target, said, i.evt);
      } else {
        OtherStep(turnId, target, said, i.evt);
      }
    }
  }

  lemma OpenMore(inputs: seq<B.Input>)
    requires inputs != []
    ensures var n := |inputs| - 1;
            Open(inputs) <==> Open(inputs[..n]) && Failure(inputs[n]).None? && !Finishes(inputs[n])
  {
    hide Failure, Finishes;
    var n := |inputs| - 1;
    assert forall k :: 0 <= k < n ==> inputs[..n][k] == inputs[k];
  }

  /** From the start of a turn, whatever was sent before it, the frames it sends and the text it
      holds are those that the inputs tell by themselves. */
  lemma {:induction false} TurnExactly(s: B.State, turnId: string, target: Option<string>, inputs: seq<B.Input>)
    requires B.NoRequests(inputs) && s.active == Some(Turn(turnId, target, ""))
    ensures var s' := B.Run(s, inputs);
      && s'.sent == s.sent + Frames(turnId, target, inputs)
      && s'.active == if Open(inputs) then Some(Turn(turnId, target, Said(inputs))) else None
  {
    hide Grown, FramesOf, Failure, Finishes, B.Outcome, Open;
    if inputs == [] {
      NothingYet();
      assert s.sent + [] == s.sent;
    } else {
      var n := |inputs| - 1;
      TurnExactly(s, turnId, target, inputs[..n]);
      OpenMore(inputs);
      if Open(inputs[..n]) {
        InputStep(turnId, target, Said(inputs[..n]), inputs[n]);
      } else {
        B.IdleOutcome(inputs[n]);
      }
      Together(s.sent, Frames(turnId, target, inputs[..n]), B.Outcome(B.Run(s, inputs[..n]).active, inputs[n]).sent);
    }
  }

  lemma Together(a: seq<B.TunnelMessage>, b: seq<B.TunnelMessage>, c: seq<B.TunnelMessage>)
    ensures a + b + c == a + (b + c)
  {
  }

  lemma NothingYet()
    ensures Open([])
  {
  }

  /** The turn fails: an input reports a failure before any ends the turn. */
  predicate Fails(inputs: seq<B.Input>) {
    exists n :: 0 <= n < |inputs| && Failure(inputs[n]).Some? && Open(inputs[..n])
  }

  lemma FailsMore(inputs: seq<B.Input>)
    requires inputs != []
    ensures var n := |inputs| - 1;
            Fails(inputs) <==> Fails(inputs[..n]) || (Open(inputs[..n]) && Failure(inputs[n]).Some?)
  {
    hide Failure, Open;
    var n := |inputs| - 1;
    if Fails(inputs[..n]) {
      var k :| 0 <= k < n && Failure(inputs[..n][k]).Some? && Open(inputs[..n][..k]);
      assert inputs[..n][..k] == inputs[..k];
    }
    if Fails(inputs) {
      var k :| 0 <= k <= n && Failure(inputs[k]).Some? && Open(inputs[..k]);
      if k < n {
        assert inputs[..n][..k] == inputs[..k] && inputs[..n][k] == inputs[k];
      }
    }
  }

  lemma FailsClosed(inputs: seq<B.Input>)
    requires Fails(inputs)
    ensures !Open(inputs)
  {
  }

  /** The last frame of an input that ends the turn. */
  lemma LastFrame(turnId: string, target: Option<string>, i: B.Input, before: string, after: string)
    requires Finishes(i) || Failure(i).Some?
    ensures var f := FramesOf(turnId, target, i, before, after);
            f != [] && f[|f| - 1] == if Failure(i).Some? then B.Error(turnId, target, Failure(i).value) else B.Done(turnId, target, after)
  {
    hide Activity;
  }

  lemma {:induction false} LastOfTurn(turnId: string, target: Option<string>, inputs: seq<B.Input>)
    requires !Open(inputs)
    ensures var f := Frames(turnId, target, inputs);
            f != [] && (if Fails(inputs) then f[|f| - 1].Error? else f[|f| - 1] == B.Done(turnId, target, Said(inputs)))
  {
    hide Grown, FramesOf, Failure, Finishes, Open, Fails;
    if inputs == [] {
      NothingYet();
    } else {
      var n := |inputs| - 1;
      OpenMore(inputs);
      FailsMore(inputs);
      if Open(inputs[..n]) {
        if Fails(inputs[..n]) {
          FailsClosed(inputs[..n]);
        }
        LastFrame(turnId, target, inputs[n], Said(inputs[..n]), Said(inputs));
      } else {
        LastOfTurn(turnId, target, inputs[..n]);
      }
    }
  }

  /** Over every run of one turn its reply is the text that its inputs say, and it is without one
      exactly when it fails. */
  lemma ReplyIsSaid(turnId: string, target: Option<string>, inputs: seq<B.Input>)
    requires B.NoRequests(inputs)
    ensures B.Reply(B.Run(B.Started(turnId, target), inputs)) == if Fails(inputs) then None else Some(Said(inputs))
  {
    hide Open, Fails, Frames, B.Run;
    TurnExactly(B.Started(turnId, target), turnId, target, inputs);
    assert [] + Frames(turnId, target, inputs) == Frames(turnId, target, inputs);
    if Open(inputs) {
      if Fails(inputs) {
        FailsClosed(inputs);
      }
    } else {
      LastOfTurn(turnId, target, inputs);
    }
  }
}
