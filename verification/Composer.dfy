/** The backend's side of a chat turn, and the whole path from the runtime's output to it. */
module Composer {
  import opened Prelude
  import Text
  import B = ChatBridge
  import T = TurnText
  import Framing

  datatype Kind = ChunkFrame | DoneFrame | ErrorFrame | ActivityFrame | OtherFrame

  datatype Doing = Doing(kind: string, toolName: Option<string>, delta: Option<string>)

  /** A frame as a dictionary: an absent key is None. */
  datatype Frame = Frame(
    kind: Kind, turnId: string, instanceId: string, target: Option<string>, token: Option<string>,
    text: Option<string>, message: Option<string>, status: Option<string>, finish: Option<string>, doing: Option<Doing>)

  /** What the transcript row of the assistant was last set to. */
  datatype Saved = Saved(content: string, status: string)

  datatype TurnState = TurnState(
    turnId: string, instanceId: string, target: string, status: string, replyText: string,
    history: seq<Frame>, queue: seq<Option<Frame>>, saved: Option<Saved>)

  function FreshTurn(turnId: string, instanceId: string, target: string): TurnState {
    TurnState(turnId, instanceId, target, "responding", "", [], [], None)
  }

  /** Nothing is left of the text after `strip()`. */
  predicate Blank(s: string) {
    Text.Every(s, Text.Spaces)
  }

  function OrEmpty(s: Option<string>): string {
    if s.Some? then s.value else ""
  }

  function Default(s: Option<string>, d: string): Option<string> {
    if s.Some? then s else Some(d)
  }

  // ---------------------------------------------------------------------------
  // What a frame does
  // ---------------------------------------------------------------------------

  function Stamped(s: TurnState, f: Frame): Frame {
    f.(turnId := s.turnId, instanceId := s.instanceId, target := Some(if OrEmpty(f.target) != "" then f.target.value else s.target))
  }

  function Pushed(s: TurnState, f: Frame): TurnState {
    s.(history := s.history + [f], queue := s.queue + [Some(f)])
  }

  /** The transcript row is set and the stream is closed. */
  function Finalized(s: TurnState, status: string, content: string): TurnState {
    s.(saved := Some(Saved(if Blank(content) && !Blank(s.replyText) then s.replyText else content, status)), queue := s.queue + [None])
  }

  function Ingested(s: TurnState, frame: Frame): TurnState {
    var f := Stamped(s, frame);
    match f.kind
    case ChunkFrame =>
      Pushed(s.(replyText := s.replyText + OrEmpty(f.token)), f.(status := Default(f.status, "responding")))
    case DoneFrame =>
      var reply := if Blank(OrEmpty(f.text)) then s.replyText else f.text.value;
      var done := f.(status := Default(f.status, "completed"), text := if OrEmpty(f.text) == "" then Some(reply) else f.text);
      Finalized(Pushed(s.(status := "completed", replyText := reply), done), "completed", reply)
    case ErrorFrame =>
      var content := if OrEmpty(f.message) == "" then s.replyText else f.message.value;
      Finalized(Pushed(s.(status := "failed"), f.(status := Default(f.status, "failed"))), "failed", content)
    case ActivityFrame => Pushed(s, f)
    case OtherFrame => s
  }

  function IngestAll(s: TurnState, frames: seq<Frame>): TurnState {
    if frames == [] then s else Ingested(IngestAll(s, frames[..|frames| - 1]), frames[|frames| - 1])
  }

  // ---------------------------------------------------------------------------
  // The backend's own stream
  // ---------------------------------------------------------------------------

  datatype TokenChunk = TokenChunk(token: string, finish: string)

  function ChunkOf(s: TurnState, token: string): Frame {
    Frame(ChunkFrame, s.turnId, s.instanceId, Some(s.target), Some(token), None, None, Some("responding"), None, None)
  }

  function DoneOf(s: TurnState, finish: string): Frame {
    Frame(DoneFrame, s.turnId, s.instanceId, Some(s.target), None, Some(s.replyText), None, Some("completed"), Some(finish), None)
  }

  function ErrorOf(s: TurnState, message: string): Frame {
    Frame(ErrorFrame, s.turnId, s.instanceId, Some(s.target), None, None, Some(message), Some("failed"), None, None)
  }

  function WithToken(s: TurnState, token: string): TurnState {
    if token == "" then s else Pushed(s.(replyText := s.replyText + token), ChunkOf(s, token))
  }

  function Completed(s: TurnState, finish: string): TurnState {
    Finalized(Pushed(s.(status := "completed"), DoneOf(s, finish)), "completed", s.replyText)
  }

  function Broken(s: TurnState, message: string): TurnState {
    Finalized(Pushed(s.(status := "failed"), ErrorOf(s, message)), "failed", message)
  }

  /** The stream: token chunks until one carries a finish reason, the end, or a failure. */
  function Streamed(s: TurnState, chunks: seq<TokenChunk>, failure: Option<string>): TurnState
    decreases |chunks|
  {
    if chunks == [] then (if failure.Some? then Broken(s, failure.value) else Completed(s, "stop"))
    else
      var s' := WithToken(s, chunks[0].token);
      if chunks[0].finish != "" then Completed(s', chunks[0].finish) else Streamed(s', chunks[1..], failure)
  }

  class ComposerTurn {
    const turnId: string
    const instanceId: string
    const target: string
    var status: string
    var replyText: string
    var history: seq<Frame>
    var queue: seq<Option<Frame>>
    var saved: Option<Saved>

    constructor (turnId: string, instanceId: string, target: string)
      ensures State() == FreshTurn(turnId, instanceId, target)
    {
      this.turnId, this.instanceId, this.target := turnId, instanceId, target;
      status, replyText, history, queue, saved := "responding", "", [], [], None;
    }

    ghost function State(): TurnState
      reads this
    {
      TurnState(turnId, instanceId, target, status, replyText, history, queue, saved)
    }

    method EmitFrame(frame: Frame)
      modifies this`history, this`queue
      ensures State() == Pushed(old(State()), frame)
    {
      history := history + [frame];
      queue := queue + [Some(frame)];
    }

    method Finalize(status: string, content: Option<string>)
      modifies this`saved, this`queue
      ensures State() == Finalized(old(State()), status, if content.Some? then content.value else replyText)
    {
      var body := if content.Some? then content.value else replyText;
      if Blank(body) && !Blank(replyText) {
        body := replyText;
      }
      saved := Some(Saved(body, status));
      queue := queue + [None];
    }

    method Ingest(frame: Frame)
      modifies this
      ensures State() == Ingested(old(State()), frame)
    {
      var f := frame.(turnId := turnId, instanceId := instanceId,
                      target := Some(if OrEmpty(frame.target) != "" then frame.target.value else target));
      match f.kind {
        case ChunkFrame =>
          f := f.(status := Default(f.status, "responding"));
          replyText := replyText + OrEmpty(f.token);
          EmitFrame(f);
        case DoneFrame =>
          status := "completed";
          f := f.(status := Default(f.status, "completed"));
          if !Blank(OrEmpty(f.text)) {
            replyText := f.text.value;
          }
          if OrEmpty(f.text) == "" {
            f := f.(text := Some(replyText));
          }
          EmitFrame(f);
          Finalize("completed", None);
        case ErrorFrame =>
          status := "failed";
          f := f.(status := Default(f.status, "failed"));
          EmitFrame(f);
          Finalize("failed", Some(if OrEmpty(f.message) != "" then f.message.value else replyText));
        case ActivityFrame =>
          EmitFrame(f);
        case OtherFrame =>
      }
    }

    method RunStreamTurn(chunks: seq<TokenChunk>, failure: Option<string>)
      modifies this
      ensures State() == Streamed(old(State()), chunks, failure)
    {
      hide Pushed, Finalized;
      for i := 0 to |chunks|
        invariant Streamed(State(), chunks[i..], failure) == Streamed(old(State()), chunks, failure)
      {
        assert chunks[i..][0] == chunks[i] && chunks[i..][1..] == chunks[i + 1..];
        if chunks[i].token != "" {
          Stream(chunks[i].token);
        }
        if chunks[i].finish != "" {
          Complete(chunks[i].finish);
          return;
        }
      }
      if failure.Some? {
        Fail(failure.value);
      } else {
        Complete("stop");
      }
    }

    method Stream(token: string)
      requires token != ""
      modifies this
      ensures State() == WithToken(old(State()), token)
    {
      var frame := Frame(ChunkFrame, turnId, instanceId, Some(target), Some(token), None, None, Some("responding"), None, None);
      replyText := replyText + token;
      EmitFrame(frame);
    }

    method Complete(finish: string)
      modifies this
      ensures State() == Completed(old(State()), finish)
    {
      status := "completed";
      EmitFrame(Frame(DoneFrame, turnId, instanceId, Some(target), None, Some(replyText), None, Some("completed"), Some(finish), None));
      Finalize("completed", None);
    }

    method Fail(message: string)
      modifies this
      ensures State() == Broken(old(State()), message)
    {
      status := "failed";
      EmitFrame(Frame(ErrorFrame, turnId, instanceId, Some(target), None, None, Some(message), Some("failed"), None, None));
      Finalize("failed", Some(message));
    }
  }

  /** A frame for a turn that is not known changes nothing. */
  method IngestTunnelChatFrame(turns: map<string, ComposerTurn>, turnId: string, frame: Frame)
    modifies if turnId in turns then {turns[turnId]} else {}
    ensures turnId in turns ==> turns[turnId].State() == Ingested(old(turns[turnId].State()), frame)
  {
    if turnId !in turns {
      return;
    }
    turns[turnId].Ingest(frame);
  }

  // ---------------------------------------------------------------------------
  // The two ways a turn is fed leave the same state
  // ---------------------------------------------------------------------------

  /** The frames that the backend's own stream emits. */
  function StreamFrames(s: TurnState, chunks: seq<TokenChunk>, failure: Option<string>): seq<Frame>
    decreases |chunks|
  {
    if chunks == [] then [if failure.Some? then ErrorOf(s, failure.value) else DoneOf(s, "stop")]
    else
      var s', c := WithToken(s, chunks[0].token), chunks[0];
      (if c.token == "" then [] else [ChunkOf(s, c.token)])
      + if c.finish != "" then [DoneOf(s', c.finish)] else StreamFrames(s', chunks[1..], failure)
  }

  lemma {:induction false} IngestHead(s: TurnState, f: Frame, frames: seq<Frame>)
    ensures IngestAll(s, [f] + frames) == IngestAll(Ingested(s, f), frames)
  {
    hide Ingested;
    var all, n := [f] + frames, |frames|;
    if frames == [] {
      assert all[..0] == [] && all[0] == f;
    } else {
      assert all[..n] == [f] + frames[..n - 1] && all[n] == frames[n - 1];
      IngestHead(s, f, frames[..n - 1]);
    }
  }

  lemma TokenIngested(s: TurnState, token: string)
    ensures Ingested(s, ChunkOf(s, token)) == Pushed(s.(replyText := s.replyText + token), ChunkOf(s, token))
  {
  }

  lemma DoneIngested(s: TurnState, finish: string)
    ensures Ingested(s, DoneOf(s, finish)) == Completed(s, finish)
  {
  }

  lemma ErrorIngested(s: TurnState, message: string)
    ensures Ingested(s, ErrorOf(s, message)) == Broken(s, message) <==> !(message == "" && s.replyText != "" && Blank(s.replyText))
  {
  }

  /** The stream fails without a message after a reply of white space only. */
  predicate SilentFailure(s: TurnState, chunks: seq<TokenChunk>, failure: Option<string>)
    decreases |chunks|
  {
    if chunks == [] then failure == Some("") && s.replyText != "" && Blank(s.replyText)
    else chunks[0].finish == "" && SilentFailure(WithToken(s, chunks[0].token), chunks[1..], failure)
  }

  /** The backend's own stream leaves exactly the state that ingesting its frames leaves,
      but for the transcript text of a silent failure. */
  lemma {:induction false} StreamIsIngest(s: TurnState, chunks: seq<TokenChunk>, failure: Option<string>)
    ensures Streamed(s, chunks, failure) == IngestAll(s, StreamFrames(s, chunks, failure)) <==> !SilentFailure(s, chunks, failure)
    decreases |chunks|
  {
    hide Ingested, Completed, Broken, ChunkOf, DoneOf, ErrorOf, Blank, Pushed;
    if chunks == [] {
      if failure.Some? {
        IngestOne(s, ErrorOf(s, failure.value));
        ErrorIngested(s, failure.value);
      } else {
        IngestOne(s, DoneOf(s, "stop"));
        DoneIngested(s, "stop");
      }
    } else {
      var c := chunks[0];
      var s' := WithToken(s, c.token);
      var rest := if c.finish != "" then [DoneOf(s', c.finish)] else StreamFrames(s', chunks[1..], failure);
      if c.finish != "" {
        IngestOne(s', DoneOf(s', c.finish));
        DoneIngested(s', c.finish);
      } else {
        StreamIsIngest(s', chunks[1..], failure);
      }
      if c.token != "" {
        TokenIngested(s, c.token);
        IngestHead(s, ChunkOf(s, c.token), rest);
      } else {
        assert [] + rest == rest;
      }
    }
  }

  lemma IngestOne(s: TurnState, f: Frame)
    ensures IngestAll(s, [f]) == Ingested(s, f)
  {
    assert [f][..0] == [];
    assert IngestAll(s, [f]) == Ingested(IngestAll(s, [f][..0]), [f][0]);
  }

  /** The tokens that the stream says, up to the first finish reason; empty ones are not said. */
  function Spoken(chunks: seq<TokenChunk>): seq<string> {
    if chunks == [] then []
    else
      (if chunks[0].token == "" then [] else [chunks[0].token]) + (if chunks[0].finish != "" then [] else Spoken(chunks[1..]))
  }

  /** The first finish reason, if there is one. */
  function Finish(chunks: seq<TokenChunk>): Option<string> {
    if chunks == [] then None
    else if chunks[0].finish != "" then Some(chunks[0].finish)
    else Finish(chunks[1..])
  }

  /** A frame of the backend's own stream, field by field. */
  predicate Own(s: TurnState, f: Frame) {
    f.turnId == s.turnId && f.instanceId == s.instanceId && f.target == Some(s.target) && f.doing == None
  }

  lemma FlatHead(a: string, rest: seq<string>)
    ensures Framing.Flat([a] + rest) == a + Framing.Flat(rest)
  {
    var all, n := [a] + rest, |rest|;
    if rest == [] {
      assert all[..0] == [] && all[0] == a;
    } else {
      assert all[..n] == [a] + rest[..n - 1] && all[n] == rest[n - 1];
      FlatHead(a, rest[..n - 1]);
    }
  }

  /** What saying these tokens and then ending leaves of a turn: one frame for each token, one
      for the end, the whole text as reply, and the transcript set. */
  ghost predicate Leaves(s: TurnState, r: TurnState, tokens: seq<string>, finish: Option<string>, failure: Option<string>) {
    var n := |s.history|;
    var end := n + |tokens|;
    && r.replyText == s.replyText + Framing.Flat(tokens)
    && |r.history| == end + 1 && r.history[..n] == s.history && Own(s, r.history[end])
    && r.queue == s.queue + Queued(r.history[n..]) + [None]
    && (forall k :: n <= k < end ==>
          Own(s, r.history[k]) && r.history[k].kind == ChunkFrame && r.history[k].token == Some(tokens[k - n])
          && r.history[k].status == Some("responding"))
    && (if finish.None? && failure.Some? then
          && r.status == "failed" && r.history[end].kind == ErrorFrame && r.history[end].message == failure
          && r.saved == Some(Saved(if Blank(failure.value) && !Blank(r.replyText) then r.replyText else failure.value, "failed"))
        else
          && r.status == "completed" && r.history[end].kind == DoneFrame && r.history[end].text == Some(r.replyText)
          && r.history[end].finish == Some(if finish.Some? then finish.value else "stop")
          && r.saved == Some(Saved(r.replyText, "completed")))
  }

  lemma EndLeaves(s: TurnState, finish: Option<string>, failure: Option<string>)
    ensures finish.None? && failure.Some? ==> Leaves(s, Broken(s, failure.value), [], finish, failure)
    ensures finish.Some? || failure.None? ==>
      Leaves(s, Completed(s, if finish.Some? then finish.value else "stop"), [], finish, failure)
  {
    hide Blank;
    FlatNone(s.replyText);
    forall f ensures (s.history + [f])[|s.history|..] == [f] && Queued([f]) == [Some(f)] {}
  }

  lemma TokenLeaves(s: TurnState, token: string, r: TurnState, tokens: seq<string>, finish: Option<string>, failure: Option<string>)
    requires token != "" && Leaves(WithToken(s, token), r, tokens, finish, failure)
    ensures Leaves(s, r, [token] + tokens, finish, failure)
  {
    hide Blank, Framing.Flat, Queued, Own;
    FlatHead(token, tokens);
    assert s.replyText + token + Framing.Flat(tokens) == s.replyText + (token + Framing.Flat(tokens));
    var c := ChunkOf(s, token);
    ChunkIsOwn(s, token);
    OneMoreFrame(s.history, c, r.history, s.queue, r.queue);
    forall k | |s.history| <= k < |s.history| + 1 + |tokens|
      ensures Own(s, r.history[k]) && r.history[k].kind == ChunkFrame && r.history[k].token == Some(([token] + tokens)[k - |s.history|])
              && r.history[k].status == Some("responding")
    {
      SameOwn(s, token, r.history[k]);
    }
    SameOwn(s, token, r.history[|r.history| - 1]);
  }

  lemma ChunkIsOwn(s: TurnState, token: string)
    ensures var c := ChunkOf(s, token); Own(s, c) && c.kind == ChunkFrame && c.token == Some(token) && c.status == Some("responding")
  {
  }

  lemma SameOwn(s: TurnState, token: string, f: Frame)
    ensures Own(WithToken(s, token), f) <==> Own(s, f)
  {
  }

  lemma OneMoreFrame(history: seq<Frame>, c: Frame, after: seq<Frame>, queue: seq<Option<Frame>>, end: seq<Option<Frame>>)
    requires |after| > |history| && after[..|history| + 1] == history + [c]
    requires end == queue + [Some(c)] + Queued(after[|history| + 1..]) + [None]
    ensures after[..|history|] == history && after[|history|] == c && end == queue + Queued(after[|history|..]) + [None]
  {
    hide Queued;
    var n := |history|;
    assert after[..n + 1][..n] == after[..n] && after[..n + 1][n] == after[n];
    QueuedFirst(after[n..]);
    assert after[n..][1..] == after[n + 1..];
    assert queue + [Some(c)] + Queued(after[n + 1..]) == queue + ([Some(c)] + Queued(after[n + 1..]));
  }

  /** What the backend's own stream leaves, told from the chunks alone. */
  lemma {:induction false} StreamedExactly(s: TurnState, chunks: seq<TokenChunk>, failure: Option<string>)
    ensures Leaves(s, Streamed(s, chunks, failure), Spoken(chunks), Finish(chunks), failure)
    decreases |chunks|
  {
    hide Leaves, Completed, Broken;
    if chunks == [] {
      EndLeaves(s, None, failure);
    } else {
      var c := chunks[0];
      var s', rest := WithToken(s, c.token), if c.finish != "" then [] else Spoken(chunks[1..]);
      if c.finish == "" {
        StreamedExactly(s', chunks[1..], failure);
      } else {
        EndLeaves(s', Some(c.finish), failure);
      }
      if c.token != "" {
        TokenLeaves(s, c.token, Streamed(s, chunks, failure), rest, Finish(chunks), failure);
      } else {
        assert [] + rest == rest;
      }
    }
  }

  lemma FlatNone(text: string)
    ensures text + Framing.Flat([]) == text
  {
  }

  // ---------------------------------------------------------------------------
  // From the bridge to the backend
  // ---------------------------------------------------------------------------

  /** A tunnel message as the backend receives it.  The hub rebuilds the frame of a done
      message without its text. */
  function Received(instanceId: string, m: B.TunnelMessage, viaHub: bool): Frame {
    match m
    case Chunk(turnId, target, token) =>
      Frame(ChunkFrame, turnId, instanceId, target, Some(token), None, None, Some("responding"), None, None)
    case Activity(turnId, target, kind, status, toolName, delta) =>
      Frame(ActivityFrame, turnId, instanceId, target, None, None, None, Some(status), None, Some(Doing(kind, toolName, delta)))
    case Done(turnId, target, text) =>
      Frame(DoneFrame, turnId, instanceId, target, None, if viaHub then None else Some(text), None, Some("completed"), None, None)
    case Error(turnId, target, message) =>
      Frame(ErrorFrame, turnId, instanceId, target, None, None, Some(message), Some("failed"), None, None)
  }

  /** The backend's turn after everything that was sent for it. */
  function Backend(s: TurnState, sent: seq<B.TunnelMessage>, viaHub: bool): TurnState {
    if sent == [] then s
    else Ingested(Backend(s, sent[..|sent| - 1], viaHub), Received(s.instanceId, sent[|sent| - 1], viaHub))
  }

  function Queued(history: seq<Frame>): seq<Option<Frame>> {
    seq(|history|, i requires 0 <= i < |history| => Some(history[i]))
  }

  lemma QueuedFirst(history: seq<Frame>)
    requires history != []
    ensures Queued(history) == [Some(history[0])] + Queued(history[1..])
  {
  }

  lemma QueuedAppend(history: seq<Frame>, f: Frame)
    ensures Queued(history + [f]) == Queued(history) + [Some(f)]
  {
  }

  /** A turn with no end in what was sent: still responding, every frame replayable, the
      reply built from the chunks. */
  lemma {:induction false} OpenTurn(s: TurnState, sent: seq<B.TunnelMessage>, viaHub: bool)
    requires s == FreshTurn(s.turnId, s.instanceId, s.target)
    requires forall k :: 0 <= k < |sent| ==> !B.Terminal(sent[k])
    ensures var b := Backend(s, sent, viaHub);
      && b.status == "responding" && b.replyText == B.Tokens(sent) && b.saved == None
      && |b.history| == |sent| && b.queue == Queued(b.history)
  {
    if sent != [] {
      OpenTurn(s, sent[..|sent| - 1], viaHub);
      var b := Backend(s, sent[..|sent| - 1], viaHub);
      QueuedAppend(b.history, Backend(s, sent, viaHub).history[|sent| - 1]);
      assert b.replyText + "" == b.replyText;
    }
  }

  /** The frame that the backend keeps of a message: the turn and the instance are its own, the
      target is the turn's unless the message names one, and the rest is the message's. */
  predicate Keeps(s: TurnState, f: Frame, m: B.TunnelMessage) {
    && f.turnId == s.turnId && f.instanceId == s.instanceId
    && f.target == Some(if m.target.Some? && m.target.value != "" then m.target.value else s.target)
    && match m
       case Chunk(_, _, token) => f.kind == ChunkFrame && f.token == Some(token) && f.status == Some("responding")
       case Activity(_, _, kind, status, toolName, delta) =>
         f.kind == ActivityFrame && f.status == Some(status) && f.doing == Some(Doing(kind, toolName, delta))
       case Done(_, _, _) => f.kind == DoneFrame && f.status == Some("completed")
       case Error(_, _, message) => f.kind == ErrorFrame && f.message == Some(message) && f.status == Some("failed")
  }

  /** Whatever is sent, the backend keeps exactly one frame for each message, in order, and
      puts it in the queue. */
  lemma {:induction false} FramesKept(s: TurnState, sent: seq<B.TunnelMessage>, viaHub: bool)
    ensures var b, n := Backend(s, sent, viaHub), |s.history|;
      && b.turnId == s.turnId && b.instanceId == s.instanceId && b.target == s.target
      && |b.history| == n + |sent| && b.history[..n] == s.history
      && forall k :: 0 <= k < |sent| ==> Keeps(s, b.history[n + k], sent[k])
  {
    hide Keeps, Ingested, Received;
    if sent != [] {
      FramesKept(s, sent[..|sent| - 1], viaHub);
      FrameKept(s, Backend(s, sent[..|sent| - 1], viaHub), sent[|sent| - 1], viaHub);
    }
  }

  lemma FrameKept(s: TurnState, b: TurnState, m: B.TunnelMessage, viaHub: bool)
    requires b.turnId == s.turnId && b.instanceId == s.instanceId && b.target == s.target
    ensures var b' := Ingested(b, Received(s.instanceId, m, viaHub));
      && b'.turnId == s.turnId && b'.instanceId == s.instanceId && b'.target == s.target
      && |b'.history| == |b.history| + 1 && b'.history[..|b.history|] == b.history && Keeps(s, b'.history[|b.history|], m)
  {
    hide Blank;
  }

  /** What a finished turn's reply becomes in the backend. */
  function FinalReply(streamed: string, text: string, viaHub: bool): string {
    if viaHub || Blank(text) then streamed else text
  }

  /** What the transcript says of a failed turn: the message, or the reply if the message is empty
      or blank beside a reply that is not. */
  function FailureText(message: string, reply: string): string {
    if message == "" || (Blank(message) && !Blank(reply)) then reply else message
  }

  /** Over every run of a turn the backend follows the bridge: the same status, one replayable
      frame for each message, and the stream closed once, when and only when the turn ends. */
  lemma TurnDelivered(turnId: string, target: Option<string>, inputs: seq<B.Input>, s: TurnState, viaHub: bool)
    requires B.NoRequests(inputs) && s == FreshTurn(s.turnId, s.instanceId, s.target)
    ensures var turn, b := B.Run(B.Started(turnId, target), inputs), Backend(s, B.Run(B.Started(turnId, target), inputs).sent, viaHub);
      && |b.history| == |turn.sent| && b.queue == Queued(b.history) + (if turn.active.None? then [None] else [])
      && (b.status == if turn.active.Some? then "responding" else if B.Reply(turn).Some? then "completed" else "failed")
      && (turn.active.None? && B.Reply(turn).Some? ==>
            && b.replyText == FinalReply(B.Tokens(turn.sent), B.Reply(turn).value, viaHub)
            && b.saved == Some(Saved(b.replyText, "completed")))
      && (turn.active.Some? || B.Reply(turn).None? ==> b.replyText == B.Tokens(turn.sent))
      && (turn.active.Some? ==> b.saved == None)
      && (turn.active.None? && B.Reply(turn).None? ==>
            && turn.sent[|turn.sent| - 1].Error?
            && b.saved == Some(Saved(FailureText(turn.sent[|turn.sent| - 1].message, b.replyText), "failed")))
  {
    hide B.Run, B.Tokens, Backend, FreshTurn, FinalReply, FailureText;
    var turn := B.Run(B.Started(turnId, target), inputs);
    B.TurnRun(turnId, target, inputs);
    if turn.active.Some? {
      OpenTurn(s, turn.sent, viaHub);
      assert Queued(Backend(s, turn.sent, viaHub).history) + [] == Queued(Backend(s, turn.sent, viaHub).history);
    } else {
      ClosedTurn(s, turn.sent[..|turn.sent| - 1], turn.sent[|turn.sent| - 1], viaHub);
      assert turn.sent == turn.sent[..|turn.sent| - 1] + [turn.sent[|turn.sent| - 1]];
    }
  }

  lemma BackendMore(s: TurnState, sent: seq<B.TunnelMessage>, m: B.TunnelMessage, viaHub: bool)
    ensures Backend(s, sent + [m], viaHub) == Ingested(Backend(s, sent, viaHub), Received(s.instanceId, m, viaHub))
  {
    assert (sent + [m])[..|sent|] == sent;
  }

  lemma DoneIngests(s: TurnState, instanceId: string, end: B.TunnelMessage, viaHub: bool)
    requires end.Done?
    ensures var b := Ingested(s, Received(instanceId, end, viaHub));
      && b.status == "completed" && b.replyText == FinalReply(s.replyText, end.text, viaHub)
      && b.saved == Some(Saved(b.replyText, "completed"))
      && exists f :: b.history == s.history + [f] && b.queue == s.queue + [Some(f)] + [None]
  {
    hide Blank;
    BlankEmpty();
    var b := Ingested(s, Received(instanceId, end, viaHub));
    var f := b.history[|s.history|];
    assert b.history == s.history + [f] && b.queue == s.queue + [Some(f)] + [None];
  }

  lemma BlankEmpty()
    ensures Blank("")
  {
  }

  lemma ErrorIngests(s: TurnState, instanceId: string, end: B.TunnelMessage, viaHub: bool)
    requires end.Error?
    ensures var b := Ingested(s, Received(instanceId, end, viaHub));
      && b.status == "failed" && b.replyText == s.replyText
      && b.saved == Some(Saved(FailureText(end.message, s.replyText), "failed"))
      && exists f :: b.history == s.history + [f] && b.queue == s.queue + [Some(f)] + [None]
  {
    hide Blank;
    var b := Ingested(s, Received(instanceId, end, viaHub));
    var f := b.history[|s.history|];
    assert b.history == s.history + [f] && b.queue == s.queue + [Some(f)] + [None];
  }

  lemma ClosedTurn(s: TurnState, sent: seq<B.TunnelMessage>, end: B.TunnelMessage, viaHub: bool)
    requires s == FreshTurn(s.turnId, s.instanceId, s.target) && B.Terminal(end)
    requires forall k :: 0 <= k < |sent| ==> !B.Terminal(sent[k])
    ensures var b := Backend(s, sent + [end], viaHub);
      && |b.history| == |sent| + 1 && b.queue == Queued(b.history) + [None]
      && b.status == (if end.Done? then "completed" else "failed") && B.Tokens(sent + [end]) == B.Tokens(sent)
      && b.replyText == (if end.Done? then FinalReply(B.Tokens(sent), end.text, viaHub) else B.Tokens(sent))
      && (end.Done? ==> b.saved == Some(Saved(b.replyText, "completed")))
      && (end.Error? ==> b.saved == Some(Saved(FailureText(end.message, b.replyText), "failed")))
  {
    hide Backend, Ingested, Received, FreshTurn, FinalReply, FailureText, Queued, B.Tokens;
    var b0, b := Backend(s, sent, viaHub), Backend(s, sent + [end], viaHub);
    OpenTurn(s, sent, viaHub);
    BackendMore(s, sent, end, viaHub);
    B.TokensMore(sent, end);
    assert B.Tokens(sent) + "" == B.Tokens(sent);
    if end.Done? {
      DoneIngests(b0, s.instanceId, end, viaHub);
    } else {
      ErrorIngests(b0, s.instanceId, end, viaHub);
    }
    var f :| b.history == b0.history + [f] && b.queue == b0.queue + [Some(f)] + [None];
    QueuedAppend(b0.history, f);
  }

  /** After done the backend holds the bridge's reply exactly when the reply is not blank
      and its text arrives, or the chunks add up to it. */
  lemma ReplyDelivered(turnId: string, target: Option<string>, inputs: seq<B.Input>, s: TurnState, viaHub: bool)
    requires B.NoRequests(inputs) && s == FreshTurn(s.turnId, s.instanceId, s.target)
    requires var turn := B.Run(B.Started(turnId, target), inputs); turn.active.None? && B.Reply(turn).Some?
    ensures var turn := B.Run(B.Started(turnId, target), inputs);
            Backend(s, turn.sent, viaHub).replyText == B.Reply(turn).value
            <==> (!viaHub && !Blank(B.Reply(turn).value)) || B.InSync(B.Started(turnId, target), inputs)
  {
    hide B.Handle, B.InSync, Backend;
    TurnDelivered(turnId, target, inputs, s, viaHub);
    B.StreamEqualsReply(turnId, target, inputs);
  }

  // ---------------------------------------------------------------------------
  // End to end
  // ---------------------------------------------------------------------------

  function AsInputs(evts: seq<B.PiEvent>): (r: seq<B.Input>)
    ensures B.NoRequests(r)
  {
    seq(|evts|, i requires 0 <= i < |evts| => B.Event(evts[i]))
  }

  /** The backend's turn, given the chunks in which the runtime's output arrived. */
  function FromOutput(s: TurnState, target: Option<string>, chunks: seq<string>, parse: string -> Option<B.PiEvent>): TurnState {
    var evts := Framing.FedAll(chunks, Framing.Format(true, parse)).events;
    Backend(s, B.Run(B.Started(s.turnId, target), AsInputs(evts)).sent, true)
  }

  /** The backend's turn is what the inputs tell by themselves: it keeps exactly the frames of the
      turn, their text is its reply, its status is that of the turn; and unless the turn failed
      its reply is the text that was said exactly when the turn is in sync. */
  ghost predicate TurnAsSaid(s: TurnState, target: Option<string>, inputs: seq<B.Input>, b: TurnState) {
    var frames := T.Frames(s.turnId, target, inputs);
    && |b.history| == |frames| && (forall k :: 0 <= k < |frames| ==> Keeps(s, b.history[k], frames[k]))
    && b.replyText == B.Tokens(frames)
    && b.status == (if T.Open(inputs) then "responding" else if T.Fails(inputs) then "failed" else "completed")
    && (!T.Fails(inputs) ==> (b.replyText == T.Said(inputs) <==> B.InSync(B.Started(s.turnId, target), inputs)))
  }

  /** However the runtime's output is cut into chunks, the backend's turn is what its events tell by
      themselves. */
  lemma EndToEnd(s: TurnState, target: Option<string>, parse: string -> Option<B.PiEvent>,
                 lines: seq<string>, crlf: seq<bool>, evts: seq<B.PiEvent>, chunks: seq<string>)
    requires s == FreshTurn(s.turnId, s.instanceId, s.target)
    requires |lines| == |crlf| == |evts| && forall i :: 0 <= i < |evts| ==> Framing.Writes(lines[i], evts[i], parse)
    requires Framing.Flat(chunks) == Framing.Framed(lines, crlf)
    ensures var inputs, b := AsInputs(evts), FromOutput(s, target, chunks, parse);
      TurnAsSaid(s, target, inputs, b)
  {
    hide TurnAsSaid, Backend, AsInputs, Framing.FedAll, Framing.Writes, Framing.Flat, Framing.Framed, FreshTurn, B.Run, T.Frames;
    Framing.FramedRoundTrip(lines, crlf, evts, parse, chunks);
    SaidDelivered(s, target, AsInputs(evts));
  }

  lemma SaidDelivered(s: TurnState, target: Option<string>, inputs: seq<B.Input>)
    requires B.NoRequests(inputs) && s == FreshTurn(s.turnId, s.instanceId, s.target)
    ensures TurnAsSaid(s, target, inputs, Backend(s, B.Run(B.Started(s.turnId, target), inputs).sent, true))
  {
    hide B.Handle, B.InSync, B.Tokens, B.NoRequests, Backend, B.Run, B.Reply, Keeps, FreshTurn, FinalReply, FailureText, Queued,
      T.Open, T.Fails, T.Said, T.Frames;
    var start := B.Started(s.turnId, target);
    T.TurnExactly(start, s.turnId, target, inputs);
    assert [] + T.Frames(s.turnId, target, inputs) == T.Frames(s.turnId, target, inputs);
    T.ReplyIsSaid(s.turnId, target, inputs);
    FramesKept(s, B.Run(start, inputs).sent, true);
    TurnDelivered(s.turnId, target, inputs, s, true);
    B.StreamEqualsReply(s.turnId, target, inputs);
    FreshHasNone(s);
    FinalViaHub();
    if T.Fails(inputs) {
      T.FailsClosed(inputs);
    }
  }

  lemma FinalViaHub()
    ensures forall streamed, text :: FinalReply(streamed, text, true) == streamed
  {
  }

  lemma FreshHasNone(s: TurnState)
    requires s == FreshTurn(s.turnId, s.instanceId, s.target)
    ensures s.history == []
  {
  }

  /** A message event that carries nothing but a text. */
  function MessageEvent(kind: string, text: Option<string>): B.PiEvent {
    B.PiEvent(kind, true, "", "", None, text, None, B.Neither, [], "", None)
  }

  lemma MessageStep(st: B.State, text: string)
    requires st.active.Some? && |text| > |st.active.value.replyText|
    ensures var t := st.active.value;
            B.Handle(st, B.Event(MessageEvent("message", Some(text))))
            == B.State(Some(t.(sawText := true, replyText := text)), st.sent + [B.Chunk(t.turnId, t.target, text[|t.replyText|..])])
  {
  }

  lemma EndStep(st: B.State)
    requires st.active.Some? && st.active.value.sawText
    ensures var t := st.active.value;
            B.Handle(st, B.Event(MessageEvent("agent_end", None))) == B.State(None, st.sent + [B.Done(t.turnId, t.target, t.replyText)])
  {
  }

  lemma ThreeSteps(st: B.State, a: B.Input, b: B.Input, c: B.Input)
    ensures B.Run(st, [a, b, c]) == B.Handle(B.Handle(B.Handle(st, a), b), c)
  {
    hide B.Handle;
    assert [a, b, c][..2] == [a, b] && [a, b][..1] == [a] && [a][..0] == [];
    assert B.Run(st, [a]) == B.Handle(B.Run(st, []), a);
    assert B.Run(st, [a, b]) == B.Handle(B.Run(st, [a]), b);
  }

  /** A later full text that does not extend what was streamed: through the hub the backend
      keeps a reply that the runtime never gave. */
  lemma HubKeepsWrongReply(s: TurnState, inputs: seq<B.Input>)
    requires s == FreshTurn("t", s.instanceId, s.target)
    requires inputs == [B.Event(MessageEvent("message", Some("ab"))), B.Event(MessageEvent("message", Some("xyz"))),
                        B.Event(MessageEvent("agent_end", None))]
    ensures var turn := B.Run(B.Started("t", None), inputs);
            B.Reply(turn) == Some("xyz") && Backend(s, turn.sent, true).replyText == "abz"
            && Backend(s, turn.sent, false).replyText == "xyz"
  {
    hide B.Handle, Backend, MessageEvent, B.Run, B.Tokens;
    var st := B.Started("t", None);
    var sent := [B.Chunk("t", None, "ab"), B.Chunk("t", None, "z")];
    ThreeSteps(st, inputs[0], inputs[1], inputs[2]);
    MessageStep(st, "ab");
    assert "ab"[0..] == "ab" && "xyz"[2..] == "z";
    MessageStep(B.Handle(st, inputs[0]), "xyz");
    EndStep(B.Handle(B.Handle(st, inputs[0]), inputs[1]));
    assert B.Run(st, inputs).sent == sent + [B.Done("t", None, "xyz")];
    B.TokensOut(sent, [B.Done("t", None, "xyz")]);
    B.FewTokens(sent);
    B.FewTokens([B.Done("t", None, "xyz")]);
    assert "ab" + "z" + "" == "abz";
    TurnDelivered("t", None, inputs, s, true);
    TurnDelivered("t", None, inputs, s, false);
    assert !Text.Is("xyz"[0], Text.Spaces);
  }
}
