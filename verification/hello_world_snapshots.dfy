/** `HelloWorldWebSocketSnapshot.run` and `handle_event` of the websocket
    demo with snapshots: a start event either creates a new instance or
    resumes a saved one, every exchange is followed by a snapshot, and a
    completed conversation deletes its snapshot. The follow-up messages are
    `followUps`, and `raiseAt` is the index of the call in the `try` block
    that raises. */
module HelloWorldSnapshots {
  import opened Values
  import opened Frames
  import opened Lifecycle

  // ---------------------------------------------------------------------
  // run
  // ---------------------------------------------------------------------

  /** The run from the point where it waits for a follow-up. */
  function Steps(sourceId: Json, followUps: seq<Json>): (spec: RunResult)
    decreases |followUps|, 0
  {
    if followUps == [] then RunResult([], Blocked)
    else Then([ReadEvent], Decide(sourceId, followUps[0], followUps[1..]))
  }

  /** The run once it holds an input: `end` returns, anything else is
      chatted. */
  function Decide(sourceId: Json, input: Json, followUps: seq<Json>): (spec: RunResult)
    decreases |followUps|, 2
  {
    if input == End then RunResult([], Returned) else ChatThen(sourceId, input, followUps)
  }

  /** A chat about `input`, the send of its reply and a snapshot, then the
      wait for `followUps`. */
  function ChatThen(sourceId: Json, input: Json, followUps: seq<Json>): (spec: RunResult)
    decreases |followUps|, 1
  {
    Then([Chat(input)], Then([Send(sourceId)], Then([SaveSnapshot], Steps(sourceId, followUps))))
  }

  /** The calls `run` makes when nothing raises. */
  function RunSpec(sourceId: Json, initial: Json, followUps: seq<Json>): (spec: RunResult) {
    if Truthy(initial) then Decide(sourceId, initial, followUps)
    else Steps(sourceId, followUps)
  }

  /** The calls of one exchange. */
  lemma ChatThenTrace(sourceId: Json, input: Json, followUps: seq<Json>)
    ensures ChatThen(sourceId, input, followUps).trace
            == [Chat(input), Send(sourceId), SaveSnapshot] + Steps(sourceId, followUps).trace
  {
  }

  /** The exchange a conversation should be: each input chatted, in order,
      its reply sent to the conversation's source, and a snapshot saved. */
  function Dialogue(inputs: seq<Json>, sourceId: Json): (trace: seq<Effect>)
    decreases |inputs|
  {
    if inputs == [] then []
    else [Chat(inputs[0]), Send(sourceId), SaveSnapshot] + Dialogue(inputs[1..], sourceId)
  }

  /** What `run` chats about: the initial message unless it is falsy or
      `end`, then the follow-ups before the first `end`. */
  function ChatInputs(initial: Json, followUps: seq<Json>): (inputs: seq<Json>) {
    if !Truthy(initial) then BeforeEnd(followUps)
    else if initial == End then []
    else [initial] + BeforeEnd(followUps)
  }

  lemma {:induction false} StepsDialogue(sourceId: Json, followUps: seq<Json>)
    ensures WithoutReads(Steps(sourceId, followUps).trace) == Dialogue(BeforeEnd(followUps), sourceId)
    decreases |followUps|
  {
    if followUps != [] && followUps[0] != End {
      var x := followUps[0];
      var rest := Steps(sourceId, followUps[1..]).trace;
      StepsDialogue(sourceId, followUps[1..]);
      var exchange := [Chat(x), Send(sourceId), SaveSnapshot];
      ChatThenTrace(sourceId, x, followUps[1..]);
      assert Steps(sourceId, followUps).trace == [ReadEvent] + exchange + rest;
      WithoutReadsAppend([ReadEvent] + exchange, rest);
      ReadThen(exchange);
      var inputs := BeforeEnd(followUps);
      assert inputs == [x] + BeforeEnd(followUps[1..]);
      assert inputs[1..] == BeforeEnd(followUps[1..]);
    } else if followUps != [] {
      assert [ReadEvent][1..] == [];
    }
  }

  lemma {:induction false} StepsEnding(sourceId: Json, followUps: seq<Json>)
    ensures Steps(sourceId, followUps).end == (if End in followUps then Returned else Blocked)
    decreases |followUps|
  {
    if followUps != [] && followUps[0] != End {
      StepsEnding(sourceId, followUps[1..]);
      assert Steps(sourceId, followUps).end == ChatThen(sourceId, followUps[0], followUps[1..]).end;
      assert End in followUps <==> End in followUps[1..] by {
        assert followUps == [followUps[0]] + followUps[1..];
      }
    }
  }

  lemma {:induction false} StepsRunEffects(sourceId: Json, followUps: seq<Json>)
    ensures OnlyRunEffects(Steps(sourceId, followUps).trace)
    decreases |followUps|
  {
    if followUps != [] && followUps[0] != End {
      var rest := Steps(sourceId, followUps[1..]).trace;
      StepsRunEffects(sourceId, followUps[1..]);
      ChatThenTrace(sourceId, followUps[0], followUps[1..]);
      var t := [ReadEvent, Chat(followUps[0]), Send(sourceId), SaveSnapshot] + rest;
      assert Steps(sourceId, followUps).trace == t;
      forall i | 0 <= i < |t| ensures RunEffect(t[i]) {
        if i >= 4 { assert t[i] == rest[i - 4]; }
      }
    }
  }

  /** Every input `run` is given, apart from an `end`, produces one chat
      call, one send of its reply to the event's source and one snapshot,
      in order. */
  lemma RunDialogue(sourceId: Json, initial: Json, followUps: seq<Json>)
    ensures WithoutReads(RunSpec(sourceId, initial, followUps).trace)
            == Dialogue(ChatInputs(initial, followUps), sourceId)
  {
    StepsDialogue(sourceId, followUps);
    if Truthy(initial) && initial != End {
      var exchange := [Chat(initial), Send(sourceId), SaveSnapshot];
      ChatThenTrace(sourceId, initial, followUps);
      WithoutReadsAppend(exchange, Steps(sourceId, followUps).trace);
      WithoutReadsKeeps(exchange);
      assert ChatInputs(initial, followUps)[1..] == BeforeEnd(followUps);
    }
  }

  /** `run` returns (True) exactly when the initial message or some
      follow-up is `end`; otherwise it waits for input forever. */
  lemma RunEnding(sourceId: Json, initial: Json, followUps: seq<Json>)
    ensures RunSpec(sourceId, initial, followUps).end == Returned <==> initial == End || End in followUps
    ensures RunSpec(sourceId, initial, followUps).end != Raised
  {
    StepsEnding(sourceId, followUps);
    if Truthy(initial) && initial != End {
      assert RunSpec(sourceId, initial, followUps) == ChatThen(sourceId, initial, followUps);
      assert ChatThen(sourceId, initial, followUps).end == Steps(sourceId, followUps).end;
    }
  }

  /** `end` as the initial message ends the run before any call. */
  lemma InitialEndReturns(sourceId: Json, followUps: seq<Json>)
    ensures RunSpec(sourceId, End, followUps) == RunResult([], Returned)
  {
  }

  /** `run` makes no call but reads, chats, sends and snapshots. */
  lemma RunRunEffects(sourceId: Json, initial: Json, followUps: seq<Json>)
    ensures OnlyRunEffects(RunSpec(sourceId, initial, followUps).trace)
  {
    StepsRunEffects(sourceId, followUps);
    ChatThenTrace(sourceId, initial, followUps);
    var rest := Steps(sourceId, followUps).trace;
    var t := [Chat(initial), Send(sourceId), SaveSnapshot] + rest;
    forall i | 0 <= i < |t| ensures RunEffect(t[i]) {
      if i >= 3 { assert t[i] == rest[i - 3]; }
    }
  }

  /** `HelloWorldWebSocketSnapshot.run`: take a follow-up whenever the input
      is empty, return on `end`, otherwise chat, send the reply to the
      event's source and save a snapshot. */
  method Run(sourceId: Json, initial: Json, followUps: seq<Json>, raiseAt: Option<nat>)
    returns (trace: seq<Effect>, end: RunEnd)
    ensures RunResult(trace, end) == Cut(RunSpec(sourceId, initial, followUps), raiseAt)
  {
    ghost var spec := RunSpec(sourceId, initial, followUps);
    ghost var remaining := spec;
    var input := initial;
    var consumed := 0;
    var raised := false;
    trace := [];
    assert followUps[consumed..] == followUps;
    while true
      invariant consumed <= |followUps|
      invariant raiseAt.Some? ==> |trace| <= raiseAt.value
      invariant spec == Then(trace, remaining)
      invariant remaining == if Truthy(input) then Decide(sourceId, input, followUps[consumed..])
                             else Steps(sourceId, followUps[consumed..])
      decreases |followUps| - consumed, if Truthy(input) then 1 else 0
    {
      if !Truthy(input) {
        if consumed == |followUps| {
          CutDone(spec, trace, remaining, raiseAt);
          return trace, Blocked;
        }
        assert followUps[consumed..][1..] == followUps[consumed + 1..];
        remaining := Decide(sourceId, followUps[consumed], followUps[consumed + 1..]);
        trace, raised := Perform(spec, trace, remaining, ReadEvent, raiseAt);  // get_workflow_event
        if raised {
          return trace, Raised;
        }
        input := followUps[consumed];
        consumed := consumed + 1;
      }
      if input == End {
        CutDone(spec, trace, remaining, raiseAt);
        return trace, Returned;
      }
      assert remaining == ChatThen(sourceId, input, followUps[consumed..]);
      remaining := Then([Send(sourceId)], Then([SaveSnapshot], Steps(sourceId, followUps[consumed..])));
      trace, raised := Perform(spec, trace, remaining, Chat(input), raiseAt);  // hello_world_chat
      if raised {
        return trace, Raised;
      }
      remaining := Then([SaveSnapshot], Steps(sourceId, followUps[consumed..]));
      trace, raised := Perform(spec, trace, remaining, Send(sourceId), raiseAt);  // ws.send
      if raised {
        return trace, Raised;
      }
      input := JStr("");
      remaining := Steps(sourceId, followUps[consumed..]);
      trace, raised := Perform(spec, trace, remaining, SaveSnapshot, raiseAt);  // save_snapshot
      if raised {
        return trace, Raised;
      }
    }
  }

  // ---------------------------------------------------------------------
  // handle_event
  // ---------------------------------------------------------------------

  /** The calls that open the handler: create and link a new instance, or
      load the snapshot of the event's instance. */
  function Opening(event: Event, newWorkflowNeeded: bool, newId: Uuid): (calls: seq<Effect>) {
    if newWorkflowNeeded then [Create(newId), Link(newId, event.sourceId)]
    else [LoadSnapshot(event.workflowInstanceId)]
  }

  /** The calls after a run that returned, in the `try` block. */
  function Success(sourceId: Json): (calls: seq<Effect>) {
    [Close(Completed), DeleteSnapshot, Unlink(sourceId)]
  }

  /** The calls in the `except` block. */
  function Failure(sourceId: Json): (calls: seq<Effect>) {
    [SaveError, Close(Failed), Unlink(sourceId)]
  }

  /** Whether one of the `Success` calls raises, when the run made `ran`
      calls. */
  predicate ClosingRaises(raiseAt: Option<nat>, ran: nat) {
    raiseAt.Some? && ran <= raiseAt.value < ran + 3
  }

  /** How many of the `Success` calls are made when the run made `ran`
      calls: all three, or up to and including the one that raises. */
  function SuccessCalls(raiseAt: Option<nat>, ran: nat): (n: nat)
    ensures 1 <= n <= 3
    ensures !ClosingRaises(raiseAt, ran) ==> n == 3
    ensures ClosingRaises(raiseAt, ran) ==> ran + n == raiseAt.value + 1
  {
    if ClosingRaises(raiseAt, ran) then raiseAt.value - ran + 1 else 3
  }

  /** `handle_event`: open the instance (a new one, or the saved one, and
      give up when it is not found), then inside a `try` take the message
      and run; on a normal return close as completed, delete the snapshot
      and unlink; on an exception report it, close as failed and unlink. An
      empty message returns from inside the `try`. `found` is whether
      `load_workflow_snapshot` finds the instance. The trace is the opening
      calls, then what `run` called, then the closing calls. */
  method HandleEvent(event: Event, newWorkflowNeeded: bool, newId: Uuid, found: bool,
                     followUps: seq<Json>, raiseAt: Option<nat>)
    returns (trace: seq<Effect>, end: HandlerEnd, ghost ran: seq<Effect>, ghost closing: seq<Effect>)
    ensures trace == Opening(event, newWorkflowNeeded, newId) + ran + closing
    ensures OnlyRunEffects(ran)
    ensures end == SnapshotMissing <==> !newWorkflowNeeded && !found
    ensures end == SnapshotMissing || end == NoInput || end == Stalled ==> closing == []
    ensures end == SnapshotMissing ==> ran == [] && trace == [LoadSnapshot(event.workflowInstanceId)]
    ensures end != SnapshotMissing ==> (end == NoInput <==> ProcessEvent(event.data) == NoMessage)
    ensures !ProcessEvent(event.data).Message? ==> ran == []
    ensures end != SnapshotMissing && ProcessEvent(event.data).MissingMessageKey? ==>
              end == Closed(Failed) && closing == Failure(event.sourceId)
    ensures end != SnapshotMissing && ProcessEvent(event.data).Message? ==>
              var run := Cut(RunSpec(event.sourceId, ProcessEvent(event.data).input, followUps), raiseAt);
              var n := SuccessCalls(raiseAt, |ran|);
              && ran == run.trace
              && (end == Stalled <==> run.end == Blocked)
              && (run.end == Raised ==> end == Closed(Failed) && closing == Failure(event.sourceId))
              && (run.end == Returned ==>
                    closing == Success(event.sourceId)[..n]
                               + (if ClosingRaises(raiseAt, |ran|) then Failure(event.sourceId) else []))
              && (end == Closed(Completed) <==> run.end == Returned && !ClosingRaises(raiseAt, |ran|))
  {
    var sourceId := event.sourceId;
    trace := Opening(event, newWorkflowNeeded, newId);
    ran, closing := [], [];
    if !newWorkflowNeeded && !found {
      return trace, SnapshotMissing, ran, closing;
    }
    var processed := ProcessEvent(event.data);
    if processed.NoMessage? {
      return trace, NoInput, ran, closing;
    }
    var raised := true;
    if processed.Message? {
      var runTrace, runEnd := Run(sourceId, processed.input, followUps, raiseAt);
      RunRunEffects(sourceId, processed.input, followUps);
      CutOnlyRunEffects(RunSpec(sourceId, processed.input, followUps), raiseAt);
      RunEnding(sourceId, processed.input, followUps);
      trace, ran := trace + runTrace, runTrace;
      if runEnd == Blocked {
        return trace, Stalled, ran, closing;
      }
      if runEnd == Returned {
        // close(completed), delete_snapshot, unlink: each may raise
        var n := SuccessCalls(raiseAt, |runTrace|);
        trace, closing := trace + Success(sourceId)[..n], Success(sourceId)[..n];
        raised := ClosingRaises(raiseAt, |runTrace|);
      }
    }
    if raised {
      trace, closing := trace + Failure(sourceId), closing + Failure(sourceId);
      end := Closed(Failed);
    } else {
      end := Closed(Completed);
    }
  }
}
