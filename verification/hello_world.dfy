/** `HelloWorldWebSocket.run` and `handle_event` of the plain websocket demo:
    one workflow instance per start event, chatting until a follow-up says
    `end`. The follow-up messages are `followUps`, and
    `raiseAt` is the index of the call in the `try` block that raises. */
module HelloWorld {
  import opened Values
  import opened Frames
  import opened Lifecycle

  // ---------------------------------------------------------------------
  // run
  // ---------------------------------------------------------------------

  /** The run from the point where it waits for a follow-up. */
  function Steps(sourceId: Json, followUps: seq<Json>): (spec: RunResult)
    decreases |followUps|, 0
  {
    if followUps == [] then RunResult([], Blocked)
    else Then([ReadEvent], Decide(sourceId, followUps[0], followUps[1..]))
  }

  /** The run once a follow-up is read: `end` returns, anything else is
      chatted. */
  function Decide(sourceId: Json, input: Json, followUps: seq<Json>): (spec: RunResult)
    decreases |followUps|, 2
  {
    if input == End then RunResult([], Returned) else ChatThen(sourceId, input, followUps)
  }

  /** A chat about `input` and the send of its reply, then the wait for
      `followUps`. */
  function ChatThen(sourceId: Json, input: Json, followUps: seq<Json>): (spec: RunResult)
    decreases |followUps|, 1
  {
    Then([Chat(input)], Then([Send(sourceId)], Steps(sourceId, followUps)))
  }

  /** The calls `run` makes when nothing raises. A truthy initial message is
      chatted at once, even when it is `end`. */
  function RunSpec(sourceId: Json, initial: Json, followUps: seq<Json>): (spec: RunResult) {
    if Truthy(initial) then ChatThen(sourceId, initial, followUps)
    else Steps(sourceId, followUps)
  }

  /** The calls of one exchange. */
  lemma ChatThenTrace(sourceId: Json, input: Json, followUps: seq<Json>)
    ensures ChatThen(sourceId, input, followUps).trace
            == [Chat(input), Send(sourceId)] + Steps(sourceId, followUps).trace
  {
  }

  /** The exchange a conversation should be: each input chatted, in order,
      and its reply sent to the conversation's source. */
  function Dialogue(inputs: seq<Json>, sourceId: Json): (trace: seq<Effect>)
    decreases |inputs|
  {
    if inputs == [] then []
    else [Chat(inputs[0]), Send(sourceId)] + Dialogue(inputs[1..], sourceId)
  }

  /** What `run` chats about: a truthy initial message, then the follow-ups
      before the first `end`. */
  function ChatInputs(initial: Json, followUps: seq<Json>): (inputs: seq<Json>) {
    (if Truthy(initial) then [initial] else []) + BeforeEnd(followUps)
  }

  lemma {:induction false} StepsDialogue(sourceId: Json, followUps: seq<Json>)
    ensures WithoutReads(Steps(sourceId, followUps).trace) == Dialogue(BeforeEnd(followUps), sourceId)
    decreases |followUps|
  {
    if followUps != [] && followUps[0] != End {
      var x := followUps[0];
      var rest := Steps(sourceId, followUps[1..]).trace;
      StepsDialogue(sourceId, followUps[1..]);
      var exchange := [Chat(x), Send(sourceId)];
      ChatThenTrace(sourceId, x, followUps[1..]);
      assert Steps(sourceId, followUps).trace == [ReadEvent] + exchange + rest;
      WithoutReadsAppend([ReadEvent] + exchange, rest);
      ReadThen(exchange);
      var inputs := BeforeEnd(followUps);
      assert inputs == [x] + BeforeEnd(followUps[1..]);
      assert inputs[1..] == BeforeEnd(followUps[1..]);
    } else if followUps != [] {
      assert [ReadEvent][1..] == [];
    }
  }

  lemma {:induction false} StepsEnding(sourceId: Json, followUps: seq<Json>)
    ensures Steps(sourceId, followUps).end == (if End in followUps then Returned else Blocked)
    decreases |followUps|
  {
    if followUps != [] && followUps[0] != End {
      StepsEnding(sourceId, followUps[1..]);
      assert Steps(sourceId, followUps).end == ChatThen(sourceId, followUps[0], followUps[1..]).end;
      assert End in followUps <==> End in followUps[1..] by {
        assert followUps == [followUps[0]] + followUps[1..];
      }
    }
  }

  lemma {:induction false} StepsRunEffects(sourceId: Json, followUps: seq<Json>)
    ensures OnlyRunEffects(Steps(sourceId, followUps).trace)
    decreases |followUps|
  {
    if followUps != [] && followUps[0] != End {
      var rest := Steps(sourceId, followUps[1..]).trace;
      StepsRunEffects(sourceId, followUps[1..]);
      ChatThenTrace(sourceId, followUps[0], followUps[1..]);
      var t := [ReadEvent, Chat(followUps[0]), Send(sourceId)] + rest;
      assert Steps(sourceId, followUps).trace == t;
      forall i | 0 <= i < |t| ensures RunEffect(t[i]) {
        if i >= 3 { assert t[i] == rest[i - 3]; }
      }
    } else if followUps != [] {
      assert Steps(sourceId, followUps).trace == [ReadEvent];
    }
  }

  /** Every input `run` is given, apart from the ending `end`, produces one
      chat call and one send of its reply to the event's source, in order. */
  lemma RunDialogue(sourceId: Json, initial: Json, followUps: seq<Json>)
    ensures WithoutReads(RunSpec(sourceId, initial, followUps).trace)
            == Dialogue(ChatInputs(initial, followUps), sourceId)
  {
    StepsDialogue(sourceId, followUps);
    if Truthy(initial) {
      ChatThenTrace(sourceId, initial, followUps);
      var head := [Chat(initial), Send(sourceId)];
      WithoutReadsAppend(head, Steps(sourceId, followUps).trace);
      WithoutReadsKeeps(head);
      assert ChatInputs(initial, followUps)[1..] == BeforeEnd(followUps);
    } else {
      assert ChatInputs(initial, followUps) == BeforeEnd(followUps);
    }
  }

  /** `run` returns (True) exactly when some follow-up is `end`; otherwise
      it waits for input forever. */
  lemma RunEnding(sourceId: Json, initial: Json, followUps: seq<Json>)
    ensures RunSpec(sourceId, initial, followUps).end == Returned <==> End in followUps
    ensures RunSpec(sourceId, initial, followUps).end != Raised
  {
    StepsEnding(sourceId, followUps);
  }

  /** `run` makes no call but reads, chats, sends and snapshots. */
  lemma RunRunEffects(sourceId: Json, initial: Json, followUps: seq<Json>)
    ensures OnlyRunEffects(RunSpec(sourceId, initial, followUps).trace)
  {
    StepsRunEffects(sourceId, followUps);
    ChatThenTrace(sourceId, initial, followUps);
    var rest := Steps(sourceId, followUps).trace;
    var t := [Chat(initial), Send(sourceId)] + rest;
    forall i | 0 <= i < |t| ensures RunEffect(t[i]) {
      if i >= 2 { assert t[i] == rest[i - 2]; }
    }
  }

  /** `end` as the initial message is chatted like any other; it does not
      end the run. */
  lemma InitialEndIsChatted(sourceId: Json, followUps: seq<Json>)
    ensures RunSpec(sourceId, End, followUps).trace[..2] == [Chat(End), Send(sourceId)]
    ensures RunSpec(sourceId, End, followUps).end == Returned <==> End in followUps
  {
    RunEnding(sourceId, End, followUps);
  }

  /** `HelloWorldWebSocket.run`: chat about `initial` if it is truthy, then
      read follow-ups until one is `end`, chatting about each and sending the
      reply to the event's source. */
  method Run(sourceId: Json, initial: Json, followUps: seq<Json>, raiseAt: Option<nat>)
    returns (trace: seq<Effect>, end: RunEnd)
    ensures RunResult(trace, end) == Cut(RunSpec(sourceId, initial, followUps), raiseAt)
  {
    ghost var spec := RunSpec(sourceId, initial, followUps);
    ghost var remaining := spec;
    var input := initial;
    var consumed := 0;
    var raised := false;
    trace := [];
    assert followUps[consumed..] == followUps;
    while true
      invariant consumed <= |followUps|
      invariant raiseAt.Some? ==> |trace| <= raiseAt.value
      invariant spec == Then(trace, remaining)
      invariant remaining == if Truthy(input) then ChatThen(sourceId, input, followUps[consumed..])
                             else Steps(sourceId, followUps[consumed..])
      decreases |followUps| - consumed, if Truthy(input) then 1 else 0
    {
      if !Truthy(input) {
        if consumed == |followUps| {
          CutDone(spec, trace, remaining, raiseAt);
          return trace, Blocked;
        }
        assert followUps[consumed..][1..] == followUps[consumed + 1..];
        remaining := Decide(sourceId, followUps[consumed], followUps[consumed + 1..]);
        trace, raised := Perform(spec, trace, remaining, ReadEvent, raiseAt);  // get_workflow_event
        if raised {
          return trace, Raised;
        }
        input := followUps[consumed];
        consumed := consumed + 1;
        if input == End {
          CutDone(spec, trace, remaining, raiseAt);
          return trace, Returned;
        }
      }
      assert remaining == ChatThen(sourceId, input, followUps[consumed..]);
      remaining := Then([Send(sourceId)], Steps(sourceId, followUps[consumed..]));
      trace, raised := Perform(spec, trace, remaining, Chat(input), raiseAt);  // hello_world_chat
      if raised {
        return trace, Raised;
      }
      remaining := Steps(sourceId, followUps[consumed..]);
      trace, raised := Perform(spec, trace, remaining, Send(sourceId), raiseAt);  // ws.send
      if raised {
        return trace, Raised;
      }
      input := JStr("");
    }
  }

  // ---------------------------------------------------------------------
  // handle_event
  // ---------------------------------------------------------------------

  /** `handle_event`: create an instance (`newId`), link it to the event's
      source, then inside a `try` take the message and run; on a normal
      return close as completed, on an exception report it and close as
      failed; then unlink. An empty message returns from inside the `try`.
      The trace is the creation and link, then what `run` called, then the
      closing calls. */
  method HandleEvent(event: Event, newId: Uuid, followUps: seq<Json>, raiseAt: Option<nat>)
    returns (trace: seq<Effect>, end: HandlerEnd, ghost ran: seq<Effect>, ghost closing: seq<Effect>)
    ensures trace == [Create(newId), Link(newId, event.sourceId)] + ran + closing
    ensures OnlyRunEffects(ran)
    ensures end != SnapshotMissing
    ensures end == NoInput <==> ProcessEvent(event.data) == NoMessage
    ensures !ProcessEvent(event.data).Message? ==> ran == []
    ensures ProcessEvent(event.data).Message? ==>
              var run := Cut(RunSpec(event.sourceId, ProcessEvent(event.data).input, followUps), raiseAt);
              && ran == run.trace
              && (end == Stalled <==> run.end == Blocked)
              && (end == Closed(Completed) <==> run.end == Returned && raiseAt != Some(|ran|))
    ensures end == NoInput || end == Stalled ==> closing == []
    ensures end == Closed(Completed) ==> closing == [Close(Completed), Unlink(event.sourceId)]
    ensures end == Closed(Failed) ==>
              || closing == [SaveError, Close(Failed), Unlink(event.sourceId)]
              || closing == [Close(Completed), SaveError, Close(Failed), Unlink(event.sourceId)]
    ensures ProcessEvent(event.data).MissingMessageKey? ==>
              end == Closed(Failed) && closing == [SaveError, Close(Failed), Unlink(event.sourceId)]
    ensures ProcessEvent(event.data).Message? ==>
              var run := Cut(RunSpec(event.sourceId, ProcessEvent(event.data).input, followUps), raiseAt);
              && (run.end == Raised ==>
                    end == Closed(Failed) && closing == [SaveError, Close(Failed), Unlink(event.sourceId)])
              && (run.end == Returned && raiseAt != Some(|run.trace|) ==>
                    end == Closed(Completed) && closing == [Close(Completed), Unlink(event.sourceId)])
              && (run.end == Returned && raiseAt == Some(|run.trace|) ==>
                    && end == Closed(Failed)
                    && closing == [Close(Completed), SaveError, Close(Failed), Unlink(event.sourceId)])
  {
    var sourceId := event.sourceId;
    trace := [Create(newId), Link(newId, sourceId)];
    ran, closing := [], [];
    var processed := ProcessEvent(event.data);
    if processed.NoMessage? {
      return trace, NoInput, ran, closing;
    }
    var raised := true;
    if processed.Message? {
      var runTrace, runEnd := Run(sourceId, processed.input, followUps, raiseAt);
      RunRunEffects(sourceId, processed.input, followUps);
      CutOnlyRunEffects(RunSpec(sourceId, processed.input, followUps), raiseAt);
      RunEnding(sourceId, processed.input, followUps);
      trace, ran := trace + runTrace, runTrace;
      if runEnd == Blocked {
        return trace, Stalled, ran, closing;
      }
      if runEnd == Returned {
        trace, closing := trace + [Close(Completed)], [Close(Completed)];
        raised := raiseAt == Some(|runTrace|);
      }
    }
    if raised {
      trace, closing := trace + [SaveError, Close(Failed)], closing + [SaveError, Close(Failed)];
      end := Closed(Failed);
    } else {
      end := Closed(Completed);
    }
    trace, closing := trace + [Unlink(sourceId)], closing + [Unlink(sourceId)];
  }
}
