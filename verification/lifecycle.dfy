/** The per-event lifecycle of the websocket demos, as a trace of the calls
    a handler makes into the workflow engine, the ingress and the websocket
    integration. The engine, the ingress and the chat agent are not modelled:
    their answers are inputs, and an exception is the index of the call in
    the handler's `try` block that raises. A `Send` carries the response of
    the chat call just before it, which the model does not compute. */
module Lifecycle {
  import opened Values

  datatype Status = Completed | Failed

  /** One call a handler makes. */
  datatype Effect =
    | Create(id: Uuid)                    // Workflow.create
    | Link(id: Uuid, sourceId: Json)      // ws.link
    | LoadSnapshot(instance: Option<Uuid>) // load_workflow_snapshot
    | ReadEvent                           // ingress.get_workflow_event returned
    | Chat(input: Json)                   // hello_world_chat
    | Send(sourceId: Json)                // ws.send of the reply just chatted
    | SaveSnapshot                        // workflow.save_snapshot
    | SaveError                           // workflow.save_to_console(type="error")
    | Close(status: Status)               // workflow.close
    | DeleteSnapshot                      // workflow.delete_snapshot
    | Unlink(sourceId: Json)              // ws.unlink

  /** How a workflow's `run` ends: it returned (always True), a call raised,
      or it is blocked forever waiting for a follow-up event. */
  datatype RunEnd = Returned | Raised | Blocked

  datatype RunResult = RunResult(trace: seq<Effect>, end: RunEnd)

  /** `r` preceded by the calls in `prefix`. */
  function Then(prefix: seq<Effect>, r: RunResult): (joined: RunResult) {
    RunResult(prefix + r.trace, r.end)
  }

  /** The run `r` when its call number `raiseAt` (counting from 0) raises:
      the calls up to and including that one are made, then the run ends. */
  function Cut(r: RunResult, raiseAt: Option<nat>): (c: RunResult)
    ensures c.trace <= r.trace
    ensures c.end == Raised <==> (raiseAt.Some? && raiseAt.value < |r.trace|) || r.end == Raised
    ensures raiseAt.Some? && raiseAt.value < |r.trace| ==> |c.trace| == raiseAt.value + 1
    ensures !(raiseAt.Some? && raiseAt.value < |r.trace|) ==> c == r
  {
    if raiseAt.Some? && raiseAt.value < |r.trace| then RunResult(r.trace[..raiseAt.value + 1], Raised)
    else r
  }

  /** Make `call`, the next call of the run `spec` once `done` is made;
      `raised` when it is call number `raiseAt`, which then ends the run. */
  method Perform(ghost spec: RunResult, done: seq<Effect>, ghost next: RunResult, call: Effect, raiseAt: Option<nat>)
    returns (done': seq<Effect>, raised: bool)
    requires spec == Then(done, Then([call], next))
    requires raiseAt.Some? ==> |done| <= raiseAt.value
    ensures done' == done + [call] && spec == Then(done', next)
    ensures raised <==> raiseAt == Some(|done|)
    ensures raised ==> Cut(spec, raiseAt) == RunResult(done', Raised)
    ensures !raised && raiseAt.Some? ==> |done'| <= raiseAt.value
  {
    done' := done + [call];
    assert done + ([call] + next.trace) == done' + next.trace;
    raised := raiseAt.Some? && raiseAt.value == |done|;
    if raised {
      assert spec.trace[..|done'|] == done';
    }
  }

  /** A run with nothing pending, whose raising call was never reached. */
  lemma CutDone(spec: RunResult, done: seq<Effect>, rest: RunResult, raiseAt: Option<nat>)
    requires spec == Then(done, rest) && rest.trace == []
    requires raiseAt.None? || raiseAt.value >= |done|
    ensures Cut(spec, raiseAt) == RunResult(done, rest.end)
  {
    assert done + [] == done;
  }

  /** The calls a `run` loop makes: it never closes, unlinks or reports. */
  predicate RunEffect(e: Effect) {
    e.ReadEvent? || e.Chat? || e.Send? || e.SaveSnapshot?
  }

  predicate OnlyRunEffects(t: seq<Effect>) {
    forall i :: 0 <= i < |t| ==> RunEffect(t[i])
  }

  /** A run cut short makes no call the whole run would not make. */
  lemma CutOnlyRunEffects(r: RunResult, raiseAt: Option<nat>)
    requires OnlyRunEffects(r.trace)
    ensures OnlyRunEffects(Cut(r, raiseAt).trace)
  {
    var c := Cut(r, raiseAt).trace;
    forall i | 0 <= i < |c| ensures RunEffect(c[i]) {
      assert c[i] == r.trace[i];
    }
  }

  /** What `process_event` finds in an event's payload: no `message` key
      (indexing raises KeyError), a falsy message (it returns None), or the
      input message. */
  datatype Processed = MissingMessageKey | NoMessage | Message(input: Json)

  function ProcessEvent(data: map<string, Json>): (p: Processed)
    ensures p == MissingMessageKey <==> "message" !in data
    ensures p == NoMessage <==> "message" in data && !Truthy(data["message"])
    ensures p.Message? ==> p.input == data["message"] && Truthy(p.input)
  {
    if "message" !in data then MissingMessageKey
    else if Truthy(data["message"]) then Message(data["message"])
    else NoMessage
  }

  /** How `handle_event` ends: the snapshot to resume was not found, the
      event had no message, the run is blocked waiting for input, or the
      workflow was closed with a status and the source unlinked. */
  datatype HandlerEnd = SnapshotMissing | NoInput | Stalled | Closed(status: Status)

  /** The trace without the follow-up reads. */
  function WithoutReads(t: seq<Effect>): (kept: seq<Effect>) {
    if t == [] then [] else (if t[0] == ReadEvent then [] else [t[0]]) + WithoutReads(t[1..])
  }

  lemma {:induction false} WithoutReadsAppend(a: seq<Effect>, b: seq<Effect>)
    ensures WithoutReads(a + b) == WithoutReads(a) + WithoutReads(b)
  {
    if a != [] {
      assert (a + b)[1..] == a[1..] + b;
      WithoutReadsAppend(a[1..], b);
    } else {
      assert a + b == b;
    }
  }

  /** A trace with no follow-up reads is its own read-free trace. */
  lemma {:induction false} WithoutReadsKeeps(t: seq<Effect>)
    requires ReadEvent !in t
    ensures WithoutReads(t) == t
  {
    if t != [] {
      assert t[0] in t;
      assert forall e :: e in t[1..] ==> e in t;
      WithoutReadsKeeps(t[1..]);
      assert [t[0]] + t[1..] == t;
    }
  }

  /** A read followed by calls that are not reads leaves those calls. */
  lemma ReadThen(t: seq<Effect>)
    requires ReadEvent !in t
    ensures WithoutReads([ReadEvent] + t) == t
  {
    assert ([ReadEvent] + t)[1..] == t;
    WithoutReadsKeeps(t);
  }

  /** The follow-up messages before the first `end`. */
  function BeforeEnd(followUps: seq<Json>): (before: seq<Json>) {
    if followUps == [] then []
    else if followUps[0] == End then []
    else [followUps[0]] + BeforeEnd(followUps[1..])
  }

  /** `BeforeEnd` is the longest prefix without `end`: it stops at the first
      `end`, or takes everything when there is none. */
  lemma {:induction false} BeforeEndPrefix(followUps: seq<Json>)
    ensures var r := BeforeEnd(followUps);
            && |r| <= |followUps| && r == followUps[..|r|] && End !in r
            && (|r| < |followUps| <==> End in followUps)
            && (|r| < |followUps| ==> followUps[|r|] == End)
  {
    if followUps != [] && followUps[0] != End {
      BeforeEndPrefix(followUps[1..]);
      assert followUps == [followUps[0]] + followUps[1..];
    }
  }
}
