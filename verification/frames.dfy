/** What the two websocket integrations share: connections, frames, the
    admission check on a decoded frame, the event an admitted frame becomes,
    and the broadcast envelope. The JSON and UTF-8 decoders are oracles. */
module Frames {
  import opened Values

  /** A client connection. `open` is the transport's state; `Close` is the
      websocket close handshake. */
  class Conn {
    var open: bool

    constructor ()
      ensures open
    {
      open := true;
    }

    method Close()
      modifies this
      ensures !open
    {
      open := false;
    }
  }

  /** A received websocket frame. */
  datatype Frame = Text(text: string) | Binary(bytes: seq<bv8>)

  /** The text a frame carries: a text frame as it is, a binary frame decoded
      as UTF-8 by the oracle `utf8` (`None`: the bytes are not UTF-8 and the
      decode raises). */
  function FrameText(f: Frame, utf8: seq<bv8> -> Option<string>): (t: Option<string>)
    ensures f.Text? ==> t == Some(f.text)
    ensures f.Binary? ==> t == utf8(f.bytes)
  {
    match f
    case Text(t) => Some(t)
    case Binary(bytes) => utf8(bytes)
  }

  /** Why a frame was dropped, in the order the checks run. */
  datatype Drop = InvalidJson | MissingSourceId | MissingMessage

  datatype Admission = Dropped(reason: Drop) | Admitted(sourceId: Json, message: Json)

  /** The admission check on a frame's JSON decoding (`None`: not valid
      JSON): it must decode, then hold `source_id`, then hold `message`. */
  function Admit(decoded: Option<map<string, Json>>): (a: Admission)
    ensures a.Admitted? <==> decoded.Some? && "source_id" in decoded.value && "message" in decoded.value
    ensures a.Admitted? ==> a.sourceId == decoded.value["source_id"] && a.message == decoded.value["message"]
    ensures a == Dropped(InvalidJson) <==> decoded.None?
    ensures a == Dropped(MissingSourceId) <==> decoded.Some? && "source_id" !in decoded.value
    ensures a == Dropped(MissingMessage) <==>
              decoded.Some? && "source_id" in decoded.value && "message" !in decoded.value
  {
    match decoded
    case None => Dropped(InvalidJson)
    case Some(obj) =>
      if "source_id" !in obj then Dropped(MissingSourceId)
      else if "message" !in obj then Dropped(MissingMessage)
      else Admitted(obj["source_id"], obj["message"])
  }

  /** An inbound event as the ingress receives it. */
  datatype Event = Event(workflowInstanceId: Option<Uuid>, sourceId: Json, data: map<string, Json>)

  /** The event built for an admitted frame: its payload holds the message
      and nothing else. */
  function EventFor(workflowInstanceId: Option<Uuid>, sourceId: Json, message: Json): (e: Event)
    ensures e.workflowInstanceId == workflowInstanceId && e.sourceId == sourceId
    ensures e.data.Keys == {"message"} && e.data["message"] == message
  {
    Event(workflowInstanceId, sourceId, map["message" := message])
  }

  /** The JSON object the server pushes for `send(source_id, message)`;
      `json.dumps` of it is the text on the wire. */
  function Envelope(sourceId: Json, message: string): (j: Json)
    ensures j.JObj? && j.fields.Keys == {"source_id", "message"}
    ensures j.fields["source_id"] == sourceId && j.fields["message"] == JStr(message)
  {
    JObj(map["source_id" := sourceId, "message" := JStr(message)])
  }

  /** A pushed envelope, if a client sent it back, would be admitted with the
      same source id and message. */
  lemma EnvelopeIsAdmissible(sourceId: Json, message: string)
    ensures Admit(Some(Envelope(sourceId, message).fields)) == Admitted(sourceId, JStr(message))
  {
  }

  // ---------------------------------------------------------------------
  // Receiving: the frames a connection delivers, in order
  // ---------------------------------------------------------------------

  /** The texts of the frames up to the first binary frame that is not
      UTF-8, and whether such a frame stopped the receive loop. */
  datatype Received = Received(texts: seq<string>, failed: bool)

  function Decoded(frames: seq<Frame>, utf8: seq<bv8> -> Option<string>): (d: Received) {
    if frames == [] then Received([], false)
    else
      var r := Decoded(frames[..|frames| - 1], utf8);
      if r.failed then r
      else
        match FrameText(frames[|frames| - 1], utf8)
        case None => Received(r.texts, true)
        case Some(t) => Received(r.texts + [t], false)
  }

  /** The decoded texts are the texts of a prefix of the frames, and the
      loop stopped exactly at the first frame that could not be decoded. */
  lemma {:induction false} DecodedPrefix(frames: seq<Frame>, utf8: seq<bv8> -> Option<string>)
    ensures var r := Decoded(frames, utf8);
            && |r.texts| <= |frames|
            && (forall i :: 0 <= i < |r.texts| ==> FrameText(frames[i], utf8) == Some(r.texts[i]))
            && (r.failed <==> |r.texts| < |frames|)
            && (r.failed ==> FrameText(frames[|r.texts|], utf8).None?)
  {
    if frames != [] {
      var n := |frames| - 1;
      DecodedPrefix(frames[..n], utf8);
      var r := Decoded(frames[..n], utf8);
      forall i | 0 <= i < |r.texts| ensures frames[i] == frames[..n][i] {}
    }
  }

  /** Once a frame fails to decode, later frames are never looked at. */
  lemma {:induction false} DecodedStopsAtFailure(frames: seq<Frame>, i: nat, utf8: seq<bv8> -> Option<string>)
    requires i <= |frames| && Decoded(frames[..i], utf8).failed
    ensures Decoded(frames, utf8) == Decoded(frames[..i], utf8)
  {
    if i < |frames| {
      var n := |frames| - 1;
      assert frames[..n][..i] == frames[..i];
      DecodedStopsAtFailure(frames[..n], i, utf8);
    } else {
      assert frames[..i] == frames;
    }
  }

  /** A decoded prefix of the frames is a prefix of what decoding all of
      them gives. */
  lemma {:induction false} DecodedExtends(frames: seq<Frame>, i: nat, utf8: seq<bv8> -> Option<string>)
    requires i <= |frames| && !Decoded(frames[..i], utf8).failed
    ensures Decoded(frames[..i], utf8).texts <= Decoded(frames, utf8).texts
  {
    if i < |frames| {
      var n := |frames| - 1;
      assert frames[..n][..i] == frames[..i];
      DecodedExtends(frames[..n], i, utf8);
    } else {
      assert frames[..i] == frames;
    }
  }

  /** Whether `_process_message` raises on `text`: in the copy that looks the
      source id up in its registry (`lookup`), an admitted frame whose
      `source_id` is a JSON array or object, which Python cannot hash. */
  predicate LookupRaises(text: string, json: string -> Option<map<string, Json>>, lookup: bool) {
    lookup && Admit(json(text)).Admitted? && !Hashable(Admit(json(text)).sourceId)
  }

  /** The events a text adds when its processing does not raise: one for an
      admitted text, with the instance id left for the ingress to resolve,
      none for a dropped one. */
  function EventsFor(text: string, json: string -> Option<map<string, Json>>): (es: seq<Event>)
    ensures Admit(json(text)).Dropped? ==> es == []
    ensures Admit(json(text)).Admitted? ==>
              es == [EventFor(None, Admit(json(text)).sourceId, Admit(json(text)).message)]
  {
    match Admit(json(text))
    case Admitted(sourceId, message) => [EventFor(None, sourceId, message)]
    case Dropped(_) => []
  }

  /** What the receive loop enqueued, and whether an exception escaped it. */
  datatype Intake = Intake(events: seq<Event>, escaped: bool)

  /** Processing frame texts in order: the events enqueued, up to the first
      text whose processing raises. */
  function Process(texts: seq<string>, json: string -> Option<map<string, Json>>, lookup: bool): (r: Intake) {
    if texts == [] then Intake([], false)
    else
      var r0 := Process(texts[..|texts| - 1], json, lookup);
      var t := texts[|texts| - 1];
      if r0.escaped then r0
      else if LookupRaises(t, json, lookup) then Intake(r0.events, true)
      else Intake(r0.events + EventsFor(t, json), false)
  }

  /** Processing in two stretches is processing in one: the second stretch
      is reached only when the first did not raise. */
  lemma {:induction false} ProcessAppend(a: seq<string>, b: seq<string>, json: string -> Option<map<string, Json>>, lookup: bool)
    ensures var ra := Process(a, json, lookup);
            var rb := Process(b, json, lookup);
            Process(a + b, json, lookup) == if ra.escaped then ra else Intake(ra.events + rb.events, rb.escaped)
  {
    if b != [] {
      var n := |b| - 1;
      assert (a + b)[..|a + b| - 1] == a + b[..n];
      assert (a + b)[|a + b| - 1] == b[n];
      ProcessAppend(a, b[..n], json, lookup);
    } else {
      assert a + b == a;
    }
  }

  /** Processing raises exactly when some text raises. */
  lemma {:induction false} ProcessRaises(texts: seq<string>, json: string -> Option<map<string, Json>>, lookup: bool)
    ensures Process(texts, json, lookup).escaped <==>
              exists i :: 0 <= i < |texts| && LookupRaises(texts[i], json, lookup)
  {
    if texts != [] {
      var n := |texts| - 1;
      var init := texts[..n];
      ProcessRaises(init, json, lookup);
      assert forall i :: 0 <= i < n ==> init[i] == texts[i];
    }
  }

  /** When processing raises, it has enqueued the events of the texts before
      the first text that raises. */
  lemma {:induction false} ProcessRaisesAt(texts: seq<string>, json: string -> Option<map<string, Json>>, lookup: bool)
    requires Process(texts, json, lookup).escaped
    ensures exists i :: && 0 <= i < |texts| && LookupRaises(texts[i], json, lookup)
                        && !Process(texts[..i], json, lookup).escaped
                        && Process(texts, json, lookup).events == Process(texts[..i], json, lookup).events
  {
    var n := |texts| - 1;
    var init := texts[..n];
    if Process(init, json, lookup).escaped {
      ProcessRaisesAt(init, json, lookup);
      var i :| && 0 <= i < |init| && LookupRaises(init[i], json, lookup)
               && !Process(init[..i], json, lookup).escaped
               && Process(init, json, lookup).events == Process(init[..i], json, lookup).events;
      assert init[..i] == texts[..i] && texts[i] == init[i];
    } else {
      assert texts[..n] == init;
    }
  }

  /** Without the registry lookup nothing raises, and every admitted text
      enqueues its event, in order. */
  lemma {:induction false} ProcessWithoutLookup(texts: seq<string>, json: string -> Option<map<string, Json>>)
    ensures !Process(texts, json, false).escaped
    ensures texts != [] ==>
              Process(texts, json, false).events
              == Process(texts[..|texts| - 1], json, false).events + EventsFor(texts[|texts| - 1], json)
  {
    if texts != [] {
      ProcessWithoutLookup(texts[..|texts| - 1], json);
    }
  }

  /** At most one event per text; every event has no instance id, carries
      only the message, and comes from an admitted text whose processing did
      not raise. */
  lemma {:induction false} ProcessShape(texts: seq<string>, json: string -> Option<map<string, Json>>, lookup: bool)
    ensures |Process(texts, json, lookup).events| <= |texts|
    ensures forall e :: e in Process(texts, json, lookup).events ==>
              && e.workflowInstanceId == None
              && e.data.Keys == {"message"}
              && exists t :: && t in texts && !LookupRaises(t, json, lookup)
                             && Admit(json(t)) == Admitted(e.sourceId, e.data["message"])
  {
    if texts != [] {
      var init := texts[..|texts| - 1];
      var last := texts[|texts| - 1];
      ProcessShape(init, json, lookup);
      var r := Process(texts, json, lookup);
      forall e | e in r.events
        ensures exists t :: && t in texts && !LookupRaises(t, json, lookup)
                            && Admit(json(t)) == Admitted(e.sourceId, e.data["message"])
      {
        if e in Process(init, json, lookup).events {
          var t :| && t in init && !LookupRaises(t, json, lookup)
                   && Admit(json(t)) == Admitted(e.sourceId, e.data["message"]);
          assert t in texts;
        } else {
          assert last in texts;
        }
      }
    }
  }

  /** The receive loop over a connection's frames: the events of the decoded
      texts, up to the first text that raises; an exception escapes when a
      frame is not UTF-8 or a text raises. */
  function Receive(frames: seq<Frame>, utf8: seq<bv8> -> Option<string>,
                   json: string -> Option<map<string, Json>>, lookup: bool): (r: Intake)
  {
    var decoded := Decoded(frames, utf8);
    var processed := Process(decoded.texts, json, lookup);
    Intake(processed.events, decoded.failed || processed.escaped)
  }

  /** One step of the receive loop, from a decoded prefix that did not
      raise: a frame that is not UTF-8 or a text that raises ends the loop
      with the events so far; any other frame extends the prefix. */
  lemma ReceiveStep(frames: seq<Frame>, i: nat, texts: seq<string>, utf8: seq<bv8> -> Option<string>,
                    json: string -> Option<map<string, Json>>, lookup: bool)
    requires i < |frames| && Decoded(frames[..i], utf8) == Received(texts, false)
    requires !Process(texts, json, lookup).escaped
    ensures var t := FrameText(frames[i], utf8);
            && (t.None? || LookupRaises(t.value, json, lookup) ==>
                  Receive(frames, utf8, json, lookup) == Intake(Process(texts, json, lookup).events, true))
            && (t.Some? ==> Decoded(frames[..i + 1], utf8) == Received(texts + [t.value], false))
            && (t.Some? && !LookupRaises(t.value, json, lookup) ==>
                  Process(texts + [t.value], json, lookup)
                  == Intake(Process(texts, json, lookup).events + EventsFor(t.value, json), false))
  {
    var t := FrameText(frames[i], utf8);
    assert frames[..i + 1][..i] == frames[..i];
    if t.None? {
      DecodedStopsAtFailure(frames, i + 1, utf8);
    } else {
      var next := texts + [t.value];
      assert next[..|texts|] == texts;
      if LookupRaises(t.value, json, lookup) {
        DecodedExtends(frames, i + 1, utf8);
        var all := Decoded(frames, utf8).texts;
        assert all == next + all[|next|..];
        ProcessAppend(next, all[|next|..], json, lookup);
      }
    }
  }

  /** Without the registry lookup, the receive loop ends early only on a
      frame that is not UTF-8, having enqueued the event of every admitted
      text before it. */
  lemma ReceiveWithoutLookup(frames: seq<Frame>, utf8: seq<bv8> -> Option<string>,
                             json: string -> Option<map<string, Json>>)
    ensures Receive(frames, utf8, json, false).escaped == Decoded(frames, utf8).failed
    ensures |Receive(frames, utf8, json, false).events| <= |Decoded(frames, utf8).texts|
  {
    ProcessWithoutLookup(Decoded(frames, utf8).texts, json);
    ProcessShape(Decoded(frames, utf8).texts, json, false);
  }

  // ---------------------------------------------------------------------
  // Broadcasting
  // ---------------------------------------------------------------------

  /** The connections a sequence of deliveries went to. */
  function Recipients(delivered: seq<(Conn, Json)>): (rs: set<Conn>) {
    set i | 0 <= i < |delivered| :: delivered[i].0
  }

  /** One more delivery, to a connection that had none, keeps every
      recipient served once. */
  lemma RecipientsAppend(delivered: seq<(Conn, Json)>, client: Conn, envelope: Json)
    ensures Recipients(delivered + [(client, envelope)]) == Recipients(delivered) + {client}
    ensures forall clients :: DeliveredOnce(delivered, clients, envelope) && client !in clients ==>
              DeliveredOnce(delivered + [(client, envelope)], clients + {client}, envelope)
  {
    var d := delivered + [(client, envelope)];
    assert d[|delivered|].0 == client;
    forall c | c in Recipients(delivered) ensures c in Recipients(d) {
      var i :| 0 <= i < |delivered| && delivered[i].0 == c;
      assert d[i].0 == c;
    }
  }

  /** Every member of `clients` got `envelope` exactly once, and nobody else
      got anything. */
  ghost predicate DeliveredOnce(delivered: seq<(Conn, Json)>, clients: set<Conn>, envelope: Json) {
    && Recipients(delivered) == clients
    && (forall i :: 0 <= i < |delivered| ==> delivered[i].1 == envelope)
    && (forall i, j :: 0 <= i < j < |delivered| ==> delivered[i].0 != delivered[j].0)
  }

  /** A broadcast makes exactly as many deliveries as there are clients. */
  lemma {:induction false} DeliveredOnceCount(delivered: seq<(Conn, Json)>, clients: set<Conn>, envelope: Json)
    requires DeliveredOnce(delivered, clients, envelope)
    ensures |delivered| == |clients|
  {
    if delivered != [] {
      var n := |delivered| - 1;
      var last := delivered[n].0;
      var init := delivered[..n];
      assert Recipients(delivered) == Recipients(init) + {last};
      assert last !in Recipients(init);
      DeliveredOnceCount(init, Recipients(init), envelope);
    }
  }
}
