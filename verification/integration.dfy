/** `GenericWebSocketIntegration`, the websocket server both demos use.
    The two copies differ in `_registry`: the first keeps one (it starts
    empty and nothing writes it) and looks each admitted frame's `source_id`
    up in it, which raises for a `source_id` Python cannot hash; the second
    has none and leaves the instance id unset. One class models both, with
    `hasRegistry` telling them apart. The ingress is recorded, not modelled:
    `inbox` is what `add_event` received and `registrations` the calls to
    `register_source`/`unregister_source`. */
module WebSocketIntegration {
  import opened Values
  import opened Frames

  /** A call into the ingress's source registry. */
  datatype IngressCall = RegisterSource(sourceId: Json, id: Uuid) | UnregisterSource(sourceId: Json)

  /** The result of `dict.get`: the value found (`None` when the key is
      absent), or the `TypeError` raised for a key that cannot be hashed. */
  datatype Lookup = Found(id: Option<Uuid>) | Unhashable

  /** `dict.get` on the registry. */
  function Get(m: map<Json, Uuid>, key: Json): (r: Lookup)
    ensures r == Unhashable <==> !Hashable(key)
    ensures r.Found? ==> (r.id.Some? <==> key in m)
    ensures r.Found? && r.id.Some? ==> r.id.value == m[key]
  {
    if !Hashable(key) then Unhashable
    else if key in m then Found(Some(m[key]))
    else Found(None)
  }

  class Integration {
    const url: string
    const port: int
    /** Whether this copy keeps `_registry` and looks source ids up in it. */
    const hasRegistry: bool
    /** source id -> workflow instance id; nothing ever adds to it. */
    const registry: map<Json, Uuid> := map[]
    var clients: set<Conn>
    /** The events handed to `ingress.add_event`, in order. */
    var inbox: seq<Event>
    /** Every `client.send(payload)` that went out, in order. */
    var sent: seq<(Conn, Json)>
    /** Every `register_source`/`unregister_source` call, in order. */
    var registrations: seq<IngressCall>

    constructor (url: string, port: int, hasRegistry: bool)
      ensures this.url == url && this.port == port && this.hasRegistry == hasRegistry
      ensures clients == {} && inbox == [] && sent == [] && registrations == []
    {
      this.url := url;
      this.port := port;
      this.hasRegistry := hasRegistry;
      clients := {};
      inbox := [];
      sent := [];
      registrations := [];
    }

    /** Broadcast `{"source_id": sourceId, "message": message}`. */
    method Send(sourceId: Json, message: string) returns (raised: bool)
      modifies this`sent
      ensures |old(sent)| <= |sent| && sent[..|old(sent)|] == old(sent)
      ensures raised <==> exists c :: c in clients && !c.open
      ensures var d := sent[|old(sent)|..];
              && DeliveredOnce(d, Recipients(d), Envelope(sourceId, message))
              && Recipients(d) <= clients
              && (forall c :: c in Recipients(d) ==> c.open)
              && (!raised ==> Recipients(d) == clients)
    {
      raised := SendEventToClients(Envelope(sourceId, message));
    }

    /** Send `event` to every connected client, one at a time, in the set's
        iteration order; sending to a closed connection raises
        `ConnectionClosed`, which ends the broadcast. */
    method SendEventToClients(event: Json) returns (raised: bool)
      modifies this`sent
      ensures |old(sent)| <= |sent| && sent[..|old(sent)|] == old(sent)
      ensures raised <==> exists c :: c in clients && !c.open
      ensures var d := sent[|old(sent)|..];
              && DeliveredOnce(d, Recipients(d), event)
              && Recipients(d) <= clients
              && (forall c :: c in Recipients(d) ==> c.open)
              && (!raised ==> Recipients(d) == clients)
    {
      var pending := clients;
      ghost var start := |sent|;
      while pending != {}
        invariant pending <= clients
        invariant start <= |sent| && sent[..start] == old(sent)
        invariant DeliveredOnce(sent[start..], clients - pending, event)
        invariant forall c :: c in clients - pending ==> c.open
        decreases |pending|
      {
        var client :| client in pending;
        if !client.open {
          return true;
        }
        ghost var before := sent[start..];
        RecipientsAppend(before, client, event);
        sent := sent + [(client, event)];
        assert sent[start..] == before + [(client, event)];
        pending := pending - {client};
      }
      return false;
    }

    /** Decode one frame's text, check it, look its source up when this copy
        has a registry, and enqueue its event. `raised` is the `TypeError`
        of a lookup with a source id Python cannot hash. */
    method ProcessMessage(text: string, json: string -> Option<map<string, Json>>)
      returns (raised: bool)
      modifies this`inbox
      ensures raised == LookupRaises(text, json, hasRegistry)
      ensures raised ==> inbox == old(inbox)
      ensures !raised ==> inbox == old(inbox) + EventsFor(text, json)
    {
      var admission := Admit(json(text));
      if admission.Dropped? {
        return false;
      }
      var sourceId := admission.sourceId;
      var id: Option<Uuid> := None;
      if hasRegistry {
        var found := Get(registry, sourceId);
        if found.Unhashable? {
          return true;
        }
        id := found.id;
      }
      inbox := inbox + [EventFor(id, sourceId, admission.message)];
      return false;
    }

    /** Process a connection's frames in order. `escaped` is true when a
        binary frame is not UTF-8 or processing a text raises: the error is
        not the `ConnectionClosedError` the loop catches, so it ends the loop
        and escapes. */
    method ReceiveMessages(frames: seq<Frame>, utf8: seq<bv8> -> Option<string>,
                           json: string -> Option<map<string, Json>>)
      returns (escaped: bool)
      modifies this`inbox
      ensures escaped == Receive(frames, utf8, json, hasRegistry).escaped
      ensures inbox == old(inbox) + Receive(frames, utf8, json, hasRegistry).events
    {
      ghost var texts: seq<string> := [];
      var i := 0;
      while i < |frames|
        invariant 0 <= i <= |frames|
        invariant Decoded(frames[..i], utf8) == Received(texts, false)
        invariant !Process(texts, json, hasRegistry).escaped
        invariant inbox == old(inbox) + Process(texts, json, hasRegistry).events
      {
        var text := FrameText(frames[i], utf8);
        ReceiveStep(frames, i, texts, utf8, json, hasRegistry);
        if text.None? {
          return true;
        }
        var raised := ProcessMessage(text.value, json);
        if raised {
          return true;
        }
        texts := texts + [text.value];
        i := i + 1;
      }
      assert frames[..i] == frames;
      return false;
    }

    /** Close `conn` if it is still open and forget it. */
    method CloseConnection(conn: Conn)
      requires conn in clients
      modifies this`clients, conn
      ensures clients == old(clients) - {conn}
      ensures !conn.open
    {
      if conn.open {
        conn.Close();
      }
      clients := clients - {conn};
    }

    /** The per-connection handler, as written: when the receive loop ends
        with an exception, it escapes before `_close_connection`, so the
        connection stays in `clients`. */
    method Handler(conn: Conn, frames: seq<Frame>, utf8: seq<bv8> -> Option<string>,
                   json: string -> Option<map<string, Json>>)
      returns (failed: bool)
      modifies this`clients, this`inbox, conn
      ensures failed == Receive(frames, utf8, json, hasRegistry).escaped
      ensures inbox == old(inbox) + Receive(frames, utf8, json, hasRegistry).events
      ensures !failed ==> clients == old(clients) - {conn} && !conn.open
      ensures failed ==> clients == old(clients) + {conn} && conn.open == old(conn.open)
    {
      clients := clients + {conn};
      failed := ReceiveMessages(frames, utf8, json);
      if failed {
        return;
      }
      CloseConnection(conn);
    }

    /** The handler with its clean-up in a `finally`: whatever the frames, the
        connection is closed and removed when the handler ends. */
    method HandlerWithCleanup(conn: Conn, frames: seq<Frame>, utf8: seq<bv8> -> Option<string>,
                              json: string -> Option<map<string, Json>>)
      returns (failed: bool)
      modifies this`clients, this`inbox, conn
      ensures failed == Receive(frames, utf8, json, hasRegistry).escaped
      ensures inbox == old(inbox) + Receive(frames, utf8, json, hasRegistry).events
      ensures clients == old(clients) - {conn} && !conn.open
    {
      clients := clients + {conn};
      failed := ReceiveMessages(frames, utf8, json);
      CloseConnection(conn);
    }

    /** Ask the ingress to route `sourceId` to instance `id`. */
    method Link(id: Uuid, sourceId: Json)
      modifies this`registrations
      ensures registrations == old(registrations) + [RegisterSource(sourceId, id)]
    {
      registrations := registrations + [RegisterSource(sourceId, id)];
    }

    /** Ask the ingress to stop routing `sourceId`. */
    method Unlink(sourceId: Json)
      modifies this`registrations
      ensures registrations == old(registrations) + [UnregisterSource(sourceId)]
    {
      registrations := registrations + [UnregisterSource(sourceId)];
    }
  }

  /** A connection whose only frame is the byte 0xFF, which is never valid
      UTF-8: its handler raises without removing it, the server then closes
      the connection, and the next broadcast raises at it and delivers
      nothing. */
  method StaleClientAfterBadFrame(utf8: seq<bv8> -> Option<string>, json: string -> Option<map<string, Json>>)
    returns (ws: Integration, conn: Conn, raised: bool)
    requires utf8([0xFF]) == None
    ensures conn in ws.clients && !conn.open
    ensures raised && ws.sent == []
  {
    ws := new Integration("localhost", 5678, false);
    conn := new Conn();
    assert Decoded([Binary([0xFF])], utf8).failed by {
      assert [Binary([0xFF])][..0] == [];
    }
    var failed := ws.Handler(conn, [Binary([0xFF])], utf8, json);
    conn.Close();  // the server closes a connection whose handler raised
    raised := ws.Send(JStr("s"), "hi");
    DeliveredOnceCount(ws.sent, {}, Envelope(JStr("s"), "hi"));
  }

  /** The frame `{"source_id": [1], "message": "hi"}`: with the registry
      lookup its processing raises before anything is enqueued; without it
      the frame's event is enqueued. */
  lemma UnhashableSourceFrame(utf8: seq<bv8> -> Option<string>, json: string -> Option<map<string, Json>>)
    requires json("x") == Some(map["source_id" := JArr([JNum(1)]), "message" := JStr("hi")])
    ensures Receive([Text("x")], utf8, json, true) == Intake([], true)
    ensures Receive([Text("x")], utf8, json, false) == Intake([EventFor(None, JArr([JNum(1)]), JStr("hi"))], false)
  {
    var frames := [Text("x")];
    assert frames[..0] == [];
    assert Decoded(frames, utf8) == Received(["x"], false);
    assert ["x"][..0] == [];
    assert Admit(json("x")) == Admitted(JArr([JNum(1)]), JStr("hi"));
    assert Process(["x"], json, true) == Intake([], true);
  }

  /** A connection whose only frame is `{"source_id": [1], "message": "hi"}`:
      the copy with a registry raises at the lookup, enqueues nothing and
      leaves the connection in `clients`; the copy without one enqueues the
      event and removes the connection. */
  method StaleClientAfterUnhashableSource(utf8: seq<bv8> -> Option<string>, json: string -> Option<map<string, Json>>)
    returns (keyed: Integration, conn: Conn, plain: Integration, conn': Conn)
    requires json("x") == Some(map["source_id" := JArr([JNum(1)]), "message" := JStr("hi")])
    ensures conn in keyed.clients && keyed.inbox == []
    ensures conn' !in plain.clients
    ensures plain.inbox == [EventFor(None, JArr([JNum(1)]), JStr("hi"))]
  {
    UnhashableSourceFrame(utf8, json);
    keyed := new Integration("localhost", 5678, true);
    conn := new Conn();
    var failed := keyed.Handler(conn, [Text("x")], utf8, json);
    plain := new Integration("localhost", 5678, false);
    conn' := new Conn();
    failed := plain.Handler(conn', [Text("x")], utf8, json);
  }
}
