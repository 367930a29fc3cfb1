# workforce-specs: secret loading and the websocket demos, in Dafny

This project models three pieces of the repository's own logic.

- **The secret loader's `parse_and_export_yaml`** (`Secrets`). It makes an
  optional pass over the top-level scalars of a parsed YAML mapping. It then
  makes a line pass over the same text: each line is stripped, comments,
  empty lines and lines without `:` are skipped, the line is split at its
  first `:`, and a pair is kept only when both halves are non-empty after
  stripping. Every exported pair is written to the process environment,
  which is modelled as the `environ` field of a `Process` object. Writing
  a pair raises when the key is empty or holds `=`, or either half holds a
  NUL (`EnvWrite`). The line pass catches that `ValueError` and skips the
  line. Nothing in the mapping pass catches it, so the whole call raises
  after the pairs already written. The result of `yaml.safe_load` is an
  input (`YamlParse`).
- **`GenericWebSocketIntegration`** (`Frames` and `WebSocketIntegration`).
  - A set of connected clients, added when a connection opens and removed
    when it closes.
  - The admission check on a received frame, and the single event an
    admitted frame becomes.
  - The broadcast `send`, which writes one envelope to every client and
    raises at a client whose connection is closed.

  Three things are recorded rather than modelled: the events handed to the
  ingress, the calls to its source registry, and every delivery. JSON and
  UTF-8 decoding are function parameters (oracles).
- **The per-event lifecycle of both websocket demos** (`Lifecycle`,
  `HelloWorld`, `HelloWorldSnapshots`). `handle_event` and the workflow's
  `run` loop are methods that return the trace of calls they make:
  - create or load an instance;
  - link it;
  - read follow-up events;
  - chat, send the reply, and save a snapshot;
  - close the instance, delete its snapshot, and unlink.

  The follow-up messages are an input sequence. An exception is the index
  (`raiseAt`) of the call in the `try` block that raises. Each method is
  proved equal to a specification function, and lemmas state what that
  function does: which inputs are chatted, in what order, when the run
  returns, and which closing calls follow in each case.

Both websocket files contain their own copy of `GenericWebSocketIntegration`.
The copies differ in `_registry`. The first file keeps one, starts it
empty and never writes it, and looks up every admitted frame's `source_id`
in it. That lookup yields `None` for a `source_id` Python can hash. It
raises `TypeError` for a JSON array or object. The second file has no
registry and sets the instance id to `None` directly. One class,
`WebSocketIntegration.Integration`, models both copies, and its
`hasRegistry` field tells them apart. `process_event` is identical in both files and is
modelled once, as `Lifecycle.ProcessEvent`.

## Model

| member | source | states |
|---|---|---|
| Secrets.Strip | load_secrets.py:49 | the stripped line neither starts nor ends with a character for which `str.isspace` holds |
| Secrets.StripSlice | load_secrets.py:55-56 | stripping removes only whitespace, and only at the two ends: the result is a contiguous slice of the input |
| Secrets.StripIdempotent | load_secrets.py:55-56 | stripping a half of an already stripped line a second time changes nothing |
| Secrets.IndexOf | load_secrets.py:54 | `split(":", 1)` cuts at the first `:`, so the key holds no `:`; a `:` is present, so the split always yields two parts, and the `ValueError` the handler catches can only come from the environment write |
| Secrets.SplitLines | load_secrets.py:48 | `split("\n")` always yields at least one piece |
| Secrets.SplitLinesNoNewline | load_secrets.py:48 | no piece of `split("\n")` holds a newline |
| Secrets.JoinSplit | load_secrets.py:48 | joining the pieces with newlines gives back the text |
| Secrets.SplitJoin | load_secrets.py:48 | splitting the newline-join of newline-free lines gives back the lines |
| Secrets.EnvWrite | load_secrets.py:58 | writing a key and value to the environment succeeds exactly when the key is non-empty and has no `=` and neither half has a NUL; an empty key (with no NUL in the value) is the only `OSError`, every other failure a `ValueError` |
| Secrets.ParseLine | load_secrets.py:49-57 | an empty, comment or colon-free line gives no pair; a pair read from a line has a non-empty key and a non-empty value |
| Secrets.ParseLineShape | load_secrets.py:49-57 | a pair read from a line has a non-empty key without `:` that does not start with `#`, and a non-empty value; both are already stripped |
| Secrets.LineEntry | load_secrets.py:58-64 | a line contributes its parsed pair exactly when the environment accepts that pair; otherwise the write's `ValueError` is caught and the line contributes nothing |
| Secrets.LineWriteErrorIsCaught | load_secrets.py:58-64 | a pair from the line pass never has an empty key, so its write raises nothing or a `ValueError`, never the `OSError` the `except` clause would miss |
| Secrets.ParsedLinesAt | load_secrets.py:48-64 | the line pass's i-th result is what the i-th line contributes |
| Secrets.AssignKeys | load_secrets.py:58-59 | a key is in the dictionary exactly when some read pair has it, and its value is the value of such a pair |
| Secrets.AssignLastWins | load_secrets.py:58-59 | for a repeated key, the last pair assigned wins |
| Secrets.LinePairsKeys | load_secrets.py:48-64 | the line pass exports a key exactly when some line defines it with a pair the environment accepts; every exported key is non-empty and has no `:`, every value is non-empty, and the environment accepts every exported pair |
| Secrets.LinePairsLastWins | load_secrets.py:48-64 | for a key defined on several lines, the value of the last such line whose write does not raise is exported |
| Secrets.RefusedLineSkipped | load_secrets.py:58-64 | a line whose pair the environment refuses adds nothing and leaves the pairs before it untouched |
| Secrets.MappingPairsKeys | load_secrets.py:37-45 | the mapping pass exports a key exactly when some scalar entry has it after stripping; non-scalar values are skipped |
| Secrets.MappingPairsLastWins | load_secrets.py:37-45 | the value exported for a key is the stripped value of the last scalar entry whose stripped key it is |
| Secrets.MappingKeepsEmptyValues | load_secrets.py:40-44 | the mapping pass exports an empty scalar too, because it has no emptiness check |
| Secrets.FirstRefused | load_secrets.py:37-45 | the position where the mapping pass raises: every scalar entry before it is accepted by the environment, and the entry there, if any, is refused |
| Secrets.MappingPairsAccepted | load_secrets.py:40-44 | the environment accepts every pair the mapping pass writes before its first refused entry |
| Secrets.FallbackIsLinePass | load_secrets.py:66-83 | when YAML raises or gives something other than a mapping, the result is exactly the line pass over the same text |
| Secrets.MappingRaises | load_secrets.py:37-45 | the call raises exactly when some scalar entry of the mapping is refused by the environment; it has then written the pairs of the entries before the first such entry and no line pair |
| Secrets.ExportedAccepted | load_secrets.py:20-85 | whether the call returns or raises, the environment accepted every pair written |
| Secrets.LinesOverrideMapping | load_secrets.py:37-64 | the parse returns exactly when the environment accepts every scalar entry; it then lets a line pair override a mapping pair with the same key, and a mapping pair survives exactly for the keys no line defines |
| Secrets.ParseFormatLine | load_secrets.py:49-64 | a well-formed pair written as `key: value` is read back as the same pair, and the line contributes it |
| Secrets.LinePairsFormatted | load_secrets.py:48-64 | the line pass over well-formed pairs (which the environment accepts) written one per line gives the map of those pairs, last occurrence winning |
| Secrets.EmptyTextExportsNothing | load_secrets.py:48-51 | empty text exports nothing |
| Secrets.ExportFormatted | load_secrets.py:66-85 | text made of well-formed `key: value` lines that YAML fails on makes the call return exactly its pairs |
| Secrets.QuotedValueKeepsQuotes | load_secrets.py:37-59 | for a quoted YAML value whose key and value the environment accepts, the call returns, the line pass keeps the quotes, and its value wins over the mapping's unquoted one |
| Secrets.Process.ParseAndExportYaml | load_secrets.py:20-85 | returns the mapping pass overridden by the line pass, or raises at the first scalar entry the environment refuses; either way the new environment is the old one updated with exactly the pairs written |
| Secrets.Process.ExportMapping | load_secrets.py:37-45 | the scalar pass writes each stripped key and value, in iteration order, to both the result and the environment, and stops with a raise exactly at the first entry the environment refuses |
| Secrets.Process.ExportLines | load_secrets.py:48-64 | the line pass writes each pair it reads, in line order, to both the result and the environment, and skips a pair whose write raises `ValueError`; the fallback pass after a YAML error (lines 69-83) is the same loop |
| Frames.Admit | hello_world/hello_world_websocket.py:110-122 | a frame is admitted exactly when it is valid JSON holding both `source_id` and `message`; otherwise the drop reason follows the order of the checks; the second copy, in the snapshot demo (lines 108-120), behaves the same |
| Frames.FrameText | hello_world/hello_world_websocket.py:98-99 | a text frame's text is used as it is; a binary frame's bytes are UTF-8 decoded, and a failed decode gives no text |
| Frames.EventFor | hello_world/hello_world_websocket.py:128-132 | the event carries the given instance id and source id, and a payload holding `message` and nothing else |
| Frames.Envelope | hello_world/hello_world_websocket.py:72-75 | the broadcast object holds exactly `source_id` and `message`, with the given values |
| Frames.Conn.Close | hello_world/hello_world_websocket.py:139 | the close handshake leaves the connection closed |
| Frames.EnvelopeIsAdmissible | hello_world/hello_world_websocket.py:70-76 | the envelope `send` pushes would pass the admission check with the same source id and message |
| Frames.DecodedPrefix | hello_world/hello_world_websocket.py:96-101 | the texts processed are those of a prefix of the frames; text frames pass unchanged and binary frames are UTF-8 decoded; the loop stops early exactly at the first frame that fails to decode |
| Frames.DecodedStopsAtFailure | hello_world/hello_world_websocket.py:96-101 | once a frame fails to decode, no later frame is looked at |
| Frames.DecodedExtends | hello_world/hello_world_websocket.py:96-101 | the texts decoded from a prefix of the frames are a prefix of the texts decoded from all of them |
| Frames.EventsFor | hello_world/hello_world_websocket.py:128-134 | a dropped frame adds no event; an admitted frame adds exactly the event with no instance id, its source id and its message |
| Frames.ProcessAppend | hello_world/hello_world_websocket.py:97-101 | processing texts in two stretches is processing them in one; the second stretch is reached only when the first did not raise |
| Frames.ProcessShape | hello_world/hello_world_websocket.py:124-134 | at most one event per frame; every event has no instance id, carries only `message`, and comes from an admitted frame with the same source id and message whose processing did not raise |
| Frames.ProcessRaises | hello_world/hello_world_websocket.py:124-126 | processing raises exactly when some admitted text's `source_id` cannot be hashed in the copy with a registry |
| Frames.ProcessRaisesAt | hello_world/hello_world_websocket.py:97-101 | when processing raises, it has enqueued exactly the events of the texts before the first text that raises, and processing those did not raise |
| Frames.ReceiveStep | hello_world/hello_world_websocket.py:96-101 | one pass of the receive loop: a frame that is not UTF-8, or a text whose processing raises, ends the loop with the events so far; any other frame adds its text and its events |
| Frames.ProcessWithoutLookup | hello_world/hello_world_websocket_with_snapshots.py:103-128 | without the registry lookup processing never raises, and each text adds the event of an admitted frame, in order |
| Frames.ReceiveWithoutLookup | hello_world/hello_world_websocket_with_snapshots.py:92-101 | without the registry lookup, the receive loop ends early exactly when a frame is not UTF-8, with at most one event per decoded frame |
| Frames.DeliveredOnceCount | hello_world/hello_world_websocket.py:78-81 | a broadcast makes exactly one delivery per client |
| WebSocketIntegration.Get | hello_world/hello_world_websocket.py:124-126 | `dict.get` raises `TypeError` exactly when the key is a JSON array or object; otherwise it yields the value at the key, or `None` exactly when the key is absent |
| WebSocketIntegration.Integration.constructor | hello_world/hello_world_websocket.py:32-45 | a new server has no clients, and no events, deliveries or registrations yet; `hasRegistry` is whether it keeps `_registry` (the copy in the snapshot demo, lines 33-43, does not) |
| WebSocketIntegration.Integration.Send | hello_world/hello_world_websocket.py:70-76 | broadcasts the envelope `{"source_id", "message"}` as `SendEventToClients` does; earlier deliveries and `clients` are untouched; the second copy, in the snapshot demo (lines 68-74), behaves the same |
| WebSocketIntegration.Integration.SendEventToClients | hello_world/hello_world_websocket.py:78-81 | the loop raises exactly when some client is closed; every delivery goes to an open client, each client gets the event at most once, nobody else gets anything, and without a raise every client gets it; the second copy, in the snapshot demo (lines 76-79), behaves the same |
| WebSocketIntegration.Integration.ProcessMessage | hello_world/hello_world_websocket.py:105-134 | a dropped frame enqueues nothing; in the first copy an admitted frame whose `source_id` is an array or object raises and enqueues nothing; any other admitted frame enqueues exactly one event with no instance id, the frame's source id, and `{"message": ...}` as its data; the second copy (snapshot demo, lines 103-128, `hasRegistry` false) never raises |
| WebSocketIntegration.Integration.ReceiveMessages | hello_world/hello_world_websocket.py:94-103 | an exception escapes exactly when a frame is not UTF-8 or (first copy only) an admitted frame's `source_id` cannot be hashed; the events of the frames before that one are enqueued, in order; the second copy is in the snapshot demo, lines 92-101 |
| WebSocketIntegration.Integration.CloseConnection | hello_world/hello_world_websocket.py:136-140 | the connection, which must be a client, ends closed and is removed from `clients`; nothing else is removed; the second copy, in the snapshot demo (lines 130-134), behaves the same |
| WebSocketIntegration.Integration.Handler | hello_world/hello_world_websocket.py:88-92 | as written: when the receive loop ends normally, the connection ends closed and removed; when an exception escapes it, the connection is still in `clients` and its state is unchanged; the second copy, in the snapshot demo (lines 86-90), behaves the same |
| WebSocketIntegration.Integration.HandlerWithCleanup | hello_world/hello_world_websocket.py:88-92 | corrected: whatever the frames, the connection ends closed and removed from `clients` |
| WebSocketIntegration.StaleClientAfterBadFrame | hello_world/hello_world_websocket.py:78-103 | after a connection whose only frame is not UTF-8, and which the server then closes, the connection is still a client, and the next broadcast raises at it and delivers nothing |
| WebSocketIntegration.UnhashableSourceFrame | hello_world/hello_world_websocket.py:124-126 | the frame `{"source_id": [1], "message": "hi"}` makes the loop raise with nothing enqueued in the copy with a registry, and enqueues its event in the copy without one |
| WebSocketIntegration.StaleClientAfterUnhashableSource | hello_world/hello_world_websocket.py:88-126 | after that frame the copy with a registry has enqueued nothing and keeps the connection in `clients`; the copy without one has enqueued the event and removed the connection |
| WebSocketIntegration.Integration.Link | hello_world/hello_world_websocket.py:142-144 | exactly one `register_source(source_id, id)` call is recorded |
| WebSocketIntegration.Integration.Unlink | hello_world/hello_world_websocket.py:146-148 | exactly one `unregister_source(source_id)` call is recorded |
| Lifecycle.Cut | hello_world/hello_world_websocket.py:231-240 | when a call in the `try` block raises, the calls before it and the raising call itself are made and nothing after; a call index past the end changes nothing |
| Lifecycle.ProcessEvent | hello_world/hello_world_websocket.py:208-217 | a payload without `message` raises `KeyError`, a falsy message gives `None`, and a truthy message is returned as it is; the second copy, in the snapshot demo (lines 204-213), behaves the same |
| Lifecycle.BeforeEndPrefix | hello_world/hello_world_websocket.py:192-199 | the follow-ups that are chatted form the longest prefix with no `end`; it stops just before the first `end` |
| Lifecycle.CutOnlyRunEffects | hello_world/hello_world_websocket.py:186-205 | a run cut short by an exception makes only calls the whole run makes: reads, chats, sends and snapshots |
| HelloWorld.StepsDialogue | hello_world/hello_world_websocket.py:192-205 | apart from the reads, waiting for follow-ups produces one chat and one send to the event's source for each follow-up before the first `end`, in order |
| HelloWorld.StepsEnding | hello_world/hello_world_websocket.py:192-199 | waiting for follow-ups returns exactly when one of them is `end`; otherwise it blocks |
| HelloWorld.StepsRunEffects | hello_world/hello_world_websocket.py:192-205 | waiting for follow-ups only reads, chats and sends |
| HelloWorld.RunDialogue | hello_world/hello_world_websocket.py:186-205 | apart from the reads, `run` is one chat and one send for each input: the truthy initial message, then each follow-up before the first `end` |
| HelloWorld.RunEnding | hello_world/hello_world_websocket.py:186-205 | `run` returns (True) exactly when some follow-up is `end`, and never raises on its own |
| HelloWorld.RunRunEffects | hello_world/hello_world_websocket.py:186-205 | `run` never closes, unlinks or reports an error |
| HelloWorld.InitialEndIsChatted | hello_world/hello_world_websocket.py:193-200 | an initial message `end` is chatted and its reply sent; only a follow-up `end` ends the run |
| HelloWorld.Run | hello_world/hello_world_websocket.py:186-205 | the loop makes exactly the calls of the run specification, cut at the call that raises |
| HelloWorld.HandleEvent | hello_world/hello_world_websocket.py:220-246 | create and link come first; an empty message returns with no close and no unlink; a missing `message` fails; a run that returns closes as completed, then unlinks; an exception reports it, closes as failed, then unlinks |
| HelloWorldSnapshots.StepsDialogue | hello_world/hello_world_websocket_with_snapshots.py:186-201 | apart from the reads, waiting for follow-ups produces one chat, one send and one snapshot for each follow-up before the first `end`, in order |
| HelloWorldSnapshots.StepsEnding | hello_world/hello_world_websocket_with_snapshots.py:186-194 | waiting for follow-ups returns exactly when one of them is `end`; otherwise it blocks |
| HelloWorldSnapshots.StepsRunEffects | hello_world/hello_world_websocket_with_snapshots.py:186-201 | waiting for follow-ups only reads, chats, sends and saves snapshots |
| HelloWorldSnapshots.RunDialogue | hello_world/hello_world_websocket_with_snapshots.py:180-201 | apart from the reads, `run` is one chat, one send and one snapshot for each input other than `end`, in order |
| HelloWorldSnapshots.RunEnding | hello_world/hello_world_websocket_with_snapshots.py:180-201 | `run` returns (True) exactly when the initial message or some follow-up is `end`, and never raises on its own |
| HelloWorldSnapshots.InitialEndReturns | hello_world/hello_world_websocket_with_snapshots.py:192-194 | an initial message `end` returns before any call |
| HelloWorldSnapshots.RunRunEffects | hello_world/hello_world_websocket_with_snapshots.py:180-201 | `run` never closes, deletes a snapshot, unlinks or reports an error |
| HelloWorldSnapshots.Run | hello_world/hello_world_websocket_with_snapshots.py:180-201 | the loop makes exactly the calls of the run specification, cut at the call that raises |
| HelloWorldSnapshots.SuccessCalls | hello_world/hello_world_websocket_with_snapshots.py:247-250 | all three closing calls are made unless one raises, in which case the calls up to and including that one are made |
| HelloWorldSnapshots.HandleEvent | hello_world/hello_world_websocket_with_snapshots.py:216-256 | a new instance is created and linked, or the snapshot is loaded; a missing snapshot returns with nothing more; an empty message returns with no close and no unlink; success is close(completed), delete_snapshot, unlink; an exception is report, close(failed), unlink, and the snapshot is not deleted |

## Left out

- `yaml.safe_load` and the `str()` rendering of int, float and bool values: they are a foreign library and float formatting. The parse result is an input whose scalars are already rendered.
- `fetch_secret` and `main` of the secret loader: they call the cloud secret manager, write `config.yaml` and exit the process.
- Logging calls, in every file: they have no effect on the results.
- `json.loads` and UTF-8 decoding are oracle parameters, and `json.dumps` of the envelope is the JSON value itself.
- JSON that decodes to something other than an object. For an array `in` means membership, and for a string it means substring. For a number, a boolean or null, `in` raises `TypeError`, which escapes the handler like a decode error and leaves the same stale client. The decode oracle yields only objects, or `None` for invalid JSON.
- Floating-point JSON numbers: `Json` has integers only.
- The ingress and `load_workflow_snapshot`. Enqueued events, registry calls and handler calls are recorded, and the answers come in as inputs (`found`, `followUps`). Nothing is claimed about lookups after `link`.
- WebSocketIntegration.Integration.CloseConnection: it requires the connection to be a client, because `set.remove` raises on a missing element. Closing twice is not modelled.
- `start`, `_serve` and the TLS context: network plumbing.
- `spawn_task`, the endless `main` loops, and interleaving between tasks (for example `clients` changing during a broadcast): concurrency.
- `hello_world_chat`, `generate_response` and the agent: LLM calls. A `Send` in the trace records the send of the reply just chatted, without its text.
- `get_workflow_event` when no follow-up ever comes: the run ends as `Blocked`, and the handler as `Stalled`, with no closing calls.
- Exceptions outside the `try` block (`create`, `link`, `load_workflow_snapshot`) and inside the `except` block are not modelled.
- A follow-up event without `message` raises `KeyError` inside `run`. The model counts it as the read call raising, through `raiseAt`.
- `ConnectionClosedError` ends the frame sequence; it is modelled as the end of `frames`.
- The websockets server is not modelled. It closes a connection whose handler raised; `StaleClientAfterBadFrame` makes that close itself, through `Conn.Close`.
- WebSocketIntegration.Integration.SendEventToClients: which clients got the event before a raise is left open, because Python does not fix a set's iteration order.
- `os.environ` is modelled by `EnvWrite`, as CPython behaves on POSIX systems. Encoding errors for lone surrogates are not modelled, because a Dafny `char` is always a Unicode scalar value.
- The workflow's `create` and the agent configuration paths: framework internals.
- The other demo files (generic webserver, Slack, basic, terminal, the agent class) and the evaluation runner: they have no original logic beyond calls into the framework.

## Findings

| source | as written | input that shows it | evidently intended | confidence | as-written member | corrected member |
|---|---|---|---|---|---|---|
| hello_world/hello_world_websocket.py:88-103 | `handler` calls `_close_connection` only after `_receive_messages` returns. That loop catches only `ConnectionClosedError`, so the `UnicodeDecodeError` from a binary frame that is not UTF-8 escapes `handler` and skips the clean-up. The server then closes the connection, but it stays in `clients`, and every later broadcast raises `ConnectionClosed` at it. | one connection whose only frame is the binary frame `[0xFF]`, followed by `send("s", "hi")` | the connection is always removed from `clients` when its handler ends, so later broadcasts skip it | high by reading the code; not executed | WebSocketIntegration.Integration.Handler | WebSocketIntegration.Integration.HandlerWithCleanup |
| hello_world/hello_world_websocket_with_snapshots.py:86-101 | the same handler and receive loop in the second copy: a binary frame that is not UTF-8 leaves the closed connection in `clients`, and the next broadcast raises at it | the same frame `[0xFF]` | the same: the connection is removed whatever the frames | high by reading the code; not executed | WebSocketIntegration.StaleClientAfterBadFrame | WebSocketIntegration.Integration.HandlerWithCleanup |
| hello_world/hello_world_websocket.py:124-126 | `_process_message` looks `source_id` up with `self._registry.get`. A JSON array or object cannot be hashed, so the lookup raises `TypeError`, which escapes `_receive_messages` and `handler`. No event is enqueued, later frames are not read, and the connection stays in `clients`. | the text frame `{"source_id": [1], "message": "hi"}` | the event is enqueued with no instance id, as the copy in the snapshot demo does | high by reading the code; not executed | WebSocketIntegration.StaleClientAfterUnhashableSource | Frames.ProcessWithoutLookup |

