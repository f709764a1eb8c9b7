# Makerbot Gen5 client: a verified model of its core logic

This project models the pure logic of the Python client for MakerBot Gen5
printers (`python/makerbotapi/makerbotapi.py`), with sockets, HTTP, threads
and clocks removed, and proves properties of it in Dafny. The modelled parts:

- **Stream framing** (`framing.dfy`). The scanner cuts the first top-level
  `{…}` message off the JSON-RPC text buffer by counting braces; braces
  inside JSON strings count like any other. The reader thread's drain loop
  applies it until no complete message is left.
- **Dispatch** (`dispatch.dfy`). Each decoded message goes either into the
  id-keyed response table or onto the unsolicited list. The caller's wait is
  a lookup-and-pop on that table. One reader iteration is also modelled:
  append a chunk, drain, dispatch.
- **JSON-RPC bookkeeping** (`jsonrpc.dfy`): the request-id counter, the
  request envelope, and the classification of error replies. Code -32601,
  "Method not found" in section 5.1 of the JSON-RPC 2.0 specification, means
  the connection is not authenticated.
- **Authentication** (`auth.dfy`). The access-token request checks its
  context locally. Pairing is a loop over observed (reply, elapsed seconds)
  polls, checked in the order accepted, rejected, deadline.
- **Status decoding** (`status.dfy`): the handshake's identity attributes and
  the `get_system_information` reply, decoded into a bot state with one
  toolhead and an optional current process.
- **Camera** (`camera.dfy`): the 16-byte big-endian header of the snapshot
  blob, and the YUYV422 to RGB conversion with clamping.
- **Registry** (`registry.dfy`): the `Config` bot table with `addBot`,
  `getBotInfo`, `setAuthCodeSavePermission` and `saveAuthCode`.
- **Client** (`client.dfy`): the client object and the flows that combine the
  parts above around one request/response round trip.

JSON values are a datatype (`json.dfy`). The Python behaviour the client
relies on lives in `python.dfy`: `in`, `[]`, `.get`, `len`, truthiness,
hashing of dictionary keys, and `== True`. An uncaught Python exception
becomes `Fault(kind)` of a `Result` (`wrappers.dfy`). The device's replies,
the received chunks and the JSON parser are parameters.

Behaviour of the code that the model keeps, though a reader might expect
otherwise:

- A reply whose id is already in the response table silently replaces the
  stored one. Nothing reports the duplicate.
- When no reply arrives, the wait returns `None`, and the `'error' in`
  test on it raises TypeError. The model returns `Fault(TypeError)` rather
  than a distinct timeout outcome.
- The camera payload is everything after the 16 header bytes. The total-size
  field is never compared with the blob's length.
- A picture row holds `6 * (width / 2)` values, using integer division, so
  an odd width drops the last pixel column.
- Pairing times out when the elapsed time is at least the 120-second
  limit (`>=`), not only when it exceeds it.

## Model

| member | source | states |
|---|---|---|
| `Framing.NextMessage` | python/makerbotapi/makerbotapi.py:465-482 | An empty buffer gives no message and the buffer unchanged; a buffer not opening with `{` is a failure; otherwise either message + rest == buffer with the message opening with `{`, its depth back to 0 at its last character and positive at every earlier one, or there is no message, the buffer is returned unchanged and no prefix of it closes a message |
| `Framing.BoundaryUnique` | python/makerbotapi/makerbotapi.py:472-481 | A buffer has at most one prefix that is a complete message, so the scanner's first depth-0 cut is the only possible one |
| `Framing.Drain` | python/makerbotapi/makerbotapi.py:453-463 | The drain loop returns exactly the reference split of the buffer: the same messages in order, the same retained buffer, and whether it stopped on a corrupted buffer |
| `Framing.SplitCovers` | python/makerbotapi/makerbotapi.py:457-463 | The drained messages, concatenated in order and followed by the retained buffer, are exactly the accumulated buffer |
| `Framing.SplitBalanced` | python/makerbotapi/makerbotapi.py:457-463 | Every drained message is one complete message |
| `Framing.SplitRest` | python/makerbotapi/makerbotapi.py:457-463 | Unless the stream is corrupted, the retained buffer is empty or an unfinished message holding no complete one; a corrupted retained buffer is non-empty and does not open with `{` |
| `Framing.SplitChunks` | python/makerbotapi/makerbotapi.py:455-463 | Draining after each received chunk gives the same messages, retained buffer and corruption verdict as draining the concatenated chunks once |
| `Dispatch.HandleResponse` | python/makerbotapi/makerbotapi.py:484-492 | A dictionary with `id` is stored under its hashed id, replacing any earlier entry, and the unsolicited list is unchanged; one without `id` is appended to the unsolicited list and the table is unchanged; an unhashable id or a scalar message raises TypeError |
| `Dispatch.DispatchAll` | python/makerbotapi/makerbotapi.py:457-461 | Dispatching a run of messages raises nothing exactly when every message is routable; then the table is the old one merged with the run's replies (last reply per id wins) and the unsolicited list is extended by the run's other messages in order; stored replies stay dictionaries |
| `Dispatch.WaitForResponse` | python/makerbotapi/makerbotapi.py:446-451 | Popping a present id returns the stored reply and removes only that key; popping an absent id returns nothing and changes nothing; the unsolicited list is untouched |
| `Dispatch.DeliveredToItsCaller` | python/makerbotapi/makerbotapi.py:446-451 | A reply stored under id n is what the caller waiting on n receives, it leaves no trace in the table, and a caller waiting on another id sees the same as without it |
| `Dispatch.HandleTexts` | python/makerbotapi/makerbotapi.py:484-488 | When every framed text parses, decoding and dispatching them one by one is dispatching the decoded run; when text i is the first that does not parse, the texts before it are dispatched as a run, and unless one of them raised, the thread ends on the parse error of text i with their effect on the tables kept |
| `Dispatch.ReaderStep` | python/makerbotapi/makerbotapi.py:453-463 | One reader iteration dispatches exactly the messages the reference split cuts from buffer + chunk and keeps its retained buffer; the thread dies with the first dispatch error, else with a framing error on a corrupted buffer; on survival the messages and the new buffer make up buffer + chunk and the new buffer holds no complete message |
| `JsonRpc.NextRequestId` | python/makerbotapi/makerbotapi.py:411-414 | Each call advances the counter by exactly one and returns the advanced value |
| `JsonRpc.IssueIds` | python/makerbotapi/makerbotapi.py:411-414 | n successive calls of the counter return counter + 1, counter + 2, …, counter + n |
| `JsonRpc.IdsStrictlyIncrease` | python/makerbotapi/makerbotapi.py:359 | The ids one client issues are strictly increasing, and a fresh client's first id is 0 |
| `JsonRpc.GenerateJsonRpc` | python/makerbotapi/makerbotapi.py:389-409 | The envelope always has `id`, `jsonrpc` = "2.0" and `method`, and has `params` exactly when params is not the empty string |
| `JsonRpc.EnvelopeRoundTrip` | python/makerbotapi/makerbotapi.py:389-409 | Reading the envelope back gives the id, the method name, and the params exactly when they were not the empty string |
| `JsonRpc.Classify` | python/makerbotapi/makerbotapi.py:586-599 | A dictionary reply without `error` is returned unchanged; with `error`, code -32601 gives NotAuthenticated with the message and any other code gives a device error carrying code and message |
| `Auth.TokenQuery` | python/makerbotapi/makerbotapi.py:554-562 | A context outside jsonrpc, put, camera fails with InvalidContextError before a request is built; otherwise the query carries response type "token", the pairing code and the context |
| `Auth.TokenFromReply` | python/makerbotapi/makerbotapi.py:565-568 | A dictionary reply yields its `access_token` (None if missing) exactly when `status` is "success", and otherwise an AuthenticationError with its `message`; a non-dictionary reply raises AttributeError |
| `Auth.GetAccessToken` | python/makerbotapi/makerbotapi.py:545-569 | An invalid context fails with InvalidContextError whatever the device would reply; a valid one is decided by the reply alone, as `TokenFromReply` states |
| `Auth.AuthenticateFcgi` | python/makerbotapi/makerbotapi.py:499-508 | A first reply without `answer_code` fails before any poll; with one, pairing is the poll loop |
| `Auth.Judge` | python/makerbotapi/makerbotapi.py:511-521 | A non-dictionary reply raises AttributeError; for a dictionary, answer "accepted" yields its `code` (None if missing), "rejected" a rejection, and any other answer (missing included) expires exactly when the elapsed time is at least the limit and continues exactly when it is below |
| `Auth.PollLoop` | python/makerbotapi/makerbotapi.py:508-523 | Pairing ends at the first poll that decides and every earlier poll decided to go on; it succeeds with that poll's code on "accepted", fails with the pairing-active error on "rejected", with AuthenticationTimeout at or past the deadline; it is still waiting exactly when every poll so far went on |
| `Auth.DecidedPairingIgnoresLaterPolls` | python/makerbotapi/makerbotapi.py:511-521 | After an acceptance, a rejection or a timeout no further reply is looked at |
| `Auth.AnswerBeatsDeadline` | python/makerbotapi/makerbotapi.py:511-521 | "accepted" pairs and "rejected" fails whatever the elapsed time, because they are checked before the deadline |
| `Auth.SilentDeviceTimesOut` | python/makerbotapi/makerbotapi.py:508-523 | Against a device that never answers "accepted" or "rejected", pairing fails with AuthenticationTimeout at exactly the first poll made at or after the deadline |
| `Status.GetOverlayCovers` | python/makerbotapi/makerbotapi.py:533-543 | Copying with `get` sets every listed attribute to the source's value, or None where the source lacks it |
| `Status.CopyPresent` | python/makerbotapi/makerbotapi.py:620-622 | From a dictionary exactly the listed keys present are copied and every other attribute keeps its default (the same loop copies the toolhead at 629-637 and the process at 647-662); from a scalar the first membership test raises TypeError |
| `Status.CopyGet` | python/makerbotapi/makerbotapi.py:535-543 | From a dictionary every listed attribute is set to the source's value, None where it lacks the key, and other attributes are kept; from a non-dictionary the first lookup raises AttributeError |
| `Status.HandshakeInfo` | python/makerbotapi/makerbotapi.py:531-543 | A reply without `result`, or with an empty one, changes no attribute; a non-empty result dictionary sets every handshake attribute from it; a scalar result raises TypeError |
| `Status.DecodeStatus` | python/makerbotapi/makerbotapi.py:601-668 | A missing `result` raises KeyError; a falsy result or one without `machine_name` is an unexpected reply; on success the machine attributes are copied where present over their defaults, exactly one toolhead is recorded, and the current process is absent exactly when `current_process` is falsy and otherwise copied over its defaults; which replies decode and which fail past the `machine_name` test is stated by `Status.WellShapedDecodes` and `Status.MissingPartsFail` |
| `Status.DecodeResult` | python/makerbotapi/makerbotapi.py:618-666 | A well-shaped result decodes to the reference status; with `machine_name` a dictionary, a missing `toolheads`, `extruder` or `current_process` raises KeyError and an empty extruder list raises IndexError; a decoded result had `machine_name`, `toolheads` and `current_process`, and its toolhead is the first extruder's attributes copied over the toolhead defaults |
| `Status.DecodeMachine` | python/makerbotapi/makerbotapi.py:618-622 | A `machine_name` dictionary is copied over the bot-state defaults, only the listed keys it has; a missing `machine_name` raises KeyError |
| `Status.DecodeToolhead` | python/makerbotapi/makerbotapi.py:626-637 | A first extruder that is a dictionary is copied over the toolhead defaults; a missing `toolheads` or `extruder` raises KeyError and an empty extruder list raises IndexError |
| `Status.DecodeProcess` | python/makerbotapi/makerbotapi.py:642-664 | A missing `current_process` raises KeyError; a falsy one is recorded as absent; a truthy dictionary is copied over the process defaults |
| `Status.WellShapedDecodes` | python/makerbotapi/makerbotapi.py:601-668 | A reply whose `result` has a `machine_name` dictionary, a non-empty extruder list starting with a dictionary, and a `current_process` that is a dictionary or falsy always decodes, to the status the reference builds from those three dictionaries |
| `Status.MissingPartsFail` | python/makerbotapi/makerbotapi.py:627-642 | Once `machine_name` is a dictionary, a reply missing `toolheads`, `extruder` or `current_process` fails with KeyError, and one with an empty extruder list fails with IndexError |
| `Status.ToolheadDecoded` | python/makerbotapi/makerbotapi.py:624-638 | When the reply decodes and its first extruder is a dictionary, the recorded toolhead is the first extruder's attributes copied over the toolhead defaults |
| `Camera.ParseCameraBlob` | python/makerbotapi/makerbotapi.py:571-580 | A blob shorter than 16 bytes fails to unpack; otherwise the four header fields are the big-endian 32-bit values of bytes 0-3, 4-7, 8-11, 12-15 and the payload is everything after them, whatever the size field says |
| `Camera.U32RoundTrip` | python/makerbotapi/makerbotapi.py:580 | Reading back the four big-endian bytes of a 32-bit value gives the value |
| `Camera.U32BytesRoundTrip` | python/makerbotapi/makerbotapi.py:580 | Any four bytes read as a big-endian value lie below 2^32 and encode back to the same bytes |
| `Camera.ParseEncodedBlob` | python/makerbotapi/makerbotapi.py:580 | Parsing the blob of a frame with 32-bit header fields recovers the frame |
| `Camera.EncodeParsedBlob` | python/makerbotapi/makerbotapi.py:580 | Every blob of at least 16 bytes is the encoding of the frame parsed from it |
| `Camera.RgbClamp` | python/makerbotapi/makerbotapi.py:680-694 | The result lies in [0, 255] and equals the input exactly when the input is in [0, 255] |
| `Camera.ClampIsNearest` | python/makerbotapi/makerbotapi.py:680-694 | No value in [0, 255] is nearer to the input than its clamp |
| `Camera.TruncTowardZero` | python/makerbotapi/makerbotapi.py:756-758 | `int()` of a value in thousandths drops less than one unit of magnitude and keeps the sign |
| `Camera.PixelFormulas` | python/makerbotapi/makerbotapi.py:753-765 | Each pixel's R, G and B are the clamped, truncated values of 1.164(y-16)+1.596(v-128), 1.164(y-16)-0.813(v-128)-0.391(u-128) and 1.164(y-16)+2.018(u-128), in thousandths |
| `Camera.Group` | python/makerbotapi/makerbotapi.py:747-765 | One 4-byte group yields six values, each in [0, 255] |
| `Camera.RgbGroupsAt` | python/makerbotapi/makerbotapi.py:743-765 | A row of n groups starting at byte base holds 6n channel values, and its group c is the two pixels read from the four bytes at base + 4c |
| `Camera.RowStartIsProduct` | python/makerbotapi/makerbotapi.py:742-750 | Reading sequentially, row r starts at byte 4 * (r * (width / 2)) |
| `Camera.PictureRow` | python/makerbotapi/makerbotapi.py:742-766 | The reference picture has one entry per row, and row r is the width / 2 groups starting where row r starts |
| `Camera.GroupOffset` | python/makerbotapi/makerbotapi.py:742-766 | In a picture, row r holds 6 * (width / 2) channel values, and its group c is the two pixels read from the four bytes at the row's start + 4c |
| `Camera.ConvertRow` | python/makerbotapi/makerbotapi.py:744-765 | The column loop of one row returns nothing exactly when the payload ends before `base + 4 * half`, and otherwise the reference row of `half` groups starting at `base` |
| `Camera.YuvToRgbRows` | python/makerbotapi/makerbotapi.py:730-767 | The conversion fails with TypeError exactly when the payload is shorter than 4 * (height * (width / 2)) bytes; otherwise it returns the reference picture of height rows |
| `Camera.WhiteAndBlack` | python/makerbotapi/makerbotapi.py:753-765 | Luma 235 with neutral chroma gives 254 in every channel and luma 16 gives 0 |
| `Registry.GetBotInfo` | python/makerbotapi/makerbotapi.py:144-157 | Returns the stored entry of a known serial, and None for an unknown one |
| `Registry.AddBot` | python/makerbotapi/makerbotapi.py:159-177 | A new serial gets name, ip, save permission false and no code; a known serial gets only its name and ip replaced, every other key kept; every other serial is unchanged |
| `Registry.SetAuthCodeSavePermission` | python/makerbotapi/makerbotapi.py:179-194 | Returns true exactly when the serial is known and then sets only its save permission; an unknown serial leaves the registry unchanged |
| `Registry.SaveAuthCode` | python/makerbotapi/makerbotapi.py:196-215 | Writes the code and returns true exactly when the serial is known and its permission equals True; otherwise the registry is unchanged; an entry without a permission key raises KeyError |
| `Registry.AddBotPreservesWellFormed` | python/makerbotapi/makerbotapi.py:159-177 | Adding a bot keeps every entry holding the four keys addBot creates |
| `Registry.PermissionPreservesWellFormed` | python/makerbotapi/makerbotapi.py:179-194 | Setting a permission keeps every entry holding its four keys |
| `Registry.SavePreservesWellFormed` | python/makerbotapi/makerbotapi.py:196-215 | In a well-formed registry saving a code never raises and keeps it well formed |
| `Registry.GrantedCodeIsKept` | python/makerbotapi/makerbotapi.py:179-215 | After granting permission, the next saved code is what the bot's entry holds |
| `Registry.NewBotKeepsNoCode` | python/makerbotapi/makerbotapi.py:159-215 | For a freshly added bot, saving a code returns false and changes nothing |
| `Registry.ReAddKeepsCode` | python/makerbotapi/makerbotapi.py:159-177 | Re-adding a known bot keeps its save permission and its saved code |
| `Client.New` | python/makerbotapi/makerbotapi.py:338-366 | A new client issues id 0 first, has empty tables, every identity attribute None, is not authenticated and keeps the given pairing code |
| `Client.RpcRequestResponse` | python/makerbotapi/makerbotapi.py:582-599 | One round trip advances the counter by one and sends one envelope that reads back as this id, method and params; the reply to this id never stays in the table; stored replies stay dictionaries, and then a successful result is a dictionary without `error` |
| `Client.RpcDeliversReply` | python/makerbotapi/makerbotapi.py:582-599 | When the reader dispatched everything and the reply to this id is among the messages, the caller gets that reply classified, and the tables hold everything else dispatched |
| `Client.RpcWithoutReply` | python/makerbotapi/makerbotapi.py:582-588 | Without a reply to this id the call raises TypeError and the tables keep everything dispatched |
| `Client.DoHandshake` | python/makerbotapi/makerbotapi.py:531-543 | Sends `handshake` with the default parameters and leaves the client as that round trip does (counter advanced by one, reply popped); an error of the round trip is the result with the identity attributes unchanged; on a reply the identity attributes become what the handshake decoding gives and the reply is the result, and an error of the decoding is the result with the attributes unchanged |
| `Client.HandshakeRecordsIdentity` | python/makerbotapi/makerbotapi.py:531-543 | A handshake answered with a non-empty result dictionary sets every handshake attribute from it, None for the ones it lacks |
| `Client.GetSystemInformation` | python/makerbotapi/makerbotapi.py:601-668 | Sends `get_system_information` without params and leaves the client as the round trip does; an error of the round trip is passed on unchanged, and a reply is handed to the status decoding, whose outcome is the result |
| `Client.DisableCheckBuildPlate` | python/makerbotapi/makerbotapi.py:670-678 | Sends `disable_check_build_plate` without params; the client and the outcome are exactly those of the round trip: the counter advances by one, the tables take in what the reader dispatched less the popped reply, and the pairing code, identity and authentication flag are kept |
| `Client.AuthenticateJsonRpc` | python/makerbotapi/makerbotapi.py:525-529 | A failed "jsonrpc" token request sends nothing and changes nothing; otherwise `authenticate` is sent with the token, the result is that round trip's, and the client is the round trip's with the connection marked authenticated exactly when it already was or the call succeeded |
| `Client.Pair` | python/makerbotapi/makerbotapi.py:494-523 | The client takes the code of a successful pairing and is otherwise unchanged |
| `Client.CameraRgbRows` | python/makerbotapi/makerbotapi.py:708-716 | A failed "camera" token request fails the same way and a blob shorter than the header fails to unpack; otherwise the call fails with TypeError exactly when the payload is shorter than 4 * (height * (width / 2)) bytes for the header's width and height, and a picture is the reference conversion of the parsed payload |

## Left out

- Sockets and UDP are not modelled: `createSockets`, `closeSockets`, `discover`, `_connect_json_rpc`, `_disconnect_json_rpc`, `_send_rpc` and the `recv` call. Received chunks are parameters.
- Threads and the clock are not modelled. The reader thread's progress is the list of messages it dispatched before the caller looks. The three-second busy wait is one lookup-and-pop. Pairing time is the elapsed seconds observed at each poll. `time.sleep` is not modelled.
- HTTP (`_send_fcgi`, `urllib2.urlopen`) is not modelled. The token, pairing and camera replies are parameters, already decoded.
- `json.loads` and `json.dumps` are not modelled. Parsing is a function parameter, and the envelope is a JSON value rather than its text. JSON numbers are integers; floats are not modelled.
- PNG output and file I/O are not modelled: `_rgb_rows_to_png`, the PNG encoding in `save_camera_png` and `get_camera_png`, `Config.load`, `Config.save` and `_debug_print`.
- Camera.Pixel: the colour formulas use the exact coefficients in thousandths with truncation toward zero. Python's binary floats can land just below an integer the exact value reaches, so the model does not claim to match them bit for bit.
- The constructor's `auto_connect` path is not modelled as one step: connect, start the reader thread, then hand-shake. `Client.New` gives the state it starts from, and `Client.DoHandshake` the handshake.
- `__str__`, `__repr__` and `get_tool_head_count` of the status objects are not modelled. They only format or count what the decoded state holds.
- Registry.SaveAuthCode: the registry model assumes the loaded document has a `bots` dictionary of dictionaries. A loaded file with another shape, which would make the first lookup raise, is not modelled.
- JsonRpc.Classify: a device error other than -32601 is raised with one message string formatted from the code and the message; the model keeps the code and the message as two values instead of formatting the string.
- Registry.GetBotInfo: the source returns the stored dictionary itself, so a caller that changes it changes the registry; the model returns a value, and aliasing is not modelled.
- Client.New: `__init__` never creates `jsonrpc_authenticated`; the attribute first exists when `authenticate_json_rpc` succeeds (line 529), and reading it earlier raises AttributeError. Starting it at false is a modelling choice; the missing attribute is not represented.
- Python assertions are assumed to be enabled. The corrupted-buffer failure is the `assert` at line 471; under `python -O` it is stripped, and then a buffer such as `x{}` would be cut as a message while one such as `x}{` would never be cut. That behaviour is not modelled.
- Dispatch.DispatchAll: when a message raises, the contract only says that an error ends the run. It does not say which message raised or which error.
- Status.HandshakeInfo: for a non-empty list or string `result`, the contract does not say that `.get` then raises AttributeError. It only says the outcome is not the unchanged attributes.
