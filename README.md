# AM43 blind client: protocol engine model

A Dafny model of the protocol engine in the AM43 blind-actuator client (`AM43Client`). The model has four parts:

- **Frame codec** (`frame_codec.dfy`, module `FrameCodec`). An outbound frame is the start packet `00 FF 00 00 9A`, the opcode, a one-byte length, the payload and a checksum byte.
  - The checksum is the XOR of every earlier byte, XORed with 0xFF. So the XOR of a whole frame is 0xFF, not 0.
  - `Checksum` is the source's accumulator loop, proved equal to the reference fold `XorFold`.
  - `Frame` is the layout that `AM43Client.SendCommand` builds step by step.
- **Command builders** (`commands.dfy`, module `Commands`): the opcode and payload of every command the client sends. These are the three telemetry requests, the PIN, open/stop/close and set-position.
- **Session transitions** (`engine.dfy`, module `Engine`). The client's fields are collected as a `Session` value. Pure functions give what each operation does to it: `Notify` (the notification dispatcher), `Tick` (the polling step), `Connect` and `Disconnect`. The lemmas state what the engine promises: login gating, the 1→2→3→1 round robin, one-field telemetry updates, and the LOGIN ack scheduling a poll one second later.
- **The client object** (`client.dfy`, module `Client`). Class `AM43Client` has the source's fields, updated in place.
  - Each method's `ensures` ties the new fields to the matching `Engine` function of the old fields.
  - A characteristic write appends the frame to `sent`.
  - A listener callback appends an `Event` to `events`. It is guarded by `hasListener`, which stands for the listener pointer being non-null.
  - The current time is a parameter in place of `millis()`. `update` reads the clock twice: once for the due test and again after the request is written, to stamp `m_LastUpdate`. So `Update` and `Engine.Tick` take two times, `now` and `after`, and the next poll is counted from `after`.
  - The poll interval is a constant field chosen at construction. The current header uses 30000 ms; an older header revision uses 120000 ms.

`protocol.dfy` (module `Protocol`) holds the header's opcodes, ack/nack markers, the default PIN and the intervals. It also defines the unsigned 32-bit type `U32` with wrap-around `Minus` and `Plus`.

Points where the code behaves differently from what one might assume (the model follows the code):
- PIN 8888 is sent as `22 B8`.
- The polling cursor takes the values 1 = position, 2 = battery, 3 = light, starting at 1.
- `setPosition` sends any byte. It has no 0–100 check.
- The length byte is the payload size truncated to 8 bits. Longer payloads are not rejected.
- The connect and disconnect hooks do not touch `loggedIn`, the cursor or the timestamp. So `loggedIn` can stay true while disconnected.
- A logged-out tick sends the PIN but does not restart the interval.
- The poll test is a strict `>` on the wrapped difference.
- `update` does not look at `connected`.
- The dispatcher does not bounds-check the bytes it reads.

## Model

| member | source | states |
|---|---|---|
| FrameCodec.Checksum | src/AM43Client.cpp:217-223 | the loop's result is the XOR of all bytes XOR 0xFF, and appending it makes the XOR of the extended buffer 0xFF |
| FrameCodec.XorFoldConcat | src/AM43Client.cpp:217-223 | the XOR fold of a concatenation is the XOR of the folds of the parts |
| FrameCodec.SingleByteErrorDetected | src/AM43Client.cpp:217-223 | in a buffer whose XOR is 0xFF, changing any one byte makes the XOR differ from 0xFF |
| FrameCodec.Frame | src/AM43Client.cpp:225-232 | the frame is 8 bytes longer than its payload: start packet, opcode, length byte and checksum |
| FrameCodec.FrameLayout | src/AM43Client.cpp:225-232 | a frame has length 8 + payload size; bytes 0..4 are `00 FF 00 00 9A`, byte 5 the opcode, byte 6 the size mod 256, then the payload, then XOR of all before XOR 0xFF |
| FrameCodec.FrameXorIsFF | src/AM43Client.cpp:217-232 | the XOR of every byte of a frame, checksum included, is 0xFF |
| FrameCodec.FrameChecksumValue | src/AM43Client.cpp:225-232 | the checksum byte equals 0x9A XOR opcode XOR length byte XOR the payload's fold |
| FrameCodec.FrameInjective | src/AM43Client.cpp:225-231 | equal frames have equal opcodes and equal payloads, even when the length byte wraps |
| Commands.PinPayload | src/AM43Client.cpp:167-170 | the PIN payload is two bytes that reassemble, high byte first, to the PIN |
| Commands.DefaultPinPayload | src/AM43Client.cpp:168 | the default PIN 8888 is sent as `22 B8` |
| Commands.Encode | src/AM43Client.cpp:152-190 | every command's frame starts with the start packet, has the command's opcode at byte 5, is 8 bytes longer than its payload and XORs to 0xFF |
| Commands.EncodeLayout | src/AM43Client.cpp:152-190 | each command's frame: GET_BATTERY/GET_LIGHT/GET_POSITION with payload `01`, LOGIN with the two PIN bytes, MOVE with `DD`/`CC`/`EE` for open/stop/close, SET_POSITION with the position byte; 9 bytes (10 for LOGIN), XOR 0xFF |
| Commands.EncodeInjective | src/AM43Client.cpp:152-190 | two different commands never produce the same frame |
| Protocol.Minus | src/AM43Client.cpp:193 | the `unsigned long` difference of two timestamps, wrapped modulo 2^32 |
| Protocol.Plus | src/AM43Client.cpp:112 | the `unsigned long` sum, wrapped modulo 2^32 |
| Engine.Notify | src/AM43Client.cpp:48-150 | the dispatcher never writes a frame and fires at most one callback, and only when a listener is set |
| Engine.NotifyDropsInvalid | src/AM43Client.cpp:50 | an empty notification or one not starting with 0x9A changes no field, sends nothing and fires no callback |
| Engine.NotifyLogOnly | src/AM43Client.cpp:60-149 | replies with opcode SET_POSITION, MOVE, 0xA8, 0xA9 or any unlisted opcode change no field and fire no callback |
| Engine.NotifyBatteryReply | src/AM43Client.cpp:61-66 | a GET_BATTERY reply sets only the battery level, to byte 7, and fires exactly one battery callback when a listener is set, none otherwise |
| Engine.NotifyPositionPush | src/AM43Client.cpp:73-78 | a NOTIFY_POSITION push sets only the open level, to byte 4, with one position callback when a listener is set |
| Engine.NotifyPositionReply | src/AM43Client.cpp:79-98 | a GET_POSITION reply sets only the open level, to byte 5, with one position callback when a listener is set |
| Engine.NotifyLightReply | src/AM43Client.cpp:100-105 | a GET_LIGHT reply sets only the light level, to byte 5, with one light callback when a listener is set |
| Engine.NotifyLoginReply | src/AM43Client.cpp:107-118 | a LOGIN ack sets loggedIn and the timestamp to now − interval + 1000 (mod 2^32); a nack clears loggedIn; any other byte 3 changes nothing; no callback |
| Engine.NotifyKeepsConfiguration | src/AM43Client.cpp:48-150 | no notification sends a frame, fires more than one callback, or changes the cursor, PIN, connection flags or listener |
| Engine.LoginAckSchedulesPoll | src/AM43Client.cpp:111-112 | after a LOGIN ack at time t (interval ≥ 1000 ms), a tick at a later time is due exactly when more than 1000 ms and at most 2^32 − 1 − (interval − 1000) ms have passed since t (wrapped); past that bound the wrapped difference passes zero again and the test fails |
| Engine.Tick | src/AM43Client.cpp:192-215 | a tick fires no callback, sends at most one command, and sends only when more than the interval has passed at the first clock read |
| Engine.NextQuery | src/AM43Client.cpp:212 | the next cursor is always in 1..3 and is the successor of any cursor below 3 |
| Engine.NextQueryCycle | src/AM43Client.cpp:212 | from any cursor in 1..3, one and two steps lead elsewhere and three steps return |
| Engine.TickNotDue | src/AM43Client.cpp:193 | a tick before strictly more than the interval has passed (32-bit wrapped difference) changes nothing and sends nothing |
| Engine.TickLoggedOut | src/AM43Client.cpp:193-197 | a due tick while logged out sends exactly one LOGIN frame and leaves every field, cursor and timestamp included, unchanged |
| Engine.TickLoggedIn | src/AM43Client.cpp:200-213 | a due tick while logged in sends position/battery/light for cursor 1/2/3, moves the cursor 1→2→3→1, sets the timestamp to the second clock read (after the request is written), and changes nothing else |
| Engine.TickPreservesInvariant | src/AM43Client.cpp:192-215 | a tick keeps the cursor in 1..3 and never changes login, connection, PIN, telemetry or listener |
| Engine.RunLoggedOut | src/AM43Client.cpp:192-197 | over any number of ticks while logged out, no field changes (the cursor never advances) and every frame sent is the LOGIN frame |
| Engine.RoundRobin | src/AM43Client.cpp:200-213 | three consecutive due ticks while logged in (each due against the previous tick's second clock read) send each telemetry request exactly once, in cursor order (position, battery, light from cursor 1), return the cursor to its start and leave the last tick's second clock read as the timestamp |
| Engine.QueryRotation | src/AM43Client.cpp:200-212 | three cursor steps from any start in 1..3 select each telemetry request exactly once, in rotation order |
| Engine.Connect | src/AM43Client.cpp:27-31 | the connect hook sets connected, keeps the login and sticky disconnected flags, the cursor and the timestamp, sends nothing and reports to the listener only when one is set |
| Engine.Disconnect | src/AM43Client.cpp:33-38 | the disconnect hook clears connected, sets disconnected, keeps the login flag, the cursor and the timestamp, sends nothing and reports to the listener only when one is set |
| Engine.ReconnectKeepsLogin | src/AM43Client.cpp:27-38 | after a disconnect and a reconnect the client is connected, the sticky disconnected flag is still set, and loggedIn, the cursor and the timestamp are those from before the drop; a disconnect alone clears connected and keeps loggedIn |
| Client.AM43Client.constructor | src/AM43Client.cpp:16-25 | a new client is not connected, not disconnected, not logged in, has no listener, battery 0xFF, cursor 1 and the given PIN |
| Client.AM43Client.WithDefaultPin | src/AM43Client.cpp:12-14 | the same initial state, with PIN 8888 |
| Client.AM43Client.OnConnect | src/AM43Client.cpp:27-31 | sets connected and fires the connect callback when a listener is set; nothing else changes; the cursor stays in 1..3 |
| Client.AM43Client.OnDisconnect | src/AM43Client.cpp:33-38 | clears connected, sets disconnected and fires the disconnect callback when a listener is set; nothing else changes; the cursor stays in 1..3 |
| Client.AM43Client.SetClientCallbacks | src/AM43Client.cpp:40-42 | registers or clears the listener and changes nothing else; the cursor stays in 1..3 |
| Client.AM43Client.SendCommand | src/AM43Client.cpp:225-239 | the push-back loop writes exactly one frame, `Frame(command, data)`, and changes no field |
| Client.AM43Client.SendGetBatteryRequest | src/AM43Client.cpp:152-155 | writes one GET_BATTERY frame with payload `01` |
| Client.AM43Client.SendGetLightRequest | src/AM43Client.cpp:157-160 | writes one GET_LIGHT frame with payload `01` |
| Client.AM43Client.SendGetPositionRequest | src/AM43Client.cpp:162-165 | writes one GET_POSITION frame with payload `01` |
| Client.AM43Client.SendPin | src/AM43Client.cpp:167-170 | writes one LOGIN frame carrying the PIN high byte first |
| Client.AM43Client.Open | src/AM43Client.cpp:172-175 | writes one MOVE frame with payload `DD` |
| Client.AM43Client.Stop | src/AM43Client.cpp:177-180 | writes one MOVE frame with payload `CC` |
| Client.AM43Client.Close | src/AM43Client.cpp:182-185 | writes one MOVE frame with payload `EE` |
| Client.AM43Client.SetPosition | src/AM43Client.cpp:187-190 | writes one SET_POSITION frame with the given byte, whatever its value |
| Client.AM43Client.NotifyCallback | src/AM43Client.cpp:48-150 | the fields and callbacks after a notification are those of `Engine.Notify`; nothing is written; the cursor stays in 1..3 |
| Client.AM43Client.Update | src/AM43Client.cpp:192-215 | the fields and frames after a tick at `now`, stamped at `after`, are those of `Engine.Tick`; no callback fires; the cursor stays in 1..3 |

## Left out

- `connectToServer` (src/AM43Client.cpp:242-286) is not modelled. It creates the BLE client, looks up the service and characteristic and registers for notifications, all through libraries that are not part of this model.
- The characteristic write always succeeds in the model. The source dereferences `m_Char` even before a connection has set it, and `update` sends without checking `connected`.
- `deviceString` and all serial logging, including the hex dumps and the nack messages, are left out. They produce output only.
- `m_Device`, `m_Client`, `m_Char`, `m_Name`, `m_DoConnect` and `m_Rssi` are not modelled. They are BLE handles or fields the engine does not use.
- The listener's `onConnect`/`onDisconnect` receive the client pointer in the source. The model's events carry no argument.
- The notification callback and the polling tick run on different contexts in the source. The model runs them as separate sequential calls and does not model races.
- Client.AM43Client.NotifyCallback: requires that every byte the switch reads exists (`Engine.Readable`: byte 1, and byte 3, 4, 5 or 7 depending on the opcode). The source indexes `pData` without checking the length, so the model states this as the caller's obligation.
- GET_LIGHT is fixed at 0xAA, as in src/AM43Client.h. The older header revision's 0xA0 is not modelled.
- The constructor leaves `m_OpenLevel`, `m_LightLevel` and `m_LastUpdate` uninitialised. The model leaves them unconstrained in the same way, so the first tick may or may not be due.
- There is no inverse of `Frame` (a frame parser), because the client never decodes its own frames. `FrameCodec.FrameInjective` and `FrameCodec.FrameLayout` state that a frame determines its opcode and payload.
- `examples/MQTTBlinds/config.h` is not modelled. It holds bridge configuration only.
