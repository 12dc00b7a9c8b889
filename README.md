# USB transport and progress registry of nut

This project models two parts of nut's USB install server.

`nut_impl/usb.py` tunnels HTTP-style requests from a console over two USB bulk
endpoints. Every packet has a 32-byte little-endian header. The header holds
the sentinel `12 12 12 12`, a 4-byte command, an 8-byte payload size and four
auxiliary fields, and the payload follows it. A command-1 packet carries a URL.
The URL becomes a request descriptor that is handed to a router, together with
a response writer that sends every non-empty write back as one packet.

`nut_impl/status.py` keeps the transfer progress trackers. They sit in a list
of slots, and a new tracker reuses the lowest closed slot. A background sampler
periodically builds a report of every open tracker and resets the tracker's counter.

The model has four modules:

- `Wrappers` (`wrappers.dfy`): the `Option` type, standing in for Python's `None`.
- `Bytes` (`bytes.dfy`): little-endian integer fields, Python's clamping slice,
  and UTF-8 encoding.
- `Usb` (`usb.dfy`):
  - the header codec;
  - the endpoints, as a pending-input stream and a log of written chunks;
  - `Packet`, its specification functions `Receive` and `SendWrites`, and their round trip;
  - `UsbResponse` and the router's sequence of writes;
  - `UsbRequest`;
  - one turn of the command loop;
  - device choice.
- `Progress` (`status.dfy`):
  - `Status`, a class whose methods update its fields in place;
  - `Registry`, which holds the module globals `lst`, `jsonData` and `threadRun`
    as fields;
  - the report of one sampler tick, given by the function `Snapshot`.

In `status.py`, `data()` only returns `jsonData`; it is `Progress.Registry.Data`.

Exceptions that usb.py and status.py swallow or let escape become a boolean
or a `Dispatch` result:

- `struct.pack` raises on a command of 2^32 or more, or a payload of 2^64 bytes
  or more. `Packet.Send` then stops part-way, as the code does, and returns false.
- A failing tqdm call is a boolean parameter.
- A division by zero when the sampler computes a speed skips that tracker for
  the whole tick.

The response writer (`usb.py:59-72`) sends one packet per non-empty write,
setting `packet.payload` each time, and does not buffer. `ReplyWritesFrames`
proves that the OUT endpoint carries one framed packet per non-empty write, in
order.

## Model

| member | source | states |
|---|---|---|
| Bytes.FromLittleEndian | nut_impl/usb.py:113-118 | an n-byte little-endian field decodes to a value below 256^n |
| Bytes.ToLittleEndian | nut_impl/usb.py:135-157 | packing a value that fits n bytes gives exactly n bytes, and they decode back to the value |
| Bytes.ToFromLittleEndian | nut_impl/usb.py:113-118 | packing a decoded field gives back the bytes it came from |
| Bytes.Slice | nut_impl/usb.py:112-118 | Python's `s[lo:hi]` clamps to the sequence: its length is `min(hi, len) - lo` or 0, and element k is `s[lo + k]` |
| Bytes.Take | nut_impl/usb.py:110 | a read of n bytes returns the first `min(n, len)` pending bytes |
| Bytes.Drop | nut_impl/usb.py:125 | what a read leaves behind, together with what it returned, is the whole input |
| Bytes.Utf8Encode | nut_impl/usb.py:64-65 | `str.encode('utf-8')` takes one to four bytes per character, so it is empty exactly when the text is |
| Usb.DecodeHeader | nut_impl/usb.py:112-118 | the magic is the first four header bytes, and every decoded field is below 256 to the power of its width |
| Usb.EncodeHeader | nut_impl/usb.py:130-157 | the header `send` writes is 32 bytes long and starts with the sentinel |
| Usb.DecodeEncodeHeader | nut_impl/usb.py:112-157 | decoding the header `send` writes gives the sentinel, the command, the payload length and zero in threadId, packetIndex, packetCount and timestamp |
| Usb.InEndpoint.Read | nut_impl/usb.py:110 | a read returns the next `min(count, pending)` bytes, consumes them and logs the count and timeout |
| Usb.OutEndpoint.Write | nut_impl/usb.py:130-133 | a write appends the chunk and its timeout to the OUT log |
| Usb.Receive | nut_impl/usb.py:108-126 | the header is decoded from the first 32 bytes; on a good sentinel the payload is the next `size` bytes, otherwise nothing past the header is consumed |
| Usb.ReceiveRejectsExactlyBadMagic | nut_impl/usb.py:120-122 | a frame is rejected if and only if its first four bytes are not the sentinel, and a rejected frame consumes only its header |
| Usb.MagicAloneDecides | nut_impl/usb.py:112-122 | whatever the other header bytes and the rest of the input, acceptance depends on the four sentinel bytes alone |
| Usb.SendWrites | nut_impl/usb.py:130-161 | `send` writes one to eight chunks, all with the caller's timeout, the sentinel first; it writes all eight exactly when command and length fit their fields |
| Usb.SendFrames | nut_impl/usb.py:128-161 | a sendable packet goes out as eight chunks with the caller's timeout, whose bytes are the encoded header followed by the unchanged payload |
| Usb.ReceiveFrame | nut_impl/usb.py:108-126 | a header, exactly the payload it announces, and any following bytes are received as that header, that payload and the following bytes |
| Usb.ReceiveWhatWasSent | nut_impl/usb.py:108-161 | receiving what `send` wrote, followed by anything, gives back the command, the payload length, zero auxiliary fields and the payload, and leaves what followed unread |
| Usb.Packet.constructor | nut_impl/usb.py:97-106 | a new packet has every header field 0, an empty payload, and the two endpoints it was given |
| Usb.Packet.Recv | nut_impl/usb.py:108-126 | every header field is stored before the magic check; ok is true exactly on a good sentinel; payload is kept on a bad frame; the reads logged are 32 bytes with the caller's timeout, then `size` bytes with timeout 0 only on a good frame |
| Usb.Packet.Send | nut_impl/usb.py:128-161 | the OUT log grows by the chunks `send` writes, stopping where `struct.pack` raises; ok is true exactly when command and length fit |
| Usb.Normalize | nut_impl/usb.py:64-65 | text is UTF-8 encoded and is empty exactly when it was empty; bytes pass through unchanged |
| Usb.UsbResponse.constructor | nut_impl/usb.py:52-54 | a new writer is bound to its packet, with no bytes sent and no headers sent |
| Usb.UsbResponse.Write | nut_impl/usb.py:59-72 | an empty write changes nothing; a non-empty one adds its length to bytesSent, becomes the packet's payload and is sent with the ten-minute timeout |
| Usb.Replies | nut_impl/usb.py:67-68 | the writes that send a packet are the non-empty ones, so there are no more of them than there are writes |
| Usb.ReplyWrites | nut_impl/usb.py:67-72 | a route's writes put at most eight chunks per non-empty write on the OUT endpoint, all with the ten-minute timeout |
| Usb.ReplyWritesFrames | nut_impl/usb.py:59-72 | when everything fits, a route's writes leave eight chunks per non-empty write on the OUT endpoint, and their bytes are one framed packet per non-empty write, in order |
| Usb.LastPayload | nut_impl/usb.py:71 | the payload left after the writes is the old one or the data of one of the non-empty writes |
| Usb.LastPayloadIsLastReply | nut_impl/usb.py:71 | after the writes the packet's payload is the data of the last non-empty write, or unchanged when there was none |
| Usb.Respond | nut_impl/usb.py:171-172 | a route's writes leave the reply chunks on the OUT endpoint, stop at the first send that raises, and succeed exactly when every reply fits; on success bytesSent grows by the total reply length and the payload is the last reply |
| Usb.Split | nut_impl/usb.py:84 | `str.split` gives at least one piece, and no piece holds the separator |
| Usb.JoinSplit | nut_impl/usb.py:84 | joining the pieces with the separator gives back the string |
| Usb.NonEmpty | nut_impl/usb.py:84 | the kept pieces are exactly the non-empty pieces of the input |
| Usb.Bits | nut_impl/usb.py:84 | every path segment is non-empty and holds no slash, and every non-empty piece of the split on '/' is a segment |
| Usb.ConcatSplit | nut_impl/usb.py:84 | the pieces of a split, read together, are the string with the separators removed |
| Usb.ConcatNonEmpty | nut_impl/usb.py:84 | dropping the empty pieces removes no characters |
| Usb.BitsSpellPath | nut_impl/usb.py:84 | read together, the path segments spell the path with its slashes taken out |
| Usb.FirstEmpty | nut_impl/usb.py:87-91 | the position of the first key whose value list is empty, before which every list is non-empty |
| Usb.UsbRequest.constructor | nut_impl/usb.py:76-93 | path is the URL, head is false, headers and user are empty, bits are the path's segments; every query key keeps its place, values before the first empty list are collapsed to their first element, and from there on they stay lists |
| Usb.PollOnce | nut_impl/usb.py:164-176 | one turn reads the 32-byte header with timeout 0, and on a good frame the payload with timeout 0; it routes exactly the good command-1 frames, reports any other good command as unknown, and writes nothing unless it routed; the packet keeps every header field it received, keeps its payload on a bad frame, holds the received payload after an unknown command, and holds the last reply after a route that succeeds, which it does exactly when every reply fits |
| Usb.UnknownThenForward | nut_impl/usb.py:166-174 | an unknown-command packet is consumed whole, so the command-1 packet after it is received intact on the next turn |
| Usb.FindFirst | nut_impl/usb.py:181-191 | the first device on the bus with the given identity, or the bus length when there is none |
| Usb.GetDevice | nut_impl/usb.py:179-193 | a probe returns the first custom-firmware device if any is present; otherwise it returns the first stock-firmware device, and finds one exactly when one is present |
| Progress.Tracker.IsOpen | nut_impl/status.py:134-135 | a tracker value is open exactly when its size is not None |
| Progress.Status.IsOpen | nut_impl/status.py:134-135 | a tracker is open exactly when its size field is not None |
| Progress.Status.constructor | nut_impl/status.py:82-100 | a new tracker has zero counts, no id, both clock fields set to now, its description, and a bar built with its size, slot, unit and description |
| Progress.Status.Add | nut_impl/status.py:102-109 | an open tracker adds v to both i and a, and nothing else changes; a closed tracker is untouched |
| Progress.Status.Update | nut_impl/status.py:111-112 | update behaves exactly as add |
| Progress.Status.Close | nut_impl/status.py:117-124 | afterwards the tracker is closed; an open one loses its size and bar, and a closed one is untouched, so closing twice changes nothing |
| Progress.Status.SetDescription | nut_impl/status.py:126-132 | the description, None included, is always stored; a failing relabel of an open tracker closes it; nothing else changes |
| Progress.Status.Sample | nut_impl/status.py:45-58 | a sampled tracker yields its record and gets `a = 0` and `ats = now`; any other tracker yields nothing and is untouched |
| Progress.FirstClosed | nut_impl/status.py:63-68 | the slot create picks is closed, or is the end of the list, and every slot before it is open |
| Progress.FirstClosedAfterClose | nut_impl/status.py:61-78 | after slot k is closed, the next create picks k, unless a lower slot was already free |
| Progress.Sampled | nut_impl/status.py:45-57 | a tracker is sampled only when open, and not when the speed division by now - ats is by zero |
| Progress.RecordOf | nut_impl/status.py:47-54 | the speed's denominator is zero exactly when now == ats, so it is non-zero for every sampled tracker |
| Progress.Snapshot | nut_impl/status.py:43-54 | the report one tick builds has at most one record per slot |
| Progress.AfterTick | nut_impl/status.py:55-56 | a tick keeps open-ness, slot, size, total count, id, start time, label and bar; a sampled tracker gets `a = 0` and `ats = now`, and any other tracker is unchanged |
| Progress.AfterTickSettles | nut_impl/status.py:44-56 | right after a tick no tracker is sampled at the same clock, so a second tick at that clock changes nothing |
| Progress.SnapshotAppend | nut_impl/status.py:43-58 | the report over two runs of slots is the report of the first followed by the report of the second |
| Progress.SnapshotOfOne | nut_impl/status.py:45-54 | a slot contributes its tracker's record exactly when the tracker is sampled |
| Progress.SnapshotBound | nut_impl/status.py:44-45 | a report has no more records than there are open trackers |
| Progress.SnapshotCoversOpen | nut_impl/status.py:44-56 | when the clock has moved on for every open tracker, each open tracker has a record |
| Progress.SnapshotOfClosed | nut_impl/status.py:43-45 | with no open tracker the report is empty |
| Progress.Registry.constructor | nut_impl/status.py:8-11 | the registry starts with no slots, an empty report and the run flag set |
| Progress.Registry.Create | nut_impl/status.py:61-78 | the new tracker takes the first closed slot, or a new slot at the end; it is built with the arguments; every other slot keeps its tracker; slot positions stay right |
| Progress.Registry.IsActive | nut_impl/status.py:25-29 | true if and only if some slot holds an open tracker |
| Progress.Registry.PrintTarget | nut_impl/status.py:14-22 | a line goes through the bar of the first open tracker whose bar write succeeds, and to plain output only when there is none |
| Progress.Registry.Data | nut_impl/status.py:32-34 | `data()` returns the latest report as it stands |
| Progress.Registry.Tick | nut_impl/status.py:41-58 | slot positions stay right; the report is rebuilt as the records of the sampled trackers in slot order, and every tracker becomes its AfterTick value |
| Progress.Registry.Start | nut_impl/status.py:138-142 | the run flag is set |
| Progress.Registry.Close | nut_impl/status.py:145-147 | the run flag is cleared |

## Left out

- `getFiles` and `daemon`: they are outside this model. `getFiles` reads the file
  index of `nsps`. `daemon` resets and configures the device and looks up its
  endpoints through pyusb.
- `server.route` is a parameter of `PollOnce`: a function from the request
  payload to the bodies it writes. The router's use of the request descriptor
  is not modelled, so `PollOnce` passes the payload bytes through.
- PollOnce: does not decode the payload as UTF-8, and does not build the
  `UsbRequest` from it. The descriptor is modelled on its own by
  `UsbRequest.constructor`.
- A payload that is not valid UTF-8 makes usb.py raise out of the loop;
  the model does not capture that.
- `urlparse` and `parse_qs` are not part of this model. The `UsbRequest`
  constructor takes the path and the parsed query items, in insertion order.
- `server.NutRequest` and `server.NutResponse` are not part of this model. Only
  `bytesSent` and `headersSent` of the response base class are modelled.
  Respond assumes that every write the router makes reaches `_write` unchanged,
  and that the `with` block (`__enter__` and `__exit__`) writes nothing itself.
- Endpoint timeouts are only recorded in the read and write logs. Timeout
  errors and USB I/O errors are not modelled: a read returns what is pending.
- `printer` logging is left out. It never affects control flow.
- Bytes.Utf8Encode: encodes every Unicode scalar value. Python raises on lone
  surrogates, which Dafny's `char` does not produce.
- `getDevice`'s retry loop is left out. It sleeps a second and probes again
  forever, and is modelled as one probe round over the bus in enumeration
  order (`GetDevice` returns `None` for "probe again").
- Progress.Registry.Tick: one sampler tick with a single clock reading `now`.
  status.py calls `time.process_time()` up to three times per tracker.
  The `while threadRun and config.isRunning` loop, the half-second sleep and
  the thread itself are left out.
- The speed `a / (now - ats)` is floating point. A record carries its
  numerator and denominator instead.
- `lock` in `create` is left out, since concurrency is not modelled. If the
  tqdm constructor raises, status.py never releases the lock; the model
  assumes construction succeeds.
- Progress.Status.constructor: reads the clock once, so `ats` and `timestamp`
  are both `now`; status.py:88-89 calls `time.process_time()` twice.
- tqdm itself is reduced to the total, slot, unit and label the bar was
  built with. The fixed options `unit_scale`, `leave` and `ascii` are not kept. Its output,
  `update`, `write` and `set_description` are represented only by a boolean
  saying whether the call succeeded.
- `Status.__del__` calls `close` when a tracker is collected. Garbage
  collection is not modelled; `Status.Close` is.
- `config.isRunning` is not part of this model.
- Default arguments are not modelled; every call passes all its arguments.
  These are `timeout=60000` of `recv` and `send`, `v=1` of `add` and
  `update`, `desc=None, unit='B'` of `create` and `refresh=False` of
  `setDescription`.
