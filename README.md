# Transparent proxy relay core and administration client, in Dafny

This project models two sequential cores of a small C proxy.

The first is the relay of `src/trnsProxy.c`. It keeps a fixed table of `MAX_CLIENTS` (500)
connection slots. Each slot holds a client descriptor, an origin-server descriptor and two
bounded buffers of `BUFF_SIZE` (1024) bytes:

- `readBuff` carries client-to-origin bytes;
- `writeBuff` carries origin-to-client bytes.

Each iteration of the event loop does three things to the table:

- it computes the read and write descriptor sets and `max_sd` for `select`;
- it stores an accepted connection in the first slot whose client descriptor is 0;
- it services every slot whose descriptors `select` reported ready.

Servicing means reading into a buffer, marking a side closed on a read of 0 bytes, or
sending from a buffer.

The second is the administration client of `src/client.c`. Its request serialiser lays
out the version byte, token, method, target, data length and a method/target-dependent
payload. Its response decoder dispatches on the status byte, decodes a big-endian length
and counter, and renders a NUL-separated list of names.

Files:

- `bytes.dfy` (module `Bytes`): `byte`, `uint16`, `uint32`.
- `wrappers.dfy` (module `Wrappers`): `Option`.
- `buffer.dfy` (module `BoundedBuffer`): the buffer behind the `buffer.h` calls.
- `trns_proxy.dfy` (module `TrnsProxy`): slots, interest sets, servicing, the `Relay` class.
- `client_request.dfy` (module `ClientRequest`): `serialize_request` and `serialize_config_data`.
- `client_response.dfy` (module `ClientResponse`): the response handling in `main`.

How the model treats the outside world:

- The operating system is an input. `select` is a pair of ready sets. `read` and `recv`
  return the bytes they stored, where an empty sequence is a return value of 0. `send`
  returns a count. The ready sets are arbitrary: they are not limited to the interest
  sets the loop builds, as `select` would limit them. Every contract therefore also
  covers descriptors `select` would never report, which is a sound over-approximation.
- `include/buffer.h` is not part of this model. Its behaviour is an ASSUMPTION stated in
  `buffer.dfy`: a linear buffer with `0 <= rd <= wr <= capacity`, free space
  `capacity - wr`, pending count `wr - rd`, `CanWrite` iff free space > 0 and `CanRead`
  iff pending > 0. Advancing requires the count to be within those bounds. Nothing moves
  the cursors back.
- `clientargs.h` is not part of this model. `client_request_args` becomes a tagged variant
  (`Command`), one alternative per method/target pair. The serialized request is a record
  whose `data` is the bytes the serialiser writes at the start of the data array.

The relay tables record the code's behaviour, which differs from a tidier design in
several places. The model follows the code in each case:

- A read of 0 bytes clears only that side's descriptor. The other side stays open and
  both buffers keep their contents.
- A slot with one side cleared takes no part in `select`. If it was the origin side, the
  slot is never reused, because allocation looks only at the client descriptor.
- A reused slot keeps its old buffers. Its old origin descriptor is overwritten.
- With the table full, the accepted descriptor is neither stored nor closed.
- There is no connecting state. Under the buffer assumption above, buffers are never
  compacted, so each one takes in at most `BUFF_SIZE` bytes over the slot's whole life,
  reuse included, because allocation keeps the buffers. After that, the side feeding the
  buffer is never read again (`IntakeUsesFreeSpace`).
- Servicing tests readiness with the descriptors the slot held at the start of the
  iteration, even after a read of 0 bytes cleared one of them.

## Model

| member | source | states |
|---|---|---|
| `BoundedBuffer.Init` | src/trnsProxy.c:56-57 | `bufferInit` gives a valid buffer of the given capacity with nothing pending and all of it free |
| `BoundedBuffer.Buffer.AdvanceWrite` | src/trnsProxy.c:199-227 | a read of `data` (at most the free space) keeps `rd <= wr <= cap`, moves only the write cursor by the length of `data`, appends exactly `data` to the pending bytes and shrinks the free space by that length |
| `BoundedBuffer.Buffer.AdvanceRead` | src/trnsProxy.c:250-254 | a send of `n` (at most the pending count) keeps the cursor invariant, moves only the read cursor by `n`, removes exactly the first `n` pending bytes and leaves the free space unchanged |
| `BoundedBuffer.FreeSpaceNeverGrows` | src/trnsProxy.c:250-260 | under the linear-buffer assumption, no buffer operation the loop performs increases the free space, so a full buffer stays full |
| `TrnsProxy.SlotReadFds` | src/trnsProxy.c:122-127 | a slot adds to `readfds` only its own positive descriptors, and nothing unless both descriptors are set |
| `TrnsProxy.SlotWriteFds` | src/trnsProxy.c:129-133 | a slot adds to `writefds` only its own positive descriptors, and nothing unless both descriptors are set |
| `TrnsProxy.InterestMembers` | src/trnsProxy.c:116-139 | a descriptor is in the table's read (write) interest iff some slot contributes it |
| `TrnsProxy.Backpressure` | src/trnsProxy.c:122-133 | for a paired slot in a table with distinct descriptors: client readable-interest iff `readBuff` has free space, origin readable-interest iff `writeBuff` has free space, client writable-interest iff `writeBuff` has pending bytes, origin writable-interest iff `readBuff` has pending bytes |
| `TrnsProxy.UnpairedNotWatched` | src/trnsProxy.c:122 | a slot without both descriptors set has neither descriptor in the read or write set |
| `TrnsProxy.ClientRead` | src/trnsProxy.c:198-229 | a read of 0 bytes sets only the client descriptor to 0 (origin descriptor and both buffers unchanged); a read of n > 0 bytes keeps the descriptors and appends the n bytes to `readBuff` |
| `TrnsProxy.OriginRead` | src/trnsProxy.c:231-248 | the same on the origin side: 0 bytes sets only `originFd` to 0; n > 0 bytes are appended to `writeBuff` |
| `TrnsProxy.OriginSend` | src/trnsProxy.c:250-254 | a send of n bytes to the origin removes exactly the first n pending bytes of `readBuff`; descriptors and `writeBuff` unchanged |
| `TrnsProxy.ClientSend` | src/trnsProxy.c:256-260 | a send of n bytes to the client removes exactly the first n pending bytes of `writeBuff`; descriptors and `readBuff` unchanged |
| `TrnsProxy.AfterReads` | src/trnsProxy.c:198-248 | after the two reads, each buffer's pending bytes are the old ones followed by what was read into it |
| `TrnsProxy.Service` | src/trnsProxy.c:188-261 | servicing keeps the slot valid; a descriptor is cleared exactly when it was ready to read and its read returned 0, and is otherwise unchanged; each buffer's free space shrinks by exactly the bytes read into it |
| `TrnsProxy.ServiceRelaysInOrder` | src/trnsProxy.c:198-260 | in each direction, bytes sent in the iteration followed by bytes still pending equal bytes pending before followed by bytes read in the iteration |
| `TrnsProxy.ClientToOriginInOrder` | src/trnsProxy.c:198-254 | over any run of iterations, what is sent to the origin followed by what is buffered equals what was buffered followed by what the client sent; the origin gets a prefix of the client's stream, in order |
| `TrnsProxy.OriginToClientInOrder` | src/trnsProxy.c:231-260 | the same from origin to client |
| `TrnsProxy.IntakeUsesFreeSpace` | src/trnsProxy.c:198-248 | over any run, the bytes each buffer took in plus its remaining free space equal its free space at the start, so no buffer takes in more than `BUFF_SIZE` bytes in a slot's life |
| `TrnsProxy.FirstFree` | src/trnsProxy.c:165-167 | the result is the lowest index whose client descriptor is 0, or none when every slot's client descriptor is non-zero |
| `TrnsProxy.Relay.constructor` | src/trnsProxy.c:52-58 | every slot starts with `fd == 0`, `originFd == 0` and two empty buffers of capacity `BUFF_SIZE`; the table invariant holds |
| `TrnsProxy.Relay.ComputeInterest` | src/trnsProxy.c:107-139 | the read set is the listening socket plus every slot's read interest, the write set every slot's write interest; `max_sd` is at least the listening socket and every slot's `fd` and `originFd`, and equal to one of them |
| `TrnsProxy.Relay.Accept` | src/trnsProxy.c:165-184 | the new descriptors go to the first slot with `fd == 0`, whose buffers are not reset; no other slot changes; with no free slot nothing changes; the table invariant is kept |
| `TrnsProxy.Relay.ServiceSlot` | src/trnsProxy.c:189-260 | slot `i` becomes `Service` of its old value, the bytes handed to each `send` are returned, and no other slot changes |
| `TrnsProxy.Relay.ServiceAll` | src/trnsProxy.c:188-261 | after the loop every slot is `Service` of its old value and the table invariant holds |
| `ClientRequest.Credentials` | src/client.c:204-223 | the add payload is the user bytes, then the separator, then the password or token bytes |
| `ClientRequest.SerializeConfigData` | src/client.c:193-229 | toggle: one byte, the value truncated to 8 bits; add proxy/admin user: the credentials layout; delete proxy/admin user: the first `dlen` bytes of the user array |
| `ClientRequest.SerializeRequest` | src/client.c:168-191 | version is 1, token copied verbatim, method and `dlen` copied unchanged (no byte swap), target from the command; `get` carries its one optional byte, `config` the config payload |
| `ClientRequest.CredentialsSplitBack` | src/client.c:204-223 | splitting the add payload at the first separator gives back user and secret iff the separator does not occur in the user name |
| `ClientRequest.ConfigDataRoundTrip` | src/client.c:193-229 | the payload of every representable config command decodes back to the same command |
| `ClientResponse.StatusOf` | src/client.c:88-96 | bytes 0x00 to 0x06 are the seven statuses, each read back from its code; any other byte is none |
| `ClientResponse.StatusRoundTrip` | src/client.c:88-96 | each status is read back from its own code |
| `ClientResponse.Be16RoundTrip` | src/client.c:101-103 | `dlen = buf[1]*256 + buf[2]` inverts the big-endian 16-bit encoding, both ways |
| `ClientResponse.Be32RoundTrip` | src/client.c:108-111 | the counter `buf[3]*2^24 + buf[4]*2^16 + buf[5]*2^8 + buf[6]` inverts the big-endian 32-bit encoding, both ways |
| `ClientResponse.RenderNames` | src/client.c:121-127 | one output byte per input byte, each NUL replaced by a newline and every other byte unchanged |
| `ClientResponse.RenderList` | src/client.c:121-128 | the output is `buf[3..3+dlen)` rendered byte by byte followed by one newline |
| `ClientResponse.RenderJoinedNames` | src/client.c:118-128 | a NUL-separated list of NUL-free names prints as the same names separated by newlines |
| `ClientResponse.Decode` | src/client.c:98-158 | status > 0x06: no output; 0x01 to 0x06: that status's fixed message; 0x00 for a config: the success message; 0x00 for a numeric get: the big-endian counter; 0x00 for a list get: the rendered list, given by the corrected `RenderList`. For `dlen >= 65533` the code as written loops forever instead (see "## Findings") |
| `ClientResponse.ErrorOutcomeDependsOnStatusOnly` | src/client.c:138-157 | for a non-zero status the outcome depends on the status byte alone, and the six error statuses give six different outcomes |
| `ClientResponse.ListLoopAsWritten` | src/client.c:121-127 | the loop as written, with its wrapping 16-bit counter, can exit only if `dlen + 3` fits in 16 bits, and then it has printed one byte for each counter value below `dlen + 3` |
| `ClientResponse.ListLoopNeverExits` | src/client.c:121 | the list loop as written, with its 16-bit counter, never exits for `dlen >= 65533` |
| `ClientResponse.ListLoopAgreesBelowBound` | src/client.c:121-127 | for `dlen < 65533` the loop as written prints exactly what `RenderList` prints before its final newline |

## Left out

- Socket creation, `setsockopt`, `bind`, `listen`, `getaddrinfo`, `select`, `accept`, `connect`, `getpeername`, `close` and all logging: these are I/O. Their results are method parameters, and a `close` shows only as the descriptor field becoming 0.
- The welcome message `send` after `accept`: I/O with no effect on the table.
- Failure of the origin `socket` or `connect` inside the allocation loop: the process exits. `Relay.Accept` requires the two new descriptors to be fresh, as the operating system guarantees for descriptors it returns.
- Negative return values of `read`, `recv` and `send`: the code passes them unchecked to the advance calls. The model requires `0 <= n <= bound` instead.
- `FD_SETSIZE`: descriptor sets are unbounded `set<int>` values.
- The contents of the buffers' storage before any read: the C arrays are uninitialised, while the model starts from zeros. Only bytes that were read are ever pending or sent.
- Relay.ServiceSlot: the C updates the slot's fields in place. The model computes the new slot in a local variable and stores it back once. The result is the same because only slot `i` is touched.
- The connecting state, non-blocking connect, two-sided teardown, and closing the accepted descriptor when the table is full. The code has none of them, so the model has none either. Buffer compaction is absent by the buffer assumption: whether `advanceReadPtr` compacts is decided in `include/buffer.h`, which is not part of this model. A tidier design would have them; the model follows the code.
- `parse_args`, the client's socket connect, its `send` of `sizeof(request) - DATA_SIZE + dlen` bytes, its `close`, and the `recv` loop. That loop stores every chunk at the start of `buf`. The model takes `buf` as the whole receive array.
- `TOKEN_SIZE`, `DATA_SIZE` and the struct layout are in `clientargs.h`, which is not part of this model. The token is kept as a sequence copied verbatim, and the payload is not bounded by `DATA_SIZE`. `dlen` is kept as a number. The code does not byte-swap it, so on the wire it is in host byte order.
- The default branches of the method switch and the get-target switch: the tagged `Command` variant has no other methods or targets.
- `printf` text. Each message is an `Outcome` constructor. The counters are printed with `%d`, so values of 2^31 and above would print as negative numbers; the model keeps the unsigned value.
- The `static` scratch variables of the decoder: each decode is a function of its inputs.

## Findings

| source | as written | input that shows it | evidently intended | confidence | as-written member | corrected member |
|---|---|---|---|---|---|---|
| src/client.c:121 | The list loop counts with a 16-bit unsigned counter that starts at 3 and wraps to 0 after 65535. Its guard compares the counter with `dlen + 3`, computed in `int`. | A response with status 0x00 to a `get` of a user list whose length bytes are 0xFF 0xFF (`dlen` = 65535; any `dlen` >= 65533 does it). `dlen + 3` is at least 65536, larger than any counter value, so the loop prints forever. | Print the `dlen` bytes `buf[3..3+dlen)` and stop. | high for `dlen >= 65533`, not executed | `ClientResponse.ListLoopNeverExits` | `ClientResponse.RenderList` |
