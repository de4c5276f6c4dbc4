/**
 * The response side of the administration client (src/client.c, `main` after the
 * receive loop): dispatch on the status byte, decode the big-endian data length and
 * counter, and render a NUL-separated list of names one per line.
 *
 * `buf` is the whole receive array of `MAX_BYTES_DATA` bytes, as the code reads fixed
 * positions in it whatever was received. What would be printed is returned as an
 * `Outcome` instead.
 */
module ClientResponse {
  import opened Bytes
  import opened Wrappers
  import opened ClientRequest

  /** Size of the receive array (65536 data bytes plus status and length). */
  const MAX_BYTES_DATA: nat := 65536 + 3

  /** The newline byte `putchar('\n')` writes. */
  const NEWLINE: byte := 10

  /** `monitor_resp_status`. */
  datatype Status = Ok | InvalidVersion | InvalidMethod | InvalidTarget | InvalidData | ErrorAuth | ServerError

  /** The wire value of each status. */
  function StatusCode(st: Status): byte {
    match st
    case Ok => 0x00
    case InvalidVersion => 0x01
    case InvalidMethod => 0x02
    case InvalidTarget => 0x03
    case InvalidData => 0x04
    case ErrorAuth => 0x05
    case ServerError => 0x06
  }

  /** The status a byte stands for; bytes above 0x06 stand for none. */
  function StatusOf(b: byte): (r: Option<Status>)
    ensures r.Some? <==> b <= 0x06
    ensures r.Some? ==> StatusCode(r.value) == b
  {
    if b == 0x00 then Some(Ok)
    else if b == 0x01 then Some(InvalidVersion)
    else if b == 0x02 then Some(InvalidMethod)
    else if b == 0x03 then Some(InvalidTarget)
    else if b == 0x04 then Some(InvalidData)
    else if b == 0x05 then Some(ErrorAuth)
    else if b == 0x06 then Some(ServerError)
    else None
  }

  /** Each status is read back from its own code. */
  lemma StatusRoundTrip(st: Status)
    ensures StatusOf(StatusCode(st)) == Some(st)
  {
  }

  /** What the client prints for a response. */
  datatype Outcome =
    | ConfigSucceeded                       // the configuration success message
    | Counter(counterTarget: GetTarget, value: uint32)
    | UserList(listTarget: GetTarget, text: seq<byte>)
    | Refused(status: Status)               // the fixed message of an error status
    | NoOutput

  // ---------------------------------------------------------------------------------
  // Network byte order
  // ---------------------------------------------------------------------------------

  /** `ntohs` of two bytes in memory order. */
  function Be16(hi: byte, lo: byte): uint16 {
    hi * 0x100 + lo
  }

  /** `ntohl` of four bytes in memory order:
      `b0 * 2^24 + b1 * 2^16 + b2 * 2^8 + b3`. */
  function Be32(b0: byte, b1: byte, b2: byte, b3: byte): uint32 {
    ((b0 * 0x100 + b1) * 0x100 + b2) * 0x100 + b3
  }

  /** The two bytes a sender puts on the wire for `n` (`htons`). */
  function Be16Bytes(n: uint16): (b: seq<byte>)
    ensures |b| == 2
  {
    [n / 0x100, n % 0x100]
  }

  /** The four bytes a sender puts on the wire for `n` (`htonl`), most significant first. */
  function Be32Bytes(n: uint32): (b: seq<byte>)
    ensures |b| == 4
  {
    var m1 := n / 0x100;
    var m2 := m1 / 0x100;
    [m2 / 0x100, m2 % 0x100, m1 % 0x100, n % 0x100]
  }

  /** The 16-bit decoding inverts the encoding, in both directions. */
  lemma Be16RoundTrip(n: uint16, hi: byte, lo: byte)
    ensures var b := Be16Bytes(n); Be16(b[0], b[1]) == n
    ensures Be16Bytes(Be16(hi, lo)) == [hi, lo]
  {
  }

  /** The 32-bit decoding inverts the encoding, in both directions. */
  lemma Be32RoundTrip(n: uint32, b0: byte, b1: byte, b2: byte, b3: byte)
    ensures var b := Be32Bytes(n); Be32(b[0], b[1], b[2], b[3]) == n
    ensures Be32Bytes(Be32(b0, b1, b2, b3)) == [b0, b1, b2, b3]
  {
    var m1 := n / 0x100;
    var m2 := m1 / 0x100;
    assert m2 == (m2 / 0x100) * 0x100 + m2 % 0x100;
    assert m1 == m2 * 0x100 + m1 % 0x100;
    assert n == m1 * 0x100 + n % 0x100;
    var x := Be32(b0, b1, b2, b3);
    DivBy256(x, (b0 * 0x100 + b1) * 0x100 + b2, b3);
    DivBy256((b0 * 0x100 + b1) * 0x100 + b2, b0 * 0x100 + b1, b2);
    DivBy256(b0 * 0x100 + b1, b0, b1);
  }

  /** Division by 256 recovers the quotient and the remainder it was built from. */
  lemma DivBy256(x: int, q: int, r: int)
    requires 0 <= r < 0x100 && x == q * 0x100 + r
    ensures x / 0x100 == q && x % 0x100 == r
  {
  }

  // ---------------------------------------------------------------------------------
  // Rendering a list of names
  // ---------------------------------------------------------------------------------

  /** The character printed for one byte of a list: a NUL separator becomes a newline. */
  function Glyph(b: byte): byte {
    if b == 0 then NEWLINE else b
  }

  /** The list loop's output for `body`: each byte printed as its glyph. */
  function RenderNames(body: seq<byte>): (out: seq<byte>)
    ensures |out| == |body|
    ensures forall k :: 0 <= k < |body| ==> out[k] == Glyph(body[k])
    ensures 0 !in out
  {
    if body == [] then [] else [Glyph(body[0])] + RenderNames(body[1..])
  }

  /** The list loop as intended: the `dlen` bytes after the length field rendered
      byte by byte, followed by one newline for the last name. */
  function RenderList(buf: seq<byte>, dlen: uint16): (out: seq<byte>)
    requires |buf| == MAX_BYTES_DATA
    ensures |out| == dlen + 1 && out[dlen] == NEWLINE
    ensures forall k :: 0 <= k < dlen ==> out[k] == Glyph(buf[3 + k])
  {
    RenderNames(buf[3..3 + dlen]) + [NEWLINE]
  }

  /** Names separated by `sep`, with no trailing separator. */
  function Join(names: seq<seq<byte>>, sep: byte): seq<byte> {
    if names == [] then []
    else if |names| == 1 then names[0]
    else names[0] + [sep] + Join(names[1..], sep)
  }

  /** A NUL-separated list of names (none containing NUL) is printed as the same names
      one per line. */
  lemma {:induction false} RenderJoinedNames(names: seq<seq<byte>>)
    requires forall i :: 0 <= i < |names| ==> 0 !in names[i]
    ensures RenderNames(Join(names, 0)) == Join(names, NEWLINE)
  {
    if |names| == 1 {
      RenderNamesUnchanged(names[0]);
    } else if |names| > 1 {
      var first, rest := names[0], names[1..];
      assert Join(names, 0) == (first + [0]) + Join(rest, 0);
      assert Join(names, NEWLINE) == (first + [NEWLINE]) + Join(rest, NEWLINE);
      RenderJoinedNames(rest);
      RenderNamesAppend(first + [0], Join(rest, 0));
      RenderNamesAppend(first, [0]);
      RenderNamesUnchanged(first);
      assert RenderNames([0]) == [NEWLINE];
    }
  }

  /** Rendering distributes over concatenation. */
  lemma RenderNamesAppend(a: seq<byte>, b: seq<byte>)
    ensures RenderNames(a + b) == RenderNames(a) + RenderNames(b)
  {
    assert forall k :: 0 <= k < |a| ==> (a + b)[k] == a[k];
    assert forall k :: 0 <= k < |b| ==> (a + b)[|a| + k] == b[k];
  }

  /** A name without NUL bytes is printed as it is. */
  lemma RenderNamesUnchanged(name: seq<byte>)
    requires 0 !in name
    ensures RenderNames(name) == name
  {
  }

  // ---------------------------------------------------------------------------------
  // The response dispatch
  // ---------------------------------------------------------------------------------

  predicate IsNumeric(t: GetTarget) {
    t == HistoricConnections || t == ConcurrentConnections || t == TransferredBytes
  }

  /** What `main` prints for the response in `buf` to a request made with `args`, with
      one exception: for a user-list get with a data length of 65533 or more the loop as
      written never terminates (see `ListLoopNeverExits`), and `Decode` gives the intended
      output `RenderList` instead. */
  function Decode(args: RequestArgs, buf: seq<byte>): (r: Outcome)
    requires |buf| == MAX_BYTES_DATA
    ensures buf[0] > 0x06 ==> r == NoOutput
    ensures 0x01 <= buf[0] <= 0x06 ==> r == Refused(StatusOf(buf[0]).value)
    ensures buf[0] == 0x00 && MethodOf(args.command) == Config ==> r == ConfigSucceeded
    ensures buf[0] == 0x00 && args.command.GetCommand? && IsNumeric(args.command.getTarget) ==>
              r == Counter(args.command.getTarget, Be32(buf[3], buf[4], buf[5], buf[6]))
    ensures buf[0] == 0x00 && args.command.GetCommand? && !IsNumeric(args.command.getTarget) ==>
              r == UserList(args.command.getTarget, RenderList(buf, Be16(buf[1], buf[2])))
  {
    match StatusOf(buf[0])
    case None => NoOutput
    case Some(Ok) =>
      if args.command.GetCommand? then
        var dlen := Be16(buf[1], buf[2]);
        var target := args.command.getTarget;
        if IsNumeric(target) then Counter(target, Be32(buf[3], buf[4], buf[5], buf[6]))
        else UserList(target, RenderList(buf, dlen))
      else ConfigSucceeded
    case Some(st) => Refused(st)
  }

  /** Outside status 0x00 the outcome depends on the status byte alone, and the six error
      statuses give six different messages. */
  lemma ErrorOutcomeDependsOnStatusOnly(a1: RequestArgs, b1: seq<byte>, a2: RequestArgs, b2: seq<byte>)
    requires |b1| == MAX_BYTES_DATA && |b2| == MAX_BYTES_DATA
    requires b1[0] != 0x00 && b2[0] != 0x00
    ensures b1[0] == b2[0] ==> Decode(a1, b1) == Decode(a2, b2)
    ensures b1[0] <= 0x06 && b2[0] <= 0x06 ==> (Decode(a1, b1) == Decode(a2, b2) <==> b1[0] == b2[0])
  {
  }

  // ---------------------------------------------------------------------------------
  // The list loop as written
  // ---------------------------------------------------------------------------------

  /** The list loop of `main` as written: the counter `i` is 16 bits wide and starts at
      3, the guard compares it with `dlen + 3` computed in `int`, and the increment wraps
      modulo 2^16. Returns the bytes printed before the loop exits, or None if it has
      not exited after `fuel` more iterations. The loop can exit only when `dlen + 3`
      fits in the counter, and then it has printed one byte per value of `i` below it. */
  function ListLoopAsWritten(buf: seq<byte>, dlen: uint16, i: uint16, fuel: nat): (r: Option<seq<byte>>)
    requires |buf| == MAX_BYTES_DATA
    ensures r.Some? ==> dlen + 3 < 0x1_0000
    ensures r.Some? ==> |r.value| == if i >= dlen + 3 then 0 else dlen + 3 - i
    decreases fuel
  {
    if i >= dlen + 3 then Some([])
    else if fuel == 0 then None
    else
      match ListLoopAsWritten(buf, dlen, (i + 1) % 0x1_0000, fuel - 1)
      case None => None
      case Some(rest) => Some([Glyph(buf[i])] + rest)
  }

  /** For a data length of 65533 or more, `dlen + 3` exceeds every value the counter can
      hold, so the loop never exits, however many iterations are allowed. */
  lemma {:induction false} ListLoopNeverExits(buf: seq<byte>, dlen: uint16, i: uint16, fuel: nat)
    requires |buf| == MAX_BYTES_DATA && dlen >= 65533
    ensures ListLoopAsWritten(buf, dlen, i, fuel) == None
    decreases fuel
  {
    if fuel > 0 {
      ListLoopNeverExits(buf, dlen, (i + 1) % 0x1_0000, fuel - 1);
    }
  }

  /** Below that bound the loop as written prints exactly what `RenderList` prints
      before its final newline. */
  lemma {:induction false} ListLoopAgreesBelowBound(buf: seq<byte>, dlen: uint16, i: uint16, fuel: nat)
    requires |buf| == MAX_BYTES_DATA && dlen < 65533
    requires 3 <= i <= dlen + 3 && fuel >= dlen + 3 - i
    ensures ListLoopAsWritten(buf, dlen, i, fuel) == Some(RenderNames(buf[i..dlen + 3]))
    decreases fuel
  {
    if i < dlen + 3 {
      ListLoopAgreesBelowBound(buf, dlen, i + 1, fuel - 1);
      assert buf[i..dlen + 3] == [buf[i]] + buf[i + 1..dlen + 3];
    }
  }
}
