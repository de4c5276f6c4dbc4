/**
 * The connection-slot table of the transparent proxy (src/trnsProxy.c) and the three
 * things its event loop does to it on every iteration: compute the descriptors it is
 * interested in, store an accepted connection in the first free slot, and service the
 * descriptors `select` reported ready.
 *
 * The operating system is not modelled: what `select` reports is a pair of ready sets,
 * what `read`/`recv` return is the sequence of bytes they stored (empty for a return
 * value of 0), and what `send` returns is a byte count.
 */
module TrnsProxy {
  import opened Bytes
  import opened Wrappers
  import opened BoundedBuffer

  /** Number of slots in the table. */
  const MAX_CLIENTS: nat := 500

  /** Capacity of each of a slot's two buffers. */
  const BUFF_SIZE: nat := 1024

  /** One entry of `client_socket`: the accepted client descriptor (0 when the slot is
      free), the buffer carrying origin-to-client bytes, the buffer carrying
      client-to-origin bytes, and the origin server descriptor. */
  datatype Slot = Slot(fd: int, writeBuff: Buffer, readBuff: Buffer, originFd: int)

  /** Cursor invariants of both buffers, their fixed capacity, and descriptors that are
      either 0 (unused) or a real descriptor. */
  predicate SlotValid(s: Slot) {
    && s.fd >= 0 && s.originFd >= 0
    && s.readBuff.Valid() && s.writeBuff.Valid()
    && s.readBuff.Capacity() == BUFF_SIZE && s.writeBuff.Capacity() == BUFF_SIZE
  }

  predicate AllValid(t: seq<Slot>) {
    forall i :: 0 <= i < |t| ==> SlotValid(t[i])
  }

  /** Both descriptors are set: only such a slot takes part in `select`. */
  predicate Paired(s: Slot) {
    s.fd > 0 && s.originFd > 0
  }

  /** Whether descriptor `x` is one of the two a slot holds. */
  predicate Holds(s: Slot, x: int) {
    x == s.fd || x == s.originFd
  }

  /** No two slots hold the same non-zero descriptor, the two descriptors of a slot
      differ, and none is the listening socket: every non-zero descriptor in the table
      is open, and the operating system never hands out an open descriptor twice. */
  predicate DescriptorsDistinct(t: seq<Slot>, master: int) {
    && master > 0
    && (forall i :: 0 <= i < |t| ==>
          !Holds(t[i], master) && (t[i].fd != 0 ==> t[i].fd != t[i].originFd))
    && (forall i, j :: 0 <= i < |t| && 0 <= j < |t| && i != j ==>
          (t[i].fd != 0 ==> !Holds(t[j], t[i].fd)) &&
          (t[i].originFd != 0 ==> !Holds(t[j], t[i].originFd)))
  }

  // ---------------------------------------------------------------------------------
  // Interest computation (the FD_SET calls of the loop body)
  // ---------------------------------------------------------------------------------

  /** Descriptors slot `s` adds to `readfds`: the client while the client-to-origin
      buffer has room, the origin while the origin-to-client buffer has room. */
  function SlotReadFds(s: Slot): (r: set<int>)
    requires SlotValid(s)
    ensures !Paired(s) ==> r == {}
    ensures forall x :: x in r ==> Holds(s, x) && x > 0
  {
    if !Paired(s) then {}
    else
      (if s.readBuff.CanWrite() then {s.fd} else {}) +
      (if s.writeBuff.CanWrite() then {s.originFd} else {})
  }

  /** Descriptors slot `s` adds to `writefds`: the client while origin-to-client bytes
      are pending, the origin while client-to-origin bytes are pending. */
  function SlotWriteFds(s: Slot): (r: set<int>)
    requires SlotValid(s)
    ensures !Paired(s) ==> r == {}
    ensures forall x :: x in r ==> Holds(s, x) && x > 0
  {
    if !Paired(s) then {}
    else
      (if s.writeBuff.CanRead() then {s.fd} else {}) +
      (if s.readBuff.CanRead() then {s.originFd} else {})
  }

  /** Union of the slots' read interest, slot by slot. */
  function ReadInterest(t: seq<Slot>): set<int>
    requires AllValid(t)
  {
    if t == [] then {} else ReadInterest(t[..|t| - 1]) + SlotReadFds(t[|t| - 1])
  }

  /** Union of the slots' write interest, slot by slot. */
  function WriteInterest(t: seq<Slot>): set<int>
    requires AllValid(t)
  {
    if t == [] then {} else WriteInterest(t[..|t| - 1]) + SlotWriteFds(t[|t| - 1])
  }

  /** The table's interest sets contain exactly what some slot contributes. */
  lemma {:induction false} InterestMembers(t: seq<Slot>, x: int)
    requires AllValid(t)
    ensures x in ReadInterest(t) <==> exists i :: 0 <= i < |t| && x in SlotReadFds(t[i])
    ensures x in WriteInterest(t) <==> exists i :: 0 <= i < |t| && x in SlotWriteFds(t[i])
  {
    if t != [] {
      var p := t[..|t| - 1];
      InterestMembers(p, x);
      assert forall i :: 0 <= i < |p| ==> p[i] == t[i];
      if x in SlotReadFds(t[|t| - 1]) {
        assert x in SlotReadFds(t[|t| - 1]);
      }
      if x in SlotWriteFds(t[|t| - 1]) {
        assert x in SlotWriteFds(t[|t| - 1]);
      }
    }
  }

  /** Backpressure, in both directions, and interest in writing only what is pending:
      for a paired slot of a table whose descriptors are distinct, its client is in the
      read set iff the client-to-origin buffer has free space, its origin is in the read
      set iff the origin-to-client buffer has free space, its client is in the write set
      iff origin-to-client bytes are pending, and its origin is in the write set iff
      client-to-origin bytes are pending. */
  lemma Backpressure(t: seq<Slot>, master: int, i: nat)
    requires AllValid(t) && DescriptorsDistinct(t, master)
    requires i < |t| && Paired(t[i])
    ensures t[i].fd in {master} + ReadInterest(t) <==> t[i].readBuff.FreeSpace() > 0
    ensures t[i].originFd in {master} + ReadInterest(t) <==> t[i].writeBuff.FreeSpace() > 0
    ensures t[i].fd in WriteInterest(t) <==> t[i].writeBuff.PendingRead() > 0
    ensures t[i].originFd in WriteInterest(t) <==> t[i].readBuff.PendingRead() > 0
  {
    OnlyOwnerContributes(t, master, i, t[i].fd);
    OnlyOwnerContributes(t, master, i, t[i].originFd);
  }

  /** A slot that is not paired (free, or with one side closed) contributes nothing:
      neither of its descriptors is watched for reading or writing. */
  lemma UnpairedNotWatched(t: seq<Slot>, master: int, i: nat)
    requires AllValid(t) && DescriptorsDistinct(t, master)
    requires i < |t| && !Paired(t[i])
    ensures t[i].fd !in WriteInterest(t) && t[i].originFd !in WriteInterest(t)
    ensures t[i].fd !in ReadInterest(t) && t[i].originFd !in ReadInterest(t)
  {
    OnlyOwnerContributes(t, master, i, t[i].fd);
    OnlyOwnerContributes(t, master, i, t[i].originFd);
  }

  /** A descriptor held by slot `i` is in an interest set only through slot `i`. */
  lemma OnlyOwnerContributes(t: seq<Slot>, master: int, i: nat, x: int)
    requires AllValid(t) && DescriptorsDistinct(t, master)
    requires i < |t| && Holds(t[i], x)
    ensures x in ReadInterest(t) <==> x in SlotReadFds(t[i])
    ensures x in WriteInterest(t) <==> x in SlotWriteFds(t[i])
  {
    InterestMembers(t, x);
    forall j | 0 <= j < |t| && j != i
      ensures x !in SlotReadFds(t[j]) && x !in SlotWriteFds(t[j])
    {
    }
  }

  // ---------------------------------------------------------------------------------
  // Servicing one slot (the body of the second `for` over the table)
  // ---------------------------------------------------------------------------------

  /** What the operating system does for one slot in one iteration: the bytes `read`
      stores from the client and `recv` stores from the origin (empty when the call
      returns 0), and the counts `send` returns towards the origin and the client. */
  datatype SlotIo = SlotIo(fromClient: seq<byte>, fromOrigin: seq<byte>, toOrigin: nat, toClient: nat)

  /** The client was readable: a return of 0 marks the slot's client side free (the
      descriptor is closed and set to 0) and changes nothing else; otherwise the bytes
      are appended to the client-to-origin buffer. */
  function ClientRead(s: Slot, data: seq<byte>): (r: Slot)
    requires SlotValid(s) && |data| <= s.readBuff.FreeSpace()
    ensures SlotValid(r)
    ensures r.originFd == s.originFd && r.writeBuff == s.writeBuff
    ensures data == [] ==> r.fd == 0 && r.readBuff == s.readBuff
    ensures data != [] ==> r.fd == s.fd
    ensures r.readBuff.Pending() == s.readBuff.Pending() + data
    ensures r.readBuff.FreeSpace() == s.readBuff.FreeSpace() - |data|
  {
    if data == [] then s.(fd := 0) else s.(readBuff := s.readBuff.AdvanceWrite(data))
  }

  /** The origin was readable: symmetric to `ClientRead`, on the origin descriptor and
      the origin-to-client buffer. */
  function OriginRead(s: Slot, data: seq<byte>): (r: Slot)
    requires SlotValid(s) && |data| <= s.writeBuff.FreeSpace()
    ensures SlotValid(r)
    ensures r.fd == s.fd && r.readBuff == s.readBuff
    ensures data == [] ==> r.originFd == 0 && r.writeBuff == s.writeBuff
    ensures data != [] ==> r.originFd == s.originFd
    ensures r.writeBuff.Pending() == s.writeBuff.Pending() + data
    ensures r.writeBuff.FreeSpace() == s.writeBuff.FreeSpace() - |data|
  {
    if data == [] then s.(originFd := 0) else s.(writeBuff := s.writeBuff.AdvanceWrite(data))
  }

  /** The origin was writable and `send` took `n` of the pending client-to-origin bytes:
      exactly those `n` leave the buffer, nothing else changes. */
  function OriginSend(s: Slot, n: nat): (r: Slot)
    requires SlotValid(s) && n <= s.readBuff.PendingRead()
    ensures SlotValid(r)
    ensures r.fd == s.fd && r.originFd == s.originFd && r.writeBuff == s.writeBuff
    ensures s.readBuff.Pending()[..n] + r.readBuff.Pending() == s.readBuff.Pending()
    ensures r.readBuff.FreeSpace() == s.readBuff.FreeSpace()
  {
    s.(readBuff := s.readBuff.AdvanceRead(n))
  }

  /** The client was writable and `send` took `n` of the pending origin-to-client bytes. */
  function ClientSend(s: Slot, n: nat): (r: Slot)
    requires SlotValid(s) && n <= s.writeBuff.PendingRead()
    ensures SlotValid(r)
    ensures r.fd == s.fd && r.originFd == s.originFd && r.readBuff == s.readBuff
    ensures s.writeBuff.Pending()[..n] + r.writeBuff.Pending() == s.writeBuff.Pending()
    ensures r.writeBuff.FreeSpace() == s.writeBuff.FreeSpace()
  {
    s.(writeBuff := s.writeBuff.AdvanceRead(n))
  }

  /** Bytes the client-to-origin buffer takes in this iteration. */
  function ClientBytes(s: Slot, readyRead: set<int>, io: SlotIo): seq<byte> {
    if s.fd in readyRead then io.fromClient else []
  }

  /** Bytes the origin-to-client buffer takes in this iteration. */
  function OriginBytes(s: Slot, readyRead: set<int>, io: SlotIo): seq<byte> {
    if s.originFd in readyRead then io.fromOrigin else []
  }

  /** What the system calls may return: `read`/`recv` are asked for the free space of
      their buffer, `send` for the pending count of its buffer at the time of the call
      (after this iteration's reads). */
  predicate IoFits(s: Slot, readyRead: set<int>, readyWrite: set<int>, io: SlotIo)
    requires SlotValid(s)
  {
    && (s.fd in readyRead ==> |io.fromClient| <= s.readBuff.FreeSpace())
    && (s.originFd in readyRead ==> |io.fromOrigin| <= s.writeBuff.FreeSpace())
    && (s.originFd in readyWrite ==>
          io.toOrigin <= s.readBuff.PendingRead() + |ClientBytes(s, readyRead, io)|)
    && (s.fd in readyWrite ==>
          io.toClient <= s.writeBuff.PendingRead() + |OriginBytes(s, readyRead, io)|)
  }

  /** The slot after its readable descriptors were serviced. Both tests use the
      descriptors as they were at the top of the iteration. */
  function AfterReads(s: Slot, readyRead: set<int>, readyWrite: set<int>, io: SlotIo): (r: Slot)
    requires SlotValid(s) && IoFits(s, readyRead, readyWrite, io)
    ensures SlotValid(r)
    ensures r.readBuff.Pending() == s.readBuff.Pending() + ClientBytes(s, readyRead, io)
    ensures r.writeBuff.Pending() == s.writeBuff.Pending() + OriginBytes(s, readyRead, io)
    ensures r.readBuff.FreeSpace() == s.readBuff.FreeSpace() - |ClientBytes(s, readyRead, io)|
    ensures r.writeBuff.FreeSpace() == s.writeBuff.FreeSpace() - |OriginBytes(s, readyRead, io)|
  {
    var s1 := if s.fd in readyRead then ClientRead(s, io.fromClient) else s;
    if s.originFd in readyRead then OriginRead(s1, io.fromOrigin) else s1
  }

  /** One slot's servicing in one iteration: client read, origin read, send to origin,
      send to client, each guarded by readiness of the descriptor the slot held at the
      top of the iteration. */
  function Service(s: Slot, readyRead: set<int>, readyWrite: set<int>, io: SlotIo): (r: Slot)
    requires SlotValid(s) && IoFits(s, readyRead, readyWrite, io)
    ensures SlotValid(r)
    ensures r.fd == s.fd || (r.fd == 0 && s.fd in readyRead && io.fromClient == [])
    ensures r.originFd == s.originFd || (r.originFd == 0 && s.originFd in readyRead && io.fromOrigin == [])
    ensures s.fd in readyRead && io.fromClient == [] ==> r.fd == 0
    ensures s.originFd in readyRead && io.fromOrigin == [] ==> r.originFd == 0
    ensures r.readBuff.FreeSpace() == s.readBuff.FreeSpace() - |ClientBytes(s, readyRead, io)|
    ensures r.writeBuff.FreeSpace() == s.writeBuff.FreeSpace() - |OriginBytes(s, readyRead, io)|
  {
    var s2 := AfterReads(s, readyRead, readyWrite, io);
    var s3 := if s.originFd in readyWrite then OriginSend(s2, io.toOrigin) else s2;
    if s.fd in readyWrite then ClientSend(s3, io.toClient) else s3
  }

  /** The bytes handed to the origin by this iteration's `send`. */
  function SentToOrigin(s: Slot, readyRead: set<int>, readyWrite: set<int>, io: SlotIo): seq<byte>
    requires SlotValid(s) && IoFits(s, readyRead, readyWrite, io)
  {
    if s.originFd in readyWrite
    then AfterReads(s, readyRead, readyWrite, io).readBuff.Pending()[..io.toOrigin]
    else []
  }

  /** The bytes handed to the client by this iteration's `send`. */
  function SentToClient(s: Slot, readyRead: set<int>, readyWrite: set<int>, io: SlotIo): seq<byte>
    requires SlotValid(s) && IoFits(s, readyRead, readyWrite, io)
  {
    if s.fd in readyWrite
    then AfterReads(s, readyRead, readyWrite, io).writeBuff.Pending()[..io.toClient]
    else []
  }

  /** Servicing relays in order, in each direction: what was sent followed by what is
      still pending equals what was pending followed by what was received. */
  lemma ServiceRelaysInOrder(s: Slot, readyRead: set<int>, readyWrite: set<int>, io: SlotIo)
    requires SlotValid(s) && IoFits(s, readyRead, readyWrite, io)
    ensures SentToOrigin(s, readyRead, readyWrite, io) + Service(s, readyRead, readyWrite, io).readBuff.Pending()
            == s.readBuff.Pending() + ClientBytes(s, readyRead, io)
    ensures SentToClient(s, readyRead, readyWrite, io) + Service(s, readyRead, readyWrite, io).writeBuff.Pending()
            == s.writeBuff.Pending() + OriginBytes(s, readyRead, io)
  {
  }

  // ---------------------------------------------------------------------------------
  // A slot over many iterations: the relay is byte-for-byte and in order
  // ---------------------------------------------------------------------------------

  /** What one iteration looks like from one slot: the ready sets `select` returned and
      the results of the slot's system calls. */
  datatype Event = Event(readyRead: set<int>, readyWrite: set<int>, io: SlotIo)

  /** Every event's system-call results fit the slot as it is when the event happens. */
  predicate Feasible(s: Slot, evs: seq<Event>)
    requires SlotValid(s)
    decreases |evs|
  {
    evs == [] ||
    (IoFits(s, evs[0].readyRead, evs[0].readyWrite, evs[0].io) &&
     Feasible(Service(s, evs[0].readyRead, evs[0].readyWrite, evs[0].io), evs[1..]))
  }

  /** The slot after all the events. */
  function Final(s: Slot, evs: seq<Event>): (r: Slot)
    requires SlotValid(s) && Feasible(s, evs)
    ensures SlotValid(r)
    decreases |evs|
  {
    if evs == [] then s
    else Final(Service(s, evs[0].readyRead, evs[0].readyWrite, evs[0].io), evs[1..])
  }

  /** Everything the client-to-origin buffer took in, event after event. */
  function ReceivedFromClient(s: Slot, evs: seq<Event>): seq<byte>
    requires SlotValid(s) && Feasible(s, evs)
    decreases |evs|
  {
    if evs == [] then []
    else ClientBytes(s, evs[0].readyRead, evs[0].io) +
         ReceivedFromClient(Service(s, evs[0].readyRead, evs[0].readyWrite, evs[0].io), evs[1..])
  }

  /** Everything sent to the origin, event after event. */
  function ForwardedToOrigin(s: Slot, evs: seq<Event>): seq<byte>
    requires SlotValid(s) && Feasible(s, evs)
    decreases |evs|
  {
    if evs == [] then []
    else SentToOrigin(s, evs[0].readyRead, evs[0].readyWrite, evs[0].io) +
         ForwardedToOrigin(Service(s, evs[0].readyRead, evs[0].readyWrite, evs[0].io), evs[1..])
  }

  /** Everything the origin-to-client buffer took in, event after event. */
  function ReceivedFromOrigin(s: Slot, evs: seq<Event>): seq<byte>
    requires SlotValid(s) && Feasible(s, evs)
    decreases |evs|
  {
    if evs == [] then []
    else OriginBytes(s, evs[0].readyRead, evs[0].io) +
         ReceivedFromOrigin(Service(s, evs[0].readyRead, evs[0].readyWrite, evs[0].io), evs[1..])
  }

  /** Everything sent to the client, event after event. */
  function ForwardedToClient(s: Slot, evs: seq<Event>): seq<byte>
    requires SlotValid(s) && Feasible(s, evs)
    decreases |evs|
  {
    if evs == [] then []
    else SentToClient(s, evs[0].readyRead, evs[0].readyWrite, evs[0].io) +
         ForwardedToClient(Service(s, evs[0].readyRead, evs[0].readyWrite, evs[0].io), evs[1..])
  }

  /** Without compaction every byte a buffer takes in uses up free space for good: over
      any run, the bytes taken in plus the free space left equal the free space at the
      start. So each buffer takes in at most `BUFF_SIZE` bytes in the slot's whole life,
      and once its free space is used up that side is never read again. */
  lemma {:induction false} IntakeUsesFreeSpace(s: Slot, evs: seq<Event>)
    requires SlotValid(s) && Feasible(s, evs)
    ensures |ReceivedFromClient(s, evs)| + Final(s, evs).readBuff.FreeSpace() == s.readBuff.FreeSpace()
    ensures |ReceivedFromOrigin(s, evs)| + Final(s, evs).writeBuff.FreeSpace() == s.writeBuff.FreeSpace()
    ensures |ReceivedFromClient(s, evs)| <= BUFF_SIZE && |ReceivedFromOrigin(s, evs)| <= BUFF_SIZE
    decreases |evs|
  {
    if evs != [] {
      var e := evs[0];
      var s' := Service(s, e.readyRead, e.readyWrite, e.io);
      assert ReceivedFromClient(s, evs) == ClientBytes(s, e.readyRead, e.io) + ReceivedFromClient(s', evs[1..]);
      assert ReceivedFromOrigin(s, evs) == OriginBytes(s, e.readyRead, e.io) + ReceivedFromOrigin(s', evs[1..]);
      assert Final(s, evs) == Final(s', evs[1..]);
      IntakeUsesFreeSpace(s', evs[1..]);
    }
  }

  /** Relay correctness from client to origin: over any run, the bytes sent to the
      origin followed by the bytes still buffered are exactly the bytes buffered at the
      start followed by the bytes read from the client; so the origin receives a prefix
      of the client's stream, unchanged and in order. */
  lemma {:induction false} ClientToOriginInOrder(s: Slot, evs: seq<Event>)
    requires SlotValid(s) && Feasible(s, evs)
    ensures ForwardedToOrigin(s, evs) + Final(s, evs).readBuff.Pending()
            == s.readBuff.Pending() + ReceivedFromClient(s, evs)
    ensures ForwardedToOrigin(s, evs) <= s.readBuff.Pending() + ReceivedFromClient(s, evs)
    decreases |evs|
  {
    if evs != [] {
      var e := evs[0];
      var s' := Service(s, e.readyRead, e.readyWrite, e.io);
      var sent := SentToOrigin(s, e.readyRead, e.readyWrite, e.io);
      var got := ClientBytes(s, e.readyRead, e.io);
      var rest := ForwardedToOrigin(s', evs[1..]);
      var more := ReceivedFromClient(s', evs[1..]);
      var left := Final(s', evs[1..]).readBuff.Pending();
      assert ForwardedToOrigin(s, evs) == sent + rest;
      assert ReceivedFromClient(s, evs) == got + more;
      assert Final(s, evs).readBuff.Pending() == left;
      ServiceRelaysInOrder(s, e.readyRead, e.readyWrite, e.io);
      ClientToOriginInOrder(s', evs[1..]);
      Chain(sent, rest, left, s'.readBuff.Pending(), s.readBuff.Pending(), got, more);
    }
    PrefixOfSum(ForwardedToOrigin(s, evs), Final(s, evs).readBuff.Pending(), s.readBuff.Pending() + ReceivedFromClient(s, evs));
  }

  /** Relay correctness from origin to client, the mirror image. */
  lemma {:induction false} OriginToClientInOrder(s: Slot, evs: seq<Event>)
    requires SlotValid(s) && Feasible(s, evs)
    ensures ForwardedToClient(s, evs) + Final(s, evs).writeBuff.Pending()
            == s.writeBuff.Pending() + ReceivedFromOrigin(s, evs)
    ensures ForwardedToClient(s, evs) <= s.writeBuff.Pending() + ReceivedFromOrigin(s, evs)
    decreases |evs|
  {
    if evs != [] {
      var e := evs[0];
      var s' := Service(s, e.readyRead, e.readyWrite, e.io);
      var sent := SentToClient(s, e.readyRead, e.readyWrite, e.io);
      var got := OriginBytes(s, e.readyRead, e.io);
      var rest := ForwardedToClient(s', evs[1..]);
      var more := ReceivedFromOrigin(s', evs[1..]);
      var left := Final(s', evs[1..]).writeBuff.Pending();
      assert ForwardedToClient(s, evs) == sent + rest;
      assert ReceivedFromOrigin(s, evs) == got + more;
      assert Final(s, evs).writeBuff.Pending() == left;
      ServiceRelaysInOrder(s, e.readyRead, e.readyWrite, e.io);
      OriginToClientInOrder(s', evs[1..]);
      Chain(sent, rest, left, s'.writeBuff.Pending(), s.writeBuff.Pending(), got, more);
    }
    PrefixOfSum(ForwardedToClient(s, evs), Final(s, evs).writeBuff.Pending(), s.writeBuff.Pending() + ReceivedFromOrigin(s, evs));
  }

  /** A sequence that is followed by something to make up `whole` is a prefix of it. */
  lemma PrefixOfSum<T>(a: seq<T>, b: seq<T>, whole: seq<T>)
    requires a + b == whole
    ensures a <= whole
  {
    assert whole[..|a|] == a;
  }

  /** Splicing two "sent + pending == pending + received" equations end to end. */
  lemma Chain<T>(sent: seq<T>, rest: seq<T>, left: seq<T>, mid: seq<T>, first: seq<T>, got: seq<T>, more: seq<T>)
    requires sent + mid == first + got
    requires rest + left == mid + more
    ensures (sent + rest) + left == first + (got + more)
  {
    calc {
      (sent + rest) + left;
      sent + (rest + left);
      sent + (mid + more);
      (sent + mid) + more;
      (first + got) + more;
    }
  }

  /** Clearing descriptors of one slot keeps the table's descriptors distinct. */
  lemma ClearingKeepsDistinct(t: seq<Slot>, master: int, i: nat, s: Slot)
    requires DescriptorsDistinct(t, master) && i < |t|
    requires s.fd == t[i].fd || s.fd == 0
    requires s.originFd == t[i].originFd || s.originFd == 0
    ensures DescriptorsDistinct(t[i := s], master)
  {
  }

  /** Storing two descriptors that no slot holds keeps the table's descriptors distinct. */
  lemma StoringKeepsDistinct(t: seq<Slot>, master: int, i: nat, fd: int, originFd: int)
    requires DescriptorsDistinct(t, master) && i < |t|
    requires NewDescriptors(t, master, fd, originFd)
    ensures DescriptorsDistinct(t[i := t[i].(fd := fd, originFd := originFd)], master)
  {
  }

  /** What the operating system guarantees about the descriptors `accept` and `socket`
      return: real, different from each other, from the listening socket and from every
      descriptor the table holds (those are all open). */
  predicate NewDescriptors(t: seq<Slot>, master: int, fd: int, originFd: int) {
    && fd > 0 && originFd > 0 && fd != originFd && fd != master && originFd != master
    && forall j :: 0 <= j < |t| ==> !Holds(t[j], fd) && !Holds(t[j], originFd)
  }

  // ---------------------------------------------------------------------------------
  // Allocation on accept
  // ---------------------------------------------------------------------------------

  /** The lowest index whose client descriptor is 0, if any. */
  function FirstFree(t: seq<Slot>): (r: Option<nat>)
    ensures r.Some? ==> r.value < |t| && t[r.value].fd == 0
    ensures r.Some? ==> forall j :: 0 <= j < r.value ==> t[j].fd != 0
    ensures r.None? ==> forall j :: 0 <= j < |t| ==> t[j].fd != 0
  {
    if t == [] then None
    else if t[0].fd == 0 then Some(0)
    else match FirstFree(t[1..])
      case None => None
      case Some(k) => Some(k + 1)
  }

  // ---------------------------------------------------------------------------------
  // The table
  // ---------------------------------------------------------------------------------

  /** The `client_socket` array of `main`, with the listening socket it is used beside. */
  class Relay {
    const master: int
    const slots: array<Slot>

    ghost predicate Valid()
      reads this, slots
    {
      && slots.Length == MAX_CLIENTS
      && AllValid(slots[..])
      && DescriptorsDistinct(slots[..], master)
    }

    /** The initialisation loop: every slot has client and origin descriptor 0 and two
        empty buffers of `BUFF_SIZE` bytes. */
    constructor (master: int)
      requires master > 0
      ensures Valid() && fresh(slots) && this.master == master
      ensures forall i :: 0 <= i < slots.Length ==>
                slots[i].fd == 0 && slots[i].originFd == 0 &&
                slots[i].readBuff.Pending() == [] && slots[i].readBuff.FreeSpace() == BUFF_SIZE &&
                slots[i].writeBuff.Pending() == [] && slots[i].writeBuff.FreeSpace() == BUFF_SIZE
    {
      var a := new Slot[MAX_CLIENTS];
      var storage := seq(BUFF_SIZE, _ => 0);
      for i := 0 to MAX_CLIENTS
        invariant forall j :: 0 <= j < i ==> a[j] == Slot(0, Init(storage), Init(storage), 0)
      {
        a[i] := Slot(0, Init(storage), Init(storage), 0);
      }
      this.master := master;
      slots := a;
    }

    /** The interest loop: the read set is the listening socket plus every slot's read
        interest, the write set every slot's write interest, and `max_sd` the largest of
        the listening socket and all descriptors in the table (paired or not). */
    method ComputeInterest() returns (readSet: set<int>, writeSet: set<int>, maxSd: int)
      requires Valid()
      ensures readSet == {master} + ReadInterest(slots[..])
      ensures writeSet == WriteInterest(slots[..])
      ensures maxSd >= master
      ensures forall i :: 0 <= i < slots.Length ==> slots[i].fd <= maxSd && slots[i].originFd <= maxSd
      ensures maxSd == master ||
              exists i :: 0 <= i < slots.Length && (maxSd == slots[i].fd || maxSd == slots[i].originFd)
    {
      readSet, writeSet := {master}, {};
      maxSd := master;
      for i := 0 to slots.Length
        invariant readSet == {master} + ReadInterest(slots[..i])
        invariant writeSet == WriteInterest(slots[..i])
        invariant maxSd >= master
        invariant forall j :: 0 <= j < i ==> slots[j].fd <= maxSd && slots[j].originFd <= maxSd
        invariant maxSd == master ||
                  exists j :: 0 <= j < i && (maxSd == slots[j].fd || maxSd == slots[j].originFd)
      {
        assert slots[..i + 1][..i] == slots[..i];
        var sd, osfd := slots[i].fd, slots[i].originFd;
        if sd > 0 && osfd > 0 {
          if slots[i].readBuff.CanWrite() {
            readSet := readSet + {sd};
          }
          if slots[i].writeBuff.CanWrite() {
            readSet := readSet + {osfd};
          }
          if slots[i].writeBuff.CanRead() {
            writeSet := writeSet + {sd};
          }
          if slots[i].readBuff.CanRead() {
            writeSet := writeSet + {osfd};
          }
        }
        if sd > maxSd || osfd > maxSd {
          maxSd := if sd > osfd then sd else osfd;
        }
      }
      assert slots[..slots.Length] == slots[..];
    }

    /** Storing an accepted connection: the first slot whose client descriptor is 0 gets
        the client descriptor and a new origin descriptor; its buffers are not reset and
        no other slot changes. With no such slot the table is unchanged (the accepted
        descriptor stays open). */
    method Accept(newFd: int, newOriginFd: int) returns (index: Option<nat>)
      requires Valid()
      requires NewDescriptors(slots[..], master, newFd, newOriginFd)
      modifies slots
      ensures Valid()
      ensures index == FirstFree(old(slots[..]))
      ensures index.Some? ==> slots[index.value] == old(slots[index.value]).(fd := newFd, originFd := newOriginFd)
      ensures forall j :: 0 <= j < slots.Length && index != Some(j) ==> slots[j] == old(slots[j])
    {
      var i := 0;
      while i < slots.Length
        invariant 0 <= i <= slots.Length
        invariant slots[..] == old(slots[..])
        invariant forall j :: 0 <= j < i ==> slots[j].fd != 0
      {
        if slots[i].fd == 0 {
          ghost var t := slots[..];
          assert t[i].fd == 0;
          assert FirstFree(t) == Some(i);
          StoringKeepsDistinct(t, master, i, newFd, newOriginFd);
          slots[i] := slots[i].(fd := newFd, originFd := newOriginFd);
          assert slots[..] == t[i := t[i].(fd := newFd, originFd := newOriginFd)];
          return Some(i);
        }
        i := i + 1;
      }
      index := None;
    }

    /** Servicing slot `i`: the client read, origin read, send to the origin and send to
        the client happen in that order, each only if `select` reported the descriptor
        the slot held at the start. Returns the bytes handed to each `send`. Only slot
        `i` changes. */
    method ServiceSlot(i: nat, readyRead: set<int>, readyWrite: set<int>, io: SlotIo)
      returns (toOrigin: seq<byte>, toClient: seq<byte>)
      requires Valid() && i < slots.Length
      requires IoFits(slots[i], readyRead, readyWrite, io)
      modifies slots
      ensures Valid()
      ensures slots[i] == Service(old(slots[i]), readyRead, readyWrite, io)
      ensures toOrigin == SentToOrigin(old(slots[i]), readyRead, readyWrite, io)
      ensures toClient == SentToClient(old(slots[i]), readyRead, readyWrite, io)
      ensures forall j :: 0 <= j < slots.Length && j != i ==> slots[j] == old(slots[j])
    {
      var slot := slots[i];
      var sd, osfd := slot.fd, slot.originFd;
      if sd in readyRead {
        slot := ClientRead(slot, io.fromClient);
      }
      if osfd in readyRead {
        slot := OriginRead(slot, io.fromOrigin);
      }
      assert slot == AfterReads(slots[i], readyRead, readyWrite, io);
      toOrigin, toClient := [], [];
      if osfd in readyWrite {
        toOrigin := slot.readBuff.Pending()[..io.toOrigin];
        slot := OriginSend(slot, io.toOrigin);
      }
      if sd in readyWrite {
        toClient := slot.writeBuff.Pending()[..io.toClient];
        slot := ClientSend(slot, io.toClient);
      }
      assert slot == Service(slots[i], readyRead, readyWrite, io);
      ClearingKeepsDistinct(slots[..], master, i, slot);
      slots[i] := slot;
    }

    /** The servicing loop over the whole table: afterwards every slot is what servicing
        it alone would make of it. */
    method ServiceAll(readyRead: set<int>, readyWrite: set<int>, io: seq<SlotIo>)
      returns (toOrigin: seq<seq<byte>>, toClient: seq<seq<byte>>)
      requires Valid() && |io| == slots.Length
      requires forall i :: 0 <= i < slots.Length ==> IoFits(slots[i], readyRead, readyWrite, io[i])
      modifies slots
      ensures Valid()
      ensures |toOrigin| == |toClient| == slots.Length
      ensures forall i :: 0 <= i < slots.Length ==>
                slots[i] == Service(old(slots[i]), readyRead, readyWrite, io[i]) &&
                toOrigin[i] == SentToOrigin(old(slots[i]), readyRead, readyWrite, io[i]) &&
                toClient[i] == SentToClient(old(slots[i]), readyRead, readyWrite, io[i])
    {
      toOrigin, toClient := [], [];
      for i := 0 to slots.Length
        invariant Valid()
        invariant |toOrigin| == |toClient| == i
        invariant forall j :: 0 <= j < i ==>
                    slots[j] == Service(old(slots[j]), readyRead, readyWrite, io[j]) &&
                    toOrigin[j] == SentToOrigin(old(slots[j]), readyRead, readyWrite, io[j]) &&
                    toClient[j] == SentToClient(old(slots[j]), readyRead, readyWrite, io[j])
        invariant forall j :: i <= j < slots.Length ==> slots[j] == old(slots[j])
      {
        var o, c := ServiceSlot(i, readyRead, readyWrite, io[i]);
        toOrigin, toClient := toOrigin + [o], toClient + [c];
      }
    }
  }
}
