/**
  Many processes on the character device: any interleaving of opens, reads and writes on
  any minors. Each minor behaves as if it were alone.
 */
module DeviceRuns {
  import opened CInt
  import opened CharDevice

  /** An open file: the buffer it points to, and its offset. */
  datatype Handle = Handle(minor: nat, off: nat)

  datatype State = State(bufs: seq<Buffer>, files: map<nat, Handle>)

  /** fd is a name for the opened file, chosen by the caller of open. */
  datatype Op = Open(fd: nat, minor: nat) | Read(fd: nat, count: nat) | Write(fd: nat, data: seq<byte>)

  datatype Reply = Code(ret: int) | Bytes(data: seq<byte>) | BadFile

  function Fresh(instances: nat): State { State(seq(instances, _ => ZEROED), map[]) }

  predicate Valid(s: State) { forall fd :: fd in s.files ==> s.files[fd].minor < |s.bufs| }

  function Do(s: State, op: Op): State
    requires Valid(s)
    ensures Valid(Do(s, op)) && |Do(s, op).bufs| == |s.bufs|
  {
    match op
    case Open(fd, m) => if m < |s.bufs| then s.(files := s.files[fd := Handle(m, 0)]) else s
    case Read(fd, n) =>
      if fd !in s.files then s else
        var h := s.files[fd];
        s.(files := s.files[fd := h.(off := h.off + Fits(h.off, n))])
    case Write(fd, data) =>
      if fd !in s.files then s else
        var h := s.files[fd];
        State(s.bufs[h.minor := Stored(s.bufs[h.minor], h.off, data)],
              s.files[fd := h.(off := h.off + Fits(h.off, |data|))])
  }

  function ReplyTo(s: State, op: Op): Reply
    requires Valid(s)
  {
    match op
    case Open(_, m) => Code(if m < |s.bufs| then 0 else -EFAULT)
    case Read(fd, n) =>
      if fd !in s.files then BadFile else Bytes(Taken(s.bufs[s.files[fd].minor], s.files[fd].off, n))
    case Write(fd, data) =>
      if fd !in s.files then BadFile else Code(WriteReply(s.files[fd].off, |data|))
  }

  /** What a reply tells its caller: of a write, how far the offset moved or that the buffer
      is full; of a read, the bytes from the offset on, fewer than asked only at the end. */
  lemma RepliesTellTheOffset(s: State, fd: nat, data: seq<byte>, n: nat)
    requires Valid(s) && fd in s.files
    ensures var off, reply := s.files[fd].off, ReplyTo(s, Write(fd, data));
            && reply.Code?
            && (off >= 300 ==> reply.ret == -28 && Do(s, Write(fd, data)) == s)
            && (off < 300 ==> reply.ret >= 0 && Do(s, Write(fd, data)).files[fd].off == off + reply.ret)
            && (0 <= reply.ret < |data| ==> off + reply.ret == 300)
    ensures var off, reply, s' := s.files[fd].off, ReplyTo(s, Read(fd, n)), Do(s, Read(fd, n));
            && reply.Bytes? && |reply.data| <= n && s'.files[fd].off == off + |reply.data|
            && (|reply.data| < n ==> s'.files[fd].off >= 300)
            && forall k :: 0 <= k < |reply.data| ==> reply.data[k] == s.bufs[s.files[fd].minor][off + k]
  {
    if s.files[fd].off >= 300 {
      assert Do(s, Write(fd, data)).bufs == s.bufs && Do(s, Write(fd, data)).files == s.files;
    }
  }

  /** Opening a minor that is not there fails and changes nothing; otherwise the new file
      starts at offset 0, and no buffer changes. */
  lemma OpenReplies(s: State, fd: nat, m: nat)
    requires Valid(s)
    ensures m >= |s.bufs| ==> ReplyTo(s, Open(fd, m)) == Code(-14) && Do(s, Open(fd, m)) == s
    ensures m < |s.bufs| ==> ReplyTo(s, Open(fd, m)) == Code(0)
    ensures m < |s.bufs| ==> Do(s, Open(fd, m)) == s.(files := s.files[fd := Handle(m, 0)])
  {}

  function After(s: State, ops: seq<Op>): State
    requires Valid(s)
    decreases ops
    ensures Valid(After(s, ops)) && |After(s, ops).bufs| == |s.bufs|
  {
    if ops == [] then s else After(Do(s, ops[0]), ops[1..])
  }

  /** op is on minor m, or takes away the name of a file on m. */
  predicate Touches(s: State, op: Op, m: nat) {
    (op.Open? && op.minor == m) || (op.fd in s.files && s.files[op.fd].minor == m)
  }

  /** The part of the run that concerns minor m. */
  function On(s: State, ops: seq<Op>, m: nat): seq<Op>
    requires Valid(s)
    decreases ops
  {
    if ops == [] then []
    else (if Touches(s, ops[0], m) then [ops[0]] else []) + On(Do(s, ops[0]), ops[1..], m)
  }

  /** The replies seen by that part. */
  function RepliesOn(s: State, ops: seq<Op>, m: nat): seq<Reply>
    requires Valid(s)
    decreases ops
  {
    if ops == [] then []
    else (if Touches(s, ops[0], m) then [ReplyTo(s, ops[0])] else []) + RepliesOn(Do(s, ops[0]), ops[1..], m)
  }

  function Replies(s: State, ops: seq<Op>): seq<Reply>
    requires Valid(s)
    decreases ops
  {
    if ops == [] then [] else [ReplyTo(s, ops[0])] + Replies(Do(s, ops[0]), ops[1..])
  }

  /** s and r agree on minor m and on the files open on it; r has no file elsewhere under
      a name that s uses on m, and conversely. */
  predicate Agree(s: State, r: State, m: nat) {
    && |s.bufs| == |r.bufs| && (m < |s.bufs| ==> s.bufs[m] == r.bufs[m])
    && (forall fd :: fd in s.files && s.files[fd].minor == m ==> fd in r.files && r.files[fd] == s.files[fd])
    && (forall fd :: fd in r.files && r.files[fd].minor == m ==> fd in s.files && s.files[fd] == r.files[fd])
  }

  lemma StepAlone(s: State, r: State, op: Op, m: nat)
    requires Valid(s) && Valid(r) && Agree(s, r, m)
    ensures if Touches(s, op, m) then Agree(Do(s, op), Do(r, op), m) && ReplyTo(s, op) == ReplyTo(r, op)
            else Agree(Do(s, op), r, m)
  {}

  /** Removing every call that does not touch minor m changes neither the buffer of m, nor
      the offsets of its files, nor any reply its users get. */
  lemma {:induction false} MinorsAreIndependent(s: State, r: State, ops: seq<Op>, m: nat)
    requires Valid(s) && Valid(r) && Agree(s, r, m)
    ensures Agree(After(s, ops), After(r, On(s, ops, m)), m)
    ensures RepliesOn(s, ops, m) == Replies(r, On(s, ops, m))
    decreases ops
  {
    if ops != [] {
      StepAlone(s, r, ops[0], m);
      var s', rest := Do(s, ops[0]), On(Do(s, ops[0]), ops[1..], m);
      if Touches(s, ops[0], m) {
        assert ([ops[0]] + rest)[1..] == rest;
        MinorsAreIndependent(s', Do(r, ops[0]), ops[1..], m);
      } else {
        assert [] + rest == rest;
        MinorsAreIndependent(s', r, ops[1..], m);
      }
    }
  }

  // ---- Any number of writers ----

  /** op puts a byte at position k of minor m. */
  predicate Covers(s: State, op: Op, m: nat, k: nat) {
    && op.Write? && op.fd in s.files && s.files[op.fd].minor == m
    && s.files[op.fd].off <= k < s.files[op.fd].off + |op.data|
  }

  predicate NeverCovered(s: State, ops: seq<Op>, m: nat, k: nat)
    requires Valid(s)
    decreases ops
  {
    ops == [] || (!Covers(s, ops[0], m, k) && NeverCovered(Do(s, ops[0]), ops[1..], m, k))
  }

  lemma StepByte(s: State, op: Op, m: nat, k: nat)
    requires Valid(s) && m < |s.bufs| && k < BUFFER_SIZE
    ensures Do(s, op).bufs[m][k] == if Covers(s, op, m, k) then op.data[k - s.files[op.fd].off] else s.bufs[m][k]
  {
    if op.Write? && op.fd in s.files {
      StoredAt(s.bufs[s.files[op.fd].minor], s.files[op.fd].off, op.data, k);
    }
  }

  lemma {:induction false} ByteStays(s: State, ops: seq<Op>, m: nat, k: nat)
    requires Valid(s) && m < |s.bufs| && k < BUFFER_SIZE && NeverCovered(s, ops, m, k)
    ensures After(s, ops).bufs[m][k] == s.bufs[m][k]
    decreases ops
  {
    if ops != [] {
      StepByte(s, ops[0], m, k);
      ByteStays(Do(s, ops[0]), ops[1..], m, k);
    }
  }

  lemma {:induction false} AfterConcat(s: State, a: seq<Op>, b: seq<Op>)
    requires Valid(s)
    ensures After(s, a + b) == After(After(s, a), b)
    decreases a
  {
    if a == [] {
      assert a + b == b;
    } else {
      assert (a + b)[1..] == a[1..] + b;
      AfterConcat(Do(s, a[0]), a[1..], b);
    }
  }

  /** Whoever writes through whichever file: a byte of a buffer is what the last write that
      covered it put there. */
  lemma LastWriteWins(s: State, before: seq<Op>, op: Op, rest: seq<Op>, m: nat, k: nat)
    requires Valid(s) && m < |s.bufs| && k < BUFFER_SIZE
    requires Covers(After(s, before), op, m, k) && NeverCovered(Do(After(s, before), op), rest, m, k)
    ensures After(s, before + ([op] + rest)).bufs[m][k] == op.data[k - After(s, before).files[op.fd].off]
  {
    var s1 := After(s, before);
    AfterConcat(s, before, [op] + rest);
    assert ([op] + rest)[1..] == rest;
    StepByte(s1, op, m, k);
    ByteStays(Do(s1, op), rest, m, k);
  }

  // ---- One writer on a minor, then readers ----

  predicate WritesTo(s: State, op: Op, m: nat) { op.Write? && op.fd in s.files && s.files[op.fd].minor == m }

  /** fd is only written to, and nobody else writes to minor m; others may open and read it. */
  predicate SoleWriter(s: State, ops: seq<Op>, fd: nat, m: nat)
    requires Valid(s)
    decreases ops
  {
    ops == [] || (
      && (ops[0].fd == fd ==> ops[0].Write?)
      && (WritesTo(s, ops[0], m) ==> ops[0].fd == fd)
      && SoleWriter(Do(s, ops[0]), ops[1..], fd, m))
  }

  /** fd is only read, and nobody writes to minor m. */
  predicate NoWriter(s: State, ops: seq<Op>, fd: nat, m: nat)
    requires Valid(s)
    decreases ops
  {
    ops == [] || (
      && (ops[0].fd == fd ==> ops[0].Read?)
      && !WritesTo(s, ops[0], m)
      && NoWriter(Do(s, ops[0]), ops[1..], fd, m))
  }

  /** All that was written on fd, in order. */
  function Written(ops: seq<Op>, fd: nat): seq<byte> {
    if ops == [] then []
    else if ops[0].Write? && ops[0].fd == fd then ops[0].data + Written(ops[1..], fd)
    else Written(ops[1..], fd)
  }

  function Asked(ops: seq<Op>, fd: nat): nat {
    if ops == [] then 0
    else if ops[0].Read? && ops[0].fd == fd then ops[0].count + Asked(ops[1..], fd)
    else Asked(ops[1..], fd)
  }

  /** All that was read on fd, in order. */
  function Got(s: State, ops: seq<Op>, fd: nat): seq<byte>
    requires Valid(s)
    decreases ops
  {
    if ops == [] then []
    else if ops[0].Read? && ops[0].fd == fd && fd in s.files then
      ReplyTo(s, ops[0]).data + Got(Do(s, ops[0]), ops[1..], fd)
    else Got(Do(s, ops[0]), ops[1..], fd)
  }

  lemma Untouched(s: State, op: Op, fd: nat)
    requires Valid(s) && fd in s.files && op.fd != fd && !WritesTo(s, op, s.files[fd].minor)
    ensures fd in Do(s, op).files && Do(s, op).files[fd] == s.files[fd]
    ensures Do(s, op).bufs[s.files[fd].minor] == s.bufs[s.files[fd].minor]
  {}

  /** However the data is cut into writes, and whatever else is opened and read in between,
      the buffer is that of one write of all of it. */
  lemma {:induction false} ChunkedWrite(s: State, ops: seq<Op>, fd: nat, h: Handle)
    requires Valid(s) && fd in s.files && s.files[fd] == h && SoleWriter(s, ops, fd, h.minor)
    ensures var s', data := After(s, ops), Written(ops, fd);
            && s'.bufs[h.minor] == Stored(s.bufs[h.minor], h.off, data)
            && fd in s'.files && s'.files[fd] == h.(off := h.off + Fits(h.off, |data|))
    decreases ops
  {
    if ops != [] {
      var s' := Do(s, ops[0]);
      if ops[0].Write? && ops[0].fd == fd {
        OwnWrite(s, fd, ops[0].data);
        ChunkedWrite(s', ops[1..], fd, s'.files[fd]);
        StoredTwice(s.bufs[h.minor], h.off, ops[0].data, Written(ops[1..], fd));
      } else {
        Untouched(s, ops[0], fd);
        ChunkedWrite(s', ops[1..], fd, h);
      }
    }
  }

  /** What a write's reply says was taken: nothing if it is an error. */
  function Accepted(reply: Reply): nat { if reply.Code? && reply.ret > 0 then reply.ret else 0 }

  /** The client has `rest` to write on fd: each of its writes offers a prefix of what the
      writes before it have left, as their return values told it. */
  predicate Reissues(s: State, ops: seq<Op>, fd: nat, rest: seq<byte>)
    requires Valid(s) && fd in s.files
    decreases ops
  {
    ops == [] || (
      if IsWrite(ops[0], fd) then
        && ops[0].data <= rest && Accepted(ReplyTo(s, ops[0])) <= |rest|
        && Reissues(Do(s, ops[0]), ops[1..], fd, rest[Accepted(ReplyTo(s, ops[0]))..])
      else
        fd in Do(s, ops[0]).files && Reissues(Do(s, ops[0]), ops[1..], fd, rest))
  }

  predicate IsWrite(op: Op, fd: nat) { op.Write? && op.fd == fd }

  /** What is left of it at the end. */
  function Unwritten(s: State, ops: seq<Op>, fd: nat, rest: seq<byte>): seq<byte>
    requires Valid(s) && fd in s.files && Reissues(s, ops, fd, rest)
    decreases ops
  {
    if ops == [] then rest
    else if IsWrite(ops[0], fd) then
      Unwritten(Do(s, ops[0]), ops[1..], fd, rest[Accepted(ReplyTo(s, ops[0]))..])
    else Unwritten(Do(s, ops[0]), ops[1..], fd, rest)
  }

  /** In the state now, n bytes of data are written to what was b, and rest is left. */
  predicate PartDone(now: State, rest: seq<byte>, b: Buffer, fd: nat, h: Handle, data: seq<byte>, n: nat) {
    && n <= |data| && rest == data[n..]
    && fd in now.files && now.files[fd] == h.(off := h.off + n)
    && h.minor < |now.bufs| && now.bufs[h.minor] == Stored(b, h.off, data[..n])
  }

  /** A client that issues again what a short write left, in any pieces and whatever else
      is opened and read in between: the buffer is that of one write of the part accepted
      so far. */
  lemma {:induction false} ReissuedPart(s: State, ops: seq<Op>, fd: nat, h: Handle, data: seq<byte>) returns (n: nat)
    requires Valid(s) && fd in s.files && s.files[fd] == h && SoleWriter(s, ops, fd, h.minor)
    requires Reissues(s, ops, fd, data)
    ensures PartDone(After(s, ops), Unwritten(s, ops, fd, data), s.bufs[h.minor], fd, h, data, n)
    decreases ops
  {
    if ops == [] {
      n := 0;
      StoredNothing(s.bufs[h.minor], h.off, data);
    } else if IsWrite(ops[0], fd) {
      var first := Fits(h.off, |ops[0].data|);
      FirstWrite(s, ops, fd, h, data);
      n := ReissuedPart(Do(s, ops[0]), ops[1..], fd, h.(off := h.off + first), data[first..]);
      PartOn(After(s, ops), Unwritten(s, ops, fd, data), s.bufs[h.minor], fd, h, ops[0].data, data, n);
      n := first + n;
    } else {
      Untouched(s, ops[0], fd);
      n := ReissuedPart(Do(s, ops[0]), ops[1..], fd, h, data);
    }
  }

  lemma PartOn(now: State, rest: seq<byte>, b: Buffer, fd: nat, h: Handle, w: seq<byte>, data: seq<byte>, more: nat)
    requires w <= data
    requires var n := Fits(h.off, |w|);
             n <= |data| && PartDone(now, rest, Stored(b, h.off, w), fd, h.(off := h.off + n), data[n..], more)
    ensures PartDone(now, rest, b, fd, h, data, Fits(h.off, |w|) + more)
  {
    StoredOn(b, h.off, w, data, more);
  }

  lemma FirstWrite(s: State, ops: seq<Op>, fd: nat, h: Handle, data: seq<byte>)
    requires Valid(s) && fd in s.files && s.files[fd] == h && Reissues(s, ops, fd, data)
    requires ops != [] && IsWrite(ops[0], fd)
    ensures var s', first := Do(s, ops[0]), Fits(h.off, |ops[0].data|);
            && ops[0].data <= data && first <= |data|
            && fd in s'.files && s'.files[fd] == h.(off := h.off + first)
            && s'.bufs[h.minor] == Stored(s.bufs[h.minor], h.off, ops[0].data)
            && Reissues(s', ops[1..], fd, data[first..])
            && Unwritten(s, ops, fd, data) == Unwritten(s', ops[1..], fd, data[first..])
  {
    OwnWrite(s, fd, ops[0].data);
  }

  lemma PrefixOfPrefix(w: seq<byte>, data: seq<byte>, n: nat)
    requires w <= data && n <= |w|
    ensures n <= |data| && data[..n] <= w
  {
    assert w == data[..|w|];
  }

  lemma StoredNothing(b: Buffer, off: nat, data: seq<byte>)
    ensures Stored(b, off, data[..0]) == b && data[0..] == data
  {}

  lemma StoredOn(b: Buffer, off: nat, w: seq<byte>, data: seq<byte>, more: nat)
    requires w <= data && Fits(off, |w|) + more <= |data|
    ensures var n := Fits(off, |w|);
            && Stored(Stored(b, off, w), off + n, data[n..][..more]) == Stored(b, off, data[..n + more])
            && data[n..][more..] == data[n + more..]
  {
    var n := Fits(off, |w|);
    var x, y := data[..n], data[n..][..more];
    PrefixOfPrefix(w, data, n);
    StoredPrefix(b, off, w, x);
    StoredTwice(b, off, x, y);
    assert x + y == data[..n + more];
  }

  /** Once nothing is left, or the buffer is full, it is that of one write of everything. */
  lemma ReissuedWrite(s: State, ops: seq<Op>, fd: nat, h: Handle, data: seq<byte>)
    requires Valid(s) && fd in s.files && s.files[fd] == h && SoleWriter(s, ops, fd, h.minor)
    requires Reissues(s, ops, fd, data)
    ensures fd in After(s, ops).files
    ensures Unwritten(s, ops, fd, data) == [] || After(s, ops).files[fd].off >= BUFFER_SIZE
            ==> After(s, ops).bufs[h.minor] == Stored(s.bufs[h.minor], h.off, data)
  {
    var n := ReissuedPart(s, ops, fd, h, data);
    if n == |data| {
      assert data[..n] == data;
    } else if h.off + n >= BUFFER_SIZE {
      StoredPrefix(s.bufs[h.minor], h.off, data, data[..n]);
    }
  }

  /** Only the part that fits matters. */
  lemma StoredPrefix(b: Buffer, off: nat, x: seq<byte>, y: seq<byte>)
    requires y <= x && Fits(off, |y|) == Fits(off, |x|)
    ensures Stored(b, off, x) == Stored(b, off, y)
  {
    var n := Fits(off, |x|);
    assert x[..n] == y[..n];
  }

  /** However the reads are cut, they return the buffer's bytes from the offset on. */
  lemma {:induction false} ChunkedRead(s: State, ops: seq<Op>, fd: nat, h: Handle, b: Buffer)
    requires Valid(s) && fd in s.files && s.files[fd] == h && s.bufs[h.minor] == b
    requires NoWriter(s, ops, fd, h.minor)
    ensures Got(s, ops, fd) == Taken(b, h.off, Asked(ops, fd))
    decreases ops
  {
    if ops != [] {
      var s', more := Do(s, ops[0]), Asked(ops[1..], fd);
      if ops[0].Read? && ops[0].fd == fd {
        var n := ops[0].count;
        OwnRead(s, fd, n);
        ChunkedRead(s', ops[1..], fd, h.(off := h.off + Fits(h.off, n)), b);
        GotFirst(s, ops, fd);
        ReadOn(b, h.off, n, more, ReplyTo(s, ops[0]).data, Got(s', ops[1..], fd));
      } else {
        Untouched(s, ops[0], fd);
        ChunkedRead(s', ops[1..], fd, h, b);
      }
    }
  }

  lemma GotFirst(s: State, ops: seq<Op>, fd: nat)
    requires Valid(s) && ops != [] && ops[0].Read? && ops[0].fd == fd && fd in s.files
    ensures Got(s, ops, fd) == ReplyTo(s, ops[0]).data + Got(Do(s, ops[0]), ops[1..], fd)
  {}

  lemma ReadOn(b: Buffer, off: nat, m: nat, n: nat, x: seq<byte>, y: seq<byte>)
    requires x == Taken(b, off, m) && y == Taken(b, off + Fits(off, m), n)
    ensures x + y == Taken(b, off, m + n)
  {
    TakenTwice(b, off, m, n);
  }

  lemma OwnWrite(s: State, fd: nat, data: seq<byte>)
    requires Valid(s) && fd in s.files
    ensures Do(s, Write(fd, data)).bufs[s.files[fd].minor] == Stored(s.bufs[s.files[fd].minor], s.files[fd].off, data)
    ensures fd in Do(s, Write(fd, data)).files
    ensures Do(s, Write(fd, data)).files[fd]
            == Handle(s.files[fd].minor, s.files[fd].off + Fits(s.files[fd].off, |data|))
  {}

  lemma OwnRead(s: State, fd: nat, n: nat)
    requires Valid(s) && fd in s.files
    ensures ReplyTo(s, Read(fd, n)) == Bytes(Taken(s.bufs[s.files[fd].minor], s.files[fd].off, n))
    ensures Do(s, Read(fd, n)).bufs == s.bufs && fd in Do(s, Read(fd, n)).files
    ensures Do(s, Read(fd, n)).files[fd] == Handle(s.files[fd].minor, s.files[fd].off + Fits(s.files[fd].off, n))
  {}

  lemma TakenOfStored(b: Buffer, data: seq<byte>, n: nat)
    requires n <= |data|
    ensures Taken(Stored(b, 0, data), 0, n) == data[..Fits(0, n)]
  {
    forall k | 0 <= k < Fits(0, n) ensures Stored(b, 0, data)[k] == data[k] {
      StoredAt(b, 0, data, k);
    }
  }

  /** Written from offset 0 in any pieces, then opened again and read in any pieces: what
      comes back is what one write would have left, that is, what was written, as far as
      the buffer goes and as far as was asked. */
  lemma WriteThenRead(s: State, ws: seq<Op>, fd: nat, again: nat, rs: seq<Op>)
    requires Valid(s) && fd in s.files && s.files[fd].off == 0
    requires SoleWriter(s, ws, fd, s.files[fd].minor)
    requires NoWriter(Reopened(s, ws, fd, again), rs, again, s.files[fd].minor)
    ensures var got, data, n := Got(Reopened(s, ws, fd, again), rs, again), Written(ws, fd), Asked(rs, again);
            && got == Taken(Stored(s.bufs[s.files[fd].minor], 0, data), 0, n)
            && (n <= |data| ==> got == data[..Fits(0, n)])
  {
    var h, r, n := s.files[fd], Reopened(s, ws, fd, again), Asked(rs, again);
    ChunkedWrite(s, ws, fd, h);
    ChunkedRead(r, rs, again, Handle(h.minor, 0), r.bufs[h.minor]);
    if n <= |Written(ws, fd)| {
      TakenOfStored(s.bufs[h.minor], Written(ws, fd), n);
    }
  }

  /** After the writes, the minor of fd is opened once more. */
  function Reopened(s: State, ws: seq<Op>, fd: nat, again: nat): (r: State)
    requires Valid(s) && fd in s.files
    ensures Valid(r)
  {
    Do(After(s, ws), Open(again, s.files[fd].minor))
  }

  /** Offsets never pass the end of the buffer. */
  lemma {:induction false} OffsetsInRange(s: State, ops: seq<Op>)
    requires Valid(s) && forall fd :: fd in s.files ==> s.files[fd].off <= BUFFER_SIZE
    ensures forall fd :: fd in After(s, ops).files ==> After(s, ops).files[fd].off <= BUFFER_SIZE
    decreases ops
  {
    if ops != [] {
      OffsetsInRange(Do(s, ops[0]), ops[1..]);
    }
  }
}
