/**
 The one-sided message ring: a sender computes where the next message goes, writes it into the
 receiver's memory, and the receiver finds it by counting along. The memory has a slack area of one
 largest message behind the ring, so a message is never cut in two.
 */
module RingMsg {
  import opened Entries

  type Message = seq<nat>

  /** Bytes of the first k messages. */
  ghost function Total(sent: seq<Message>, k: nat): nat
    requires k <= |sent|
  {
    if k == 0 then 0 else Total(sent, k - 1) + |sent[k - 1]|
  }

  lemma {:induction false} TotalPrefix(sent: seq<Message>, m: Message, k: nat)
    requires k <= |sent|
    ensures Total(sent + [m], k) == Total(sent, k)
  {
    if k > 0 { TotalPrefix(sent, m, k - 1); }
  }

  lemma {:induction false} TotalAppend(sent: seq<Message>, m: Message, k: nat)
    requires k <= |sent|
    ensures Total(sent + [m], k) == Total(sent, k)
    ensures Total(sent + [m], |sent| + 1) == Total(sent, |sent|) + |m|
  {
    if k > 0 { TotalAppend(sent, m, k - 1); }
    TotalPrefix(sent, m, |sent|);
  }

  lemma {:induction false} TotalGrows(sent: seq<Message>, j: nat, k: nat)
    requires j < k <= |sent|
    ensures Total(sent, j) + |sent[j]| <= Total(sent, k)
  {
    if j < k - 1 { TotalGrows(sent, j, k - 1); }
  }

  lemma {:induction false} MoreLaps(q: nat, q': nat, ringSize: nat)
    requires q < q'
    ensures q' * ringSize >= q * ringSize + ringSize
    decreases q'
  {
    assert q' * ringSize == (q' - 1) * ringSize + ringSize;
    if q < q' - 1 { MoreLaps(q, q' - 1, ringSize); }
  }

  lemma Remainder(q: nat, r: nat, ringSize: nat)
    requires r < ringSize
    ensures (q * ringSize + r) % ringSize == r
  {
    var y := q * ringSize + r;
    var q' := y / ringSize;
    assert y == q' * ringSize + y % ringSize;
    if q < q' {
      MoreLaps(q, q', ringSize);
    } else if q' < q {
      MoreLaps(q', q, ringSize);
    }
  }

  lemma DivMod(x: nat, ringSize: nat)
    requires ringSize > 0
    ensures x == x / ringSize * ringSize + x % ringSize && 0 <= x % ringSize < ringSize
  {
  }

  lemma Distribute(q: nat, q': nat, ringSize: nat)
    ensures (q + q') * ringSize == q * ringSize + q' * ringSize
  {
  }

  /** Wrapping step by step is wrapping once. */
  lemma WrapOnce(total: nat, size: nat, ringSize: nat)
    requires ringSize > 0
    ensures (total % ringSize + size) % ringSize == (total + size) % ringSize
  {
    var q, part := total / ringSize, total % ringSize + size;
    var q', r := part / ringSize, part % ringSize;
    DivMod(total, ringSize);
    DivMod(part, ringSize);
    Distribute(q, q', ringSize);
    assert total + size == (q + q') * ringSize + r;
    Remainder(q + q', r, ringSize);
  }

  // ---------- where messages lie ----------

  /** Two stretches of memory without a common byte. */
  predicate Disjoint(at: nat, size: nat, at': nat, size': nat) {
    size == 0 || size' == 0 || at + size <= at' || at' + size' <= at
  }

  /** The remainder of a sum that passes the end of the ring at most once. */
  lemma OneLap(a: nat, d: nat, ringSize: nat)
    requires ringSize > 0 && a % ringSize + d < 2 * ringSize
    ensures (a + d) % ringSize ==
              if a % ringSize + d < ringSize then a % ringSize + d else a % ringSize + d - ringSize
  {
    var q, r := a / ringSize, a % ringSize;
    DivMod(a, ringSize);
    if r + d < ringSize {
      assert a + d == q * ringSize + (r + d);
      Remainder(q, r + d, ringSize);
    } else {
      Distribute(q, 1, ringSize);
      assert a + d == (q + 1) * ringSize + (r + d - ringSize);
      Remainder(q + 1, r + d - ringSize, ringSize);
    }
  }

  /**
   Two messages that start at byte counts a and b of the stream, less than a ring apart, keep clear
   of each other in memory exactly if the later one starts before the end of the ring, perhaps
   spilling into the slack, or ends within one ring of the start of the earlier one.
   */
  lemma PairExact(a: nat, sizeA: nat, b: nat, sizeB: nat, ringSize: nat)
    requires ringSize > 0 && sizeA > 0 && sizeB > 0 && a + sizeA <= b < a + ringSize
    ensures Disjoint(a % ringSize, sizeA, b % ringSize, sizeB) <==>
              a % ringSize + (b - a) < ringSize || b + sizeB <= a + ringSize
  {
    OneLap(a, b - a, ringSize);
  }

  /** Messages that together span at most a ring keep clear of each other. */
  lemma SpanKeepsApart(a: nat, sizeA: nat, b: nat, sizeB: nat, ringSize: nat)
    requires ringSize > 0 && a + sizeA <= b && b + sizeB <= a + ringSize
    ensures Disjoint(a % ringSize, sizeA, b % ringSize, sizeB)
  {
    if sizeA > 0 && sizeB > 0 { PairExact(a, sizeA, b, sizeB, ringSize); }
  }

  /** Where message j starts in memory. */
  ghost function Place(sent: seq<Message>, j: nat, ringSize: nat): (r: nat)
    requires j <= |sent| && ringSize > 0
  {
    Total(sent, j) % ringSize
  }

  ghost predicate Apart(sent: seq<Message>, j: nat, k: nat, ringSize: nat)
    requires j < |sent| && k < |sent| && ringSize > 0
  {
    Disjoint(Place(sent, j, ringSize), |sent[j]|, Place(sent, k, ringSize), |sent[k]|)
  }

  /** No later message has been written over message j. */
  ghost predicate Untouched(sent: seq<Message>, j: nat, ringSize: nat)
    requires j < |sent| && ringSize > 0
  {
    forall k :: j < k < |sent| ==> Apart(sent, j, k, ringSize)
  }

  /** All outstanding messages are untouched. */
  ghost predicate Whole(sent: seq<Message>, taken: nat, ringSize: nat)
    requires ringSize > 0
  {
    forall j :: taken <= j < |sent| ==> Untouched(sent, j, ringSize)
  }

  /** Message j lies in memory where the receiver will look for it. */
  ghost predicate Lies(mem: seq<nat>, sent: seq<Message>, j: nat, ringSize: nat)
    requires j < |sent| && ringSize > 0
  {
    var at := Place(sent, j, ringSize);
    at + |sent[j]| <= |mem| && mem[at..at + |sent[j]|] == sent[j]
  }

  // ---------- one more message ----------

  lemma ApartKept(sent: seq<Message>, m: Message, j: nat, k: nat, ringSize: nat)
    requires j < |sent| && k < |sent| && ringSize > 0
    ensures Apart(sent + [m], j, k, ringSize) == Apart(sent, j, k, ringSize)
  {
    TotalPrefix(sent, m, j);
    TotalPrefix(sent, m, k);
  }

  lemma UntouchedNext(sent: seq<Message>, m: Message, j: nat, ringSize: nat)
    requires j < |sent| && ringSize > 0
    ensures Untouched(sent + [m], j, ringSize) <==>
              Untouched(sent, j, ringSize) && Apart(sent + [m], j, |sent|, ringSize)
  {
    hide Apart;
    forall k | j < k < |sent| ensures Apart(sent + [m], j, k, ringSize) == Apart(sent, j, k, ringSize) {
      ApartKept(sent, m, j, k, ringSize);
    }
  }

  /** Where the next message starts, seen from message j. */
  lemma NextFrom(sent: seq<Message>, m: Message, j: nat, ringSize: nat)
    requires j < |sent| && ringSize > 0
    ensures Apart(sent + [m], j, |sent|, ringSize) ==
              Disjoint(Place(sent, j, ringSize), |sent[j]|, Place(sent, |sent|, ringSize), |m|)
    ensures Place(sent, j, ringSize) == Total(sent, j) % ringSize
    ensures Place(sent, |sent|, ringSize) == Total(sent, |sent|) % ringSize
    ensures Total(sent, j) + |sent[j]| <= Total(sent, |sent|)
  {
    TotalPrefix(sent, m, j);
    TotalPrefix(sent, m, |sent|);
    TotalGrows(sent, j, |sent|);
  }

  /** A message of the given size behind the tail leaves all outstanding messages alone. */
  predicate Room(tailer: nat, span: nat, size: nat, ringSize: nat) {
    tailer + span < ringSize || span + size <= ringSize
  }

  lemma RoomKeepsApart(sent: seq<Message>, taken: nat, m: Message, j: nat, ringSize: nat)
    requires ringSize > 0 && taken <= j < |sent|
    requires var a, b := Total(sent, taken), Total(sent, |sent|); a <= b && Room(a % ringSize, b - a, |m|, ringSize)
    ensures Apart(sent + [m], j, |sent|, ringSize)
  {
    var a, b, c := Total(sent, taken), Total(sent, |sent|), Total(sent, j);
    hide Total, Apart;
    NextFrom(sent, m, j, ringSize);
    if taken < j { TotalGrows(sent, taken, j); }
    if a % ringSize + (b - a) < ringSize {
      OneLap(a, b - a, ringSize);
      OneLap(a, c - a, ringSize);
    } else {
      SpanKeepsApart(c, |sent[j]|, b, |m|, ringSize);
    }
  }

  /** The message that holds a byte of the stream. */
  lemma {:induction false} HoldsByte(sent: seq<Message>, taken: nat, n: nat, p: nat) returns (j: nat)
    requires taken <= n <= |sent| && Total(sent, taken) <= p < Total(sent, n)
    ensures taken <= j < n && Total(sent, j) <= p < Total(sent, j) + |sent[j]|
    decreases n
  {
    if Total(sent, n - 1) <= p {
      j := n - 1;
    } else {
      j := HoldsByte(sent, taken, n - 1, p);
    }
  }

  /** With less than a ring outstanding and no room, the first outstanding bytes are overwritten. */
  lemma NoRoomNear(sent: seq<Message>, taken: nat, m: Message, ringSize: nat) returns (j: nat)
    requires ringSize > 0 && taken <= |sent| && m != []
    requires var a, b := Total(sent, taken), Total(sent, |sent|);
             a <= b < a + ringSize && !Room(a % ringSize, b - a, |m|, ringSize)
    ensures taken <= j < |sent| && !Apart(sent + [m], j, |sent|, ringSize)
  {
    var a, b := Total(sent, taken), Total(sent, |sent|);
    hide Total, Apart;
    j := HoldsByte(sent, taken, |sent|, a);
    if taken < j { TotalGrows(sent, taken, j); }
    NextFrom(sent, m, j, ringSize);
    PairExact(a, |sent[j]|, b, |m|, ringSize);
  }

  lemma SharedByte(at: nat, size: nat, at': nat, size': nat, x: nat)
    requires at <= x < at + size && at' <= x < at' + size'
    ensures !Disjoint(at, size, at', size')
  {
  }

  lemma FullLap(p: nat, ringSize: nat)
    requires ringSize > 0
    ensures (p + ringSize) % ringSize == p % ringSize
  {
    OneLap(p, ringSize, ringSize);
  }

  /** The byte a ring before the next message, in message j, lies right where that message starts, or it spilled. */
  lemma ByteBefore(sent: seq<Message>, m: Message, j: nat, p: nat, ringSize: nat)
    requires ringSize > 0 && j < |sent| && m != [] && p + ringSize == Total(sent, |sent|)
    requires Total(sent, j) <= p < Total(sent, j) + |sent[j]|
    requires Total(sent, j) % ringSize + (p - Total(sent, j)) < ringSize
    ensures !Apart(sent + [m], j, |sent|, ringSize)
  {
    hide Total, Apart, Disjoint;
    var c := Total(sent, j);
    NextFrom(sent, m, j, ringSize);
    OneLap(c, p - c, ringSize);
    FullLap(p, ringSize);
    SharedByte(c % ringSize, |sent[j]|, p % ringSize, |m|, p % ringSize);
  }

  lemma TotalNext(sent: seq<Message>, j: nat)
    requires j < |sent|
    ensures Total(sent, j + 1) == Total(sent, j) + |sent[j]|
  {
  }

  lemma NotApart(sent: seq<Message>, j: nat, k: nat, ringSize: nat)
    requires ringSize > 0 && j < k < |sent|
    requires !Disjoint(Total(sent, j) % ringSize, |sent[j]|, Total(sent, k) % ringSize, |sent[k]|)
    ensures !Untouched(sent, j, ringSize)
  {
    assert !Apart(sent, j, k, ringSize);
  }

  /** A message whose spilled byte p has a whole ring behind it has been overwritten by a later one. */
  lemma SpilledIsTouched(sent: seq<Message>, j: nat, p: nat, ringSize: nat)
    requires ringSize > 0 && j < |sent| && p + ringSize == Total(sent, |sent|) && |sent[j]| <= ringSize
    requires Total(sent, j) <= p < Total(sent, j) + |sent[j]|
    requires Total(sent, j) % ringSize + (p - Total(sent, j)) >= ringSize
    ensures !Untouched(sent, j, ringSize)
  {
    hide Total, Untouched, Apart, Disjoint;
    var c := Total(sent, j);
    TotalNext(sent, j);
    var k := HoldsByte(sent, j + 1, |sent|, c + ringSize);
    var e := Total(sent, k);
    TotalGrows(sent, j, k);
    OneLap(c, e - c, ringSize);
    SharedByte(c % ringSize, |sent[j]|, e % ringSize, |sent[k]|, c % ringSize);
    NotApart(sent, j, k, ringSize);
  }

  /** With a ring or more outstanding, all of it whole, every further byte overwrites something. */
  lemma NoRoomFar(sent: seq<Message>, taken: nat, m: Message, ringSize: nat) returns (j: nat)
    requires ringSize > 0 && taken <= |sent| && m != [] && Whole(sent, taken, ringSize)
    requires Total(sent, |sent|) >= Total(sent, taken) + ringSize
    requires forall k :: 0 <= k < |sent| ==> |sent[k]| <= ringSize
    ensures taken <= j < |sent| && !Apart(sent + [m], j, |sent|, ringSize)
  {
    hide Total, Apart, Untouched;
    var p := Total(sent, |sent|) - ringSize;
    j := HoldsByte(sent, taken, |sent|, p);
    if Total(sent, j) % ringSize + (p - Total(sent, j)) >= ringSize {
      SpilledIsTouched(sent, j, p, ringSize);
      assert false;
    }
    ByteBefore(sent, m, j, p, ringSize);
  }

  lemma LastUntouched(sent: seq<Message>, m: Message, ringSize: nat)
    requires ringSize > 0
    ensures Untouched(sent + [m], |sent|, ringSize)
  {
  }

  /** The next message leaves whole what is outstanding exactly if there is room for it. */
  lemma WholeNext(sent: seq<Message>, taken: nat, m: Message, ringSize: nat)
    requires ringSize > 0 && taken <= |sent| && Whole(sent, taken, ringSize)
    requires forall k :: 0 <= k < |sent| ==> |sent[k]| <= ringSize
    ensures Total(sent, taken) <= Total(sent, |sent|)
    ensures Whole(sent + [m], taken, ringSize) <==>
              m == [] || Room(Total(sent, taken) % ringSize, Total(sent, |sent|) - Total(sent, taken), |m|, ringSize)
  {
    hide Total, Apart, Untouched;
    var a, b, n, next := Total(sent, taken), Total(sent, |sent|), |sent|, sent + [m];
    if taken < n { TotalGrows(sent, taken, n); }
    forall j | taken <= j < n
      ensures Untouched(next, j, ringSize) <==> Apart(next, j, n, ringSize)
    {
      UntouchedNext(sent, m, j, ringSize);
    }
    LastUntouched(sent, m, ringSize);
    if m == [] {
      forall j | taken <= j < n ensures Apart(next, j, n, ringSize) { NextFrom(sent, m, j, ringSize); }
    } else if Room(a % ringSize, b - a, |m|, ringSize) {
      forall j | taken <= j < n ensures Apart(next, j, n, ringSize) { RoomKeepsApart(sent, taken, m, j, ringSize); }
    } else {
      var j;
      if b < a + ringSize {
        j := NoRoomNear(sent, taken, m, ringSize);
      } else {
        j := NoRoomFar(sent, taken, m, ringSize);
      }
      assert !Untouched(next, j, ringSize);
    }
  }

  // ---------- memory ----------

  lemma OutsideKept(mem: seq<nat>, at: nat, m: Message, a: nat, size: nat)
    requires at + |m| <= |mem| && a + size <= |mem| && Disjoint(a, size, at, |m|)
    ensures (mem[..at] + m + mem[at + |m|..])[a..a + size] == mem[a..a + size]
  {
    var mem' := mem[..at] + m + mem[at + |m|..];
    var part, part' := mem[a..a + size], mem'[a..a + size];
    forall i | 0 <= i < size ensures part'[i] == part[i] {
      assert mem'[a + i] == mem[a + i];
    }
  }

  lemma PlaceKept(sent: seq<Message>, m: Message, j: nat, ringSize: nat)
    requires j <= |sent| && ringSize > 0
    ensures Place(sent + [m], j, ringSize) == Place(sent, j, ringSize)
  {
    TotalPrefix(sent, m, j);
  }

  lemma StillLies(mem: seq<nat>, sent: seq<Message>, m: Message, j: nat, ringSize: nat)
    requires ringSize > 0 && j < |sent| && Lies(mem, sent, j, ringSize)
    requires Place(sent, |sent|, ringSize) + |m| <= |mem| && Apart(sent + [m], j, |sent|, ringSize)
    ensures var at := Place(sent, |sent|, ringSize);
            Lies(mem[..at] + m + mem[at + |m|..], sent + [m], j, ringSize)
  {
    hide Place, Disjoint;
    PlaceKept(sent, m, j, ringSize);
    PlaceKept(sent, m, |sent|, ringSize);
    OutsideKept(mem, Place(sent, |sent|, ringSize), m, Place(sent, j, ringSize), |sent[j]|);
  }

  lemma NewLies(mem: seq<nat>, sent: seq<Message>, m: Message, ringSize: nat)
    requires ringSize > 0 && Place(sent, |sent|, ringSize) + |m| <= |mem|
    ensures var at := Place(sent, |sent|, ringSize);
            Lies(mem[..at] + m + mem[at + |m|..], sent + [m], |sent|, ringSize)
  {
    hide Place;
    PlaceKept(sent, m, |sent|, ringSize);
  }

  /** After the next message is written, untouched messages lie in place: those that did, and the new one. */
  lemma SentLies(mem: seq<nat>, mem': seq<nat>, sent: seq<Message>, taken: nat, m: Message, ringSize: nat)
    requires ringSize > 0 && taken <= |sent|
    requires forall j :: taken <= j < |sent| && Untouched(sent, j, ringSize) ==> Lies(mem, sent, j, ringSize)
    requires var at := Place(sent, |sent|, ringSize);
             at + |m| <= |mem| && mem' == mem[..at] + m + mem[at + |m|..]
    ensures forall j :: taken <= j < |sent| + 1 && Untouched(sent + [m], j, ringSize) ==>
              Lies(mem', sent + [m], j, ringSize)
  {
    hide Place, Apart, Untouched, Lies;
    forall j | taken <= j < |sent| + 1 && Untouched(sent + [m], j, ringSize)
      ensures Lies(mem', sent + [m], j, ringSize)
    {
      if j < |sent| {
        UntouchedNext(sent, m, j, ringSize);
        StillLies(mem, sent, m, j, ringSize);
      } else {
        NewLies(mem, sent, m, ringSize);
      }
    }
  }

  class RemoteRing {
    const ringSize: nat
    const baseAddr: nat
    var tailer: nat

    constructor (ringSize: nat, baseAddr: nat)
      ensures this.ringSize == ringSize && this.baseAddr == baseAddr && tailer == 0
    {
      this.ringSize, this.baseAddr, tailer := ringSize, baseAddr, 0;
    }

    /** The address of a message of the given size; the ring moves on behind it. */
    method NextAddr(size: nat) returns (addr: nat)
      requires ringSize > 0
      modifies this
      ensures addr == baseAddr + old(tailer) && tailer == (old(tailer) + size) % ringSize
    {
      addr := baseAddr + tailer;
      tailer := (tailer + size) % ringSize;
    }
  }

  class LocalRing {
    const ringSize: nat
    const mem: array<nat>
    var tailer: nat

    constructor (ringSize: nat, mem: array<nat>)
      ensures this.ringSize == ringSize && this.mem == mem && tailer == 0
    {
      this.ringSize, this.mem, tailer := ringSize, mem, 0;
    }

    /** The next message of the given size, unless it would run past the memory. */
    method CurMsg(size: nat) returns (r: Option<Message>)
      requires ringSize > 0
      modifies this
      ensures r.None? <==> size + old(tailer) > mem.Length
      ensures r.None? ==> tailer == old(tailer)
      ensures r.Some? ==> r.value == mem[old(tailer)..old(tailer) + size] && tailer == (old(tailer) + size) % ringSize
    {
      if size + tailer > mem.Length {
        return None;
      }
      r := Some(mem[tailer..tailer + size]);
      tailer := (tailer + size) % ringSize;
    }
  }

  lemma AddressesKept(sent: seq<Message>, m: Message)
    ensures forall j :: 0 <= j <= |sent| ==> Total(sent + [m], j) == Total(sent, j)
  {
    forall j | 0 <= j <= |sent| ensures Total(sent + [m], j) == Total(sent, j) {
      TotalPrefix(sent, m, j);
    }
  }

  /** A sender's ring, the receiver's ring, and the memory between them. */
  class Channel {
    const maxMsg: nat
    const remote: RemoteRing
    const local: LocalRing
    /** Every message ever sent with the address it went to, and how many the receiver has taken. */
    ghost var sent: seq<Message>
    ghost var addrs: seq<nat>
    ghost var taken: nat

    /** Bytes between the start of the oldest outstanding message and the end of the newest. */
    ghost function Span(): nat
      requires Valid()
      reads this, remote, local, local.mem
    {
      if taken < |sent| then
        TotalGrows(sent, taken, |sent|);
        Total(sent, |sent|) - Total(sent, taken)
      else 0
    }

    /**
     Both ends wrap the same byte counts, whatever was sent and taken, and every outstanding
     message that no later one was written over lies where the receiver will look.
     */
    ghost predicate Valid()
      reads this, remote, local, local.mem
    {
      && local.ringSize == remote.ringSize > 0 && maxMsg <= local.ringSize
      && local.mem.Length == local.ringSize + maxMsg
      && taken <= |sent| == |addrs|
      && (forall j :: 0 <= j < |sent| ==> |sent[j]| <= maxMsg)
      && (forall j :: 0 <= j < |sent| ==> addrs[j] == remote.baseAddr + Total(sent, j) % local.ringSize)
      && remote.tailer == Total(sent, |sent|) % local.ringSize
      && local.tailer == Total(sent, taken) % local.ringSize
      && (forall j :: taken <= j < |sent| && Untouched(sent, j, local.ringSize) ==>
            Lies(local.mem[..], sent, j, local.ringSize))
    }

    constructor (ringSize: nat, maxMsg: nat, baseAddr: nat)
      requires 0 < ringSize && maxMsg <= ringSize
      ensures Valid() && sent == [] && taken == 0 && this.maxMsg == maxMsg && local.ringSize == ringSize
      ensures fresh(remote) && fresh(local) && fresh(local.mem)
    {
      var mem := new nat[ringSize + maxMsg];
      this.maxMsg := maxMsg;
      remote := new RemoteRing(ringSize, baseAddr);
      local := new LocalRing(ringSize, mem);
      sent, addrs, taken := [], [], 0;
    }

    /** The remote write: the message arrives at an address of the receiver's region. */
    method Write(addr: nat, m: Message)
      requires remote.baseAddr <= addr && addr - remote.baseAddr + |m| <= local.mem.Length
      modifies local.mem
      ensures var at := addr - remote.baseAddr;
              local.mem[..] == old(local.mem[..at]) + m + old(local.mem[at + |m|..])
    {
      var at := addr - remote.baseAddr;
      for i := 0 to |m|
        invariant forall k :: 0 <= k < i ==> local.mem[at + k] == m[k]
        invariant forall k :: 0 <= k < local.mem.Length && !(at <= k < at + i) ==> local.mem[k] == old(local.mem[k])
      {
        local.mem[at + i] := m[i];
      }
    }

    /**
     Sends any message of allowed size. What was whole stays whole exactly if there is room, which
     the receiver's tail and the bytes outstanding tell beforehand.
     */
    method Send(m: Message)
      requires Valid() && |m| <= maxMsg
      modifies this, remote, local.mem
      ensures Valid() && sent == old(sent) + [m] && taken == old(taken)
      ensures addrs == old(addrs) + [old(remote.baseAddr + remote.tailer)]
      ensures old(Whole(sent, taken, local.ringSize)) ==>
                (Whole(sent, taken, local.ringSize) <==>
                   m == [] || old(Room(local.tailer, Span(), |m|, local.ringSize)))
    {
      hide Total, Lies, Untouched, Whole, Room;
      ghost var mem := local.mem[..];
      TotalPrefix(sent, m, taken);
      TotalAppend(sent, m, |sent|);
      AddressesKept(sent, m);
      WrapOnce(Total(sent, |sent|), |m|, local.ringSize);
      if Whole(sent, taken, local.ringSize) { WholeNext(sent, taken, m, local.ringSize); }
      var addr := remote.NextAddr(|m|);
      Write(addr, m);
      SentLies(mem, local.mem[..], sent, taken, m, local.ringSize);
      sent, addrs := sent + [m], addrs + [addr];
    }

    /**
     For every run of messages the receiver finds the oldest outstanding one at the address it was
     sent to; it gets what was sent unless a later message was written over it.
     */
    method Receive(size: nat) returns (r: Option<Message>)
      requires Valid() && taken < |sent| && size == |sent[taken]|
      modifies this, local
      ensures Valid() && taken == old(taken) + 1 && sent == old(sent) && addrs == old(addrs)
      ensures remote.baseAddr + old(local.tailer) == addrs[old(taken)]
      ensures r.Some? && r.value == old(local.mem[local.tailer..local.tailer + size])
      ensures Untouched(sent, old(taken), local.ringSize) ==> r == Some(sent[old(taken)])
    {
      hide Total, Untouched;
      TotalNext(sent, taken);
      WrapOnce(Total(sent, taken), size, local.ringSize);
      r := local.CurMsg(size);
      taken := taken + 1;
    }
  }

  lemma Overwritten(mem: seq<nat>)
    requires |mem| == 8 && Lies(mem, [[1, 1, 1], [2, 2, 2], [3]], 2, 4)
    ensures Total([[1, 1, 1], [2, 2, 2], [3]], 0) == 0 && mem[0..3] != [1, 1, 1]
  {
    var sent := [[1, 1, 1], [2, 2, 2], [3]];
    assert Total(sent, 1) == 3 && Total(sent, 2) == 6;
    assert mem[2..3][0] == 3;
    assert mem[0..3][2] == mem[2] && [1, 1, 1][2] == 1;
  }

  /** Nothing keeps a sender from sending without room; then a message can be overwritten before it is read. */
  method Overrun() returns (c: Channel, r: Option<Message>)
    ensures c.Valid() && c.sent == [[1, 1, 1], [2, 2, 2], [3]] && c.taken == 1
    ensures r.Some? && |r.value| == |c.sent[0]| && r.value != c.sent[0]
  {
    hide Total, Untouched, Apart, Whole, Room, Lies;
    c := new Channel(4, 4, 0);
    c.Send([1, 1, 1]);
    c.Send([2, 2, 2]);
    c.Send([3]);
    assert c.sent == [[1, 1, 1], [2, 2, 2], [3]];
    assert c.sent[..2] == [[1, 1, 1], [2, 2, 2]] && c.sent == c.sent[..2] + [[3]];
    LastUntouched([[1, 1, 1], [2, 2, 2]], [3], 4);
    Overwritten(c.local.mem[..]);
    r := c.Receive(3);
  }

  // ---------- what travels with a message ----------

  const HALF: nat := 0x1_0000

  /** Session id and size in one 32-bit word; the size is first cast to 16 bits. */
  function EncodeIdSize(id: nat, size: nat): (r: nat)
    requires id < HALF
    ensures r < HALF * HALF
  {
    id * HALF + size % HALF
  }

  function DecodeIdSize(val: nat): (nat, nat) { (val / HALF % HALF, val % HALF) }

  /** The receiver learns the true size exactly of messages shorter than 2^16 bytes. */
  lemma SizeSurvives(id: nat, size: nat)
    requires id < HALF
    ensures EncodeIdSize(id, size) / 0x1_0000 == id && EncodeIdSize(id, size) % 0x1_0000 == size % 0x1_0000
    ensures DecodeIdSize(EncodeIdSize(id, size)).0 == id
    ensures DecodeIdSize(EncodeIdSize(id, size)).1 == size <==> size < HALF
  {
  }

  // ---------- completions of sends ----------

  /**
   The sender's bookkeeping of completions. Send number i of all posted sends may be signalled; a
   wait reaps the oldest signalled send, and with it every send before.
   */
  class SendQueue {
    const sendDepth: nat
    var pendingSends: nat
    ghost var posted: nat
    ghost var reaped: nat
    /** The signalled sends that no wait has reaped, oldest first. */
    ghost var marks: seq<nat>
    /** The most sends that were ever posted and not reaped. */
    ghost var peak: nat

    ghost predicate Valid()
      reads this
    {
      && pendingSends <= sendDepth && reaped <= posted && peak <= 2 * sendDepth + 1
      && if pendingSends == 0 then
           marks == [] && posted - reaped <= sendDepth
         else
           && |marks| == 1 && reaped <= marks[0] < posted
           && marks[0] - reaped <= sendDepth && posted - marks[0] <= pendingSends
    }

    constructor (sendDepth: nat)
      ensures Valid() && this.sendDepth == sendDepth && posted == reaped == 0 && pendingSends == peak == 0
    {
      this.sendDepth, pendingSends, posted, reaped, marks, peak := sendDepth, 0, 0, 0, [], 0;
    }

    ghost method Post(signalled: bool)
      requires reaped <= posted
      modifies this`posted, this`marks, this`peak
      ensures posted == old(posted) + 1 && marks == if signalled then old(marks) + [old(posted)] else old(marks)
      ensures peak == if posted - reaped > old(peak) then posted - reaped else old(peak)
    {
      marks := if signalled then marks + [posted] else marks;
      posted := posted + 1;
      peak := if posted - reaped > peak then posted - reaped else peak;
    }

    /** A wait needs a signalled send to wait for, or it never returns. */
    ghost method WaitOneComp()
      requires marks != []
      modifies this`reaped, this`marks
      ensures reaped == old(marks[0]) + 1 && marks == old(marks)[1..]
    {
      reaped, marks := marks[0] + 1, marks[1..];
    }

    /** Signals the first send after a wait and waits once every sendDepth + 1 sends. */
    method SendUnsignaled()
      requires Valid()
      modifies this
      ensures Valid() && posted == old(posted) + 1
      ensures pendingSends == if old(pendingSends) >= sendDepth then 0 else old(pendingSends) + 1
      ensures old(pendingSends) < sendDepth ==> reaped == old(reaped)
      ensures old(pendingSends) >= sendDepth ==> reaped == (if old(marks) == [] then old(posted) else old(marks)[0]) + 1
      ensures marks == if old(pendingSends) >= sendDepth then []
                       else if old(pendingSends) == 0 then [old(posted)] else old(marks)
      ensures peak == if old(posted - reaped) + 1 > old(peak) then old(posted - reaped) + 1 else old(peak)
    {
      Post(pendingSends == 0);
      if pendingSends >= sendDepth {
        WaitOneComp();
        pendingSends := 0;
      } else {
        pendingSends := pendingSends + 1;
      }
    }

    /** Waits for one completion, which is its own only if no signalled send is outstanding. */
    method SendBlocking()
      requires Valid()
      modifies this
      ensures Valid() && posted == old(posted) + 1 && pendingSends == old(pendingSends)
      ensures reaped == posted <==> old(pendingSends) == 0
      ensures reaped == (if old(pendingSends) == 0 then old(posted) else old(marks)[0]) + 1
      ensures marks == if old(pendingSends) == 0 then [] else [old(posted)]
      ensures peak == if old(posted - reaped) + 1 > old(peak) then old(posted - reaped) + 1 else old(peak)
    {
      Post(true);
      WaitOneComp();
    }
  }

  /** The bound on sends in flight is met: it is one more than twice the depth. */
  method ReachPeak(sendDepth: nat) returns (q: SendQueue)
    ensures q.Valid() && q.sendDepth == sendDepth && q.peak == 2 * sendDepth + 1
  {
    q := new SendQueue(sendDepth);
    for i := 0 to sendDepth
      invariant fresh(q) && q.Valid() && q.sendDepth == sendDepth && q.pendingSends == q.posted == i && q.reaped == 0
      invariant i > 0 ==> q.marks == [0]
    {
      q.SendUnsignaled();
    }
    q.SendUnsignaled();
    assert q.posted - q.reaped == sendDepth;
    for i := 0 to sendDepth
      invariant fresh(q) && q.Valid() && q.sendDepth == sendDepth && q.pendingSends == i
      invariant q.posted - q.reaped == sendDepth + i
    {
      q.SendUnsignaled();
    }
    q.SendUnsignaled();
  }
}
