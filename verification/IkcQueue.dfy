/**
 The packet queue as one kernel uses it when nobody interferes: the in-place form of the
 ring, with its header counters and its buffer of fixed-size packets.
 */
module IkcQueue {
  import opened IkcRing
  import opened RingMath

  const HEADER_SIZE := 64
  const WORD_SIZE := 8

  datatype ReadResult = Empty | Got(pkt: Packet)
  datatype WriteResult = Busy | Stored

  function Row(slots: array2<Word>, i: nat): Packet
    requires i < slots.Length0
    reads slots
  {
    seq(slots.Length1, j requires 0 <= j < slots.Length1 && i < slots.Length0 reads slots => slots[i, j])
  }

  class Queue {
    var pktsize: nat
    var pktcount: nat
    var readOff: nat
    var maxReadOff: nat
    var writeOff: nat
    var slots: array2<Word>

    ghost predicate Valid()
      reads this, slots
    {
      && 1 <= pktcount == slots.Length0 && slots.Length1 == pktsize / WORD_SIZE
      && readOff <= maxReadOff == writeOff && writeOff - readOff <= pktcount - 1
    }

    // The packets waiting, oldest first.
    ghost function Contents(): seq<Packet>
      requires Valid()
      reads this, slots
    {
      seq(writeOff - readOff, i requires 0 <= i requires Valid() reads this,
        slots => Row(slots, (readOff + i) % pktcount))
    }

    // A queue too small for one packet has no slots and is not fit for use.
    constructor (size: nat, packetsize: nat)
      requires 0 < packetsize && HEADER_SIZE <= size
      ensures fresh(slots) && (Valid() <==> HEADER_SIZE + packetsize <= size) && (Valid() ==> Contents() == [])
      ensures pktsize == packetsize && pktcount * packetsize <= size - HEADER_SIZE < (pktcount + 1) * packetsize
    {
      pktsize := packetsize;
      pktcount := (size - HEADER_SIZE) / packetsize;
      readOff, maxReadOff, writeOff := 0, 0, 0;
      slots := new Word[(size - HEADER_SIZE) / packetsize, packetsize / WORD_SIZE];
      new;
      DivBounds(size - HEADER_SIZE, packetsize);
    }

    method IsEmpty() returns (empty: bool)
      requires Valid()
      ensures empty <==> Contents() == []
    {
      empty := readOff == maxReadOff;
    }

    method IsFull() returns (full: bool)
      requires Valid()
      ensures full <==> |Contents()| == pktcount - 1
    {
      full := writeOff - readOff == pktcount - 1;
    }

    // Removes and returns the oldest packet, or reports that there is none.
    method Read() returns (r: ReadResult)
      requires Valid()
      modifies this`readOff
      ensures Valid()
      ensures old(Contents()) == [] ==> r == Empty && Contents() == []
      ensures old(Contents()) != [] ==> r.Got? && old(Contents()) == [r.pkt] + Contents()
    {
      var t, m := readOff, maxReadOff;
      if t == m { return Empty; }
      readOff := t + 1;
      var pkt := [];
      while |pkt| < slots.Length1
        invariant |pkt| <= slots.Length1
        invariant forall j :: 0 <= j < |pkt| ==> pkt[j] == slots[t % pktcount, j]
      {
        pkt := pkt + [slots[t % pktcount, |pkt|]];
      }
      assert pkt == Row(slots, t % pktcount) == old(Contents())[0];
      assert Contents() == old(Contents())[1..];
      return Got(pkt);
    }

    // Appends a packet; a full queue is looked at WRITE_QUEUE_RETRY + 1 times and then refused untouched.
    method Write(pkt: Packet) returns (r: WriteResult)
      requires Valid() && |pkt| == pktsize / WORD_SIZE
      modifies this`writeOff, this`maxReadOff, slots
      ensures Valid()
      ensures r == Busy <==> |old(Contents())| == pktcount - 1
      ensures Contents() == if r == Busy then old(Contents()) else old(Contents()) + [pkt]
    {
      var attempt := 0;
      while writeOff - readOff == pktcount - 1
        invariant attempt <= WRITE_QUEUE_RETRY
        invariant attempt > 0 ==> writeOff - readOff == pktcount - 1
        decreases WRITE_QUEUE_RETRY - attempt
      {
        attempt := attempt + 1;
        if attempt > WRITE_QUEUE_RETRY { return Busy; }
      }
      var w := writeOff;
      writeOff := w + 1;
      var k := 0;
      while k < |pkt|
        modifies slots
        invariant k <= |pkt|
        invariant forall j :: 0 <= j < k ==> slots[w % pktcount, j] == pkt[j]
        invariant forall i, j :: 0 <= i < pktcount && 0 <= j < slots.Length1 && i != w % pktcount ==>
          slots[i, j] == old(slots[i, j])
      {
        slots[w % pktcount, k] := pkt[k];
        k := k + 1;
      }
      maxReadOff := w + 1;
      forall t: nat | readOff <= t < w ensures Row(slots, t % pktcount) == old(Row(slots, t % pktcount)) {
        SlotsDiffer(t, w, pktcount);
      }
      assert Row(slots, w % pktcount) == pkt;
      return Stored;
    }
  }

  lemma DivBounds(a: nat, b: nat)
    requires 0 < b
    ensures (1 <= a / b <==> b <= a) && (a / b) * b <= a < (a / b + 1) * b
  {
    assert a == b * (a / b) + a % b;
  }
}
