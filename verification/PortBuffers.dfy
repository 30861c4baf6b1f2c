/** port_buf_t of kernel/port.c: a circular buffer whose size is a power of two. */
module PortBuffers {
  import opened Arith

  /** port_packet_t */
  type Packet = nat

  const NO_ERROR: int := 0
  const ERR_NO_MSG: int := -4
  const ERR_NOT_ENOUGH_BUFFER: int := -9

  class PortBuf {
    const log2: nat
    const packet: array<Packet>
    var avail: nat
    var head: nat
    var tail: nat

    ghost predicate Valid()
      reads this
    {
      && packet.Length == Pow2(log2) && avail <= packet.Length
      && head < packet.Length && tail == Rem(head + (packet.Length - avail), packet.Length)
    }

    /** The unread packets, oldest first. */
    ghost function Contents(): (s: seq<Packet>)
      requires Valid()
      reads this, packet
    {
      Window(packet[..], head, packet.Length - avail)
    }

    /** make_buf, for 2^log2 packets */
    constructor (log2: nat)
      ensures Valid() && this.log2 == log2 && Contents() == [] && fresh(packet)
    {
      this.log2 := log2;
      packet := new Packet[Pow2(log2)](_ => 0);
      avail, head, tail := Pow2(log2), 0, 0;
    }

    /** buf_is_empty */
    predicate IsEmpty()
      requires Valid()
      reads this, packet
      ensures IsEmpty() == (Contents() == [])
    {
      avail == packet.Length
    }

    /** One turn of the loop of buf_write; `n` packets are in the buffer, counting those of this call. */
    method Store(ghost n: nat, x: Packet)
      requires packet.Length == Pow2(log2) && n < packet.Length && tail == Rem(head + n, packet.Length)
      modifies this`tail, packet
      ensures tail == Rem(head + (n + 1), packet.Length)
      ensures Window(packet[..], head, n + 1) == old(Window(packet[..], head, n)) + [x]
    {
      ghost var was := packet[..];
      WindowPush(was, head, n, x);
      packet[tail] := x;
      assert packet[..] == was[tail := x];
      NextSlot(head + n, packet.Length);
      tail := Rem(tail + 1, packet.Length);
    }

    /** buf_write: all of the packets, or none */
    method Write(packets: seq<Packet>) returns (status: int)
      requires Valid()
      modifies this`avail, this`tail, packet
      ensures Valid()
      ensures if |old(Contents())| + |packets| <= Pow2(log2)
              then status == NO_ERROR && Contents() == old(Contents()) + packets
              else status == ERR_NOT_ENOUGH_BUFFER && Contents() == old(Contents())
    {
      if avail < |packets| {
        return ERR_NOT_ENOUGH_BUFFER;
      }
      ghost var used := packet.Length - avail;
      hide Window, Rem;
      var ix := 0;
      while ix < |packets|
        invariant ix <= |packets| <= avail == old(avail) && packet.Length == Pow2(log2) && head < packet.Length
        invariant tail == Rem(head + used + ix, packet.Length)
        invariant Window(packet[..], head, used + ix) == old(Contents()) + packets[..ix]
      {
        Store(used + ix, packets[ix]);
        assert packets[..ix + 1] == packets[..ix] + [packets[ix]];
        ix := ix + 1;
      }
      avail := avail - |packets|;
      return NO_ERROR;
    }

    /** buf_read: the oldest packet */
    method Read() returns (status: int, result: Packet)
      requires Valid()
      modifies this`avail, this`head
      ensures Valid()
      ensures if old(Contents()) == [] then status == ERR_NO_MSG && Contents() == []
              else status == NO_ERROR && result == old(Contents())[0] && Contents() == old(Contents())[1..]
    {
      if avail == packet.Length {
        return ERR_NO_MSG, 0;
      }
      WindowPop(packet[..], head, packet.Length - avail);
      TailStays(head, packet.Length - avail, packet.Length);
      result := packet[head];
      head := Rem(head + 1, packet.Length);
      avail := avail + 1;
      status := NO_ERROR;
    }
  }

  lemma TailStays(head: nat, used: nat, n: nat)
    requires n > 0 && used > 0
    ensures Rem(Rem(head + 1, n) + (used - 1), n) == Rem(head + used, n)
  {
    SlotOfSum(head + 1, used - 1, n);
  }

  /** The `n` packets from `head` on. */
  function Window(ring: seq<Packet>, head: nat, n: nat): (s: seq<Packet>)
    requires |ring| > 0
    ensures |s| == n && forall i :: 0 <= i < n ==> s[i] == ring[Rem(head + i, |ring|)]
  {
    seq(n, (i: nat) => ring[Rem(head + i, |ring|)])
  }

  lemma WindowPush(ring: seq<Packet>, head: nat, n: nat, x: Packet)
    requires n < |ring|
    ensures Window(ring[Rem(head + n, |ring|) := x], head, n + 1) == Window(ring, head, n) + [x]
  {
    var w := Window(ring[Rem(head + n, |ring|) := x], head, n + 1);
    forall i | 0 <= i < n
      ensures w[i] == Window(ring, head, n)[i]
    {
      SlotsDiffer(head + i, head + n, |ring|);
    }
  }

  lemma WindowPop(ring: seq<Packet>, head: nat, n: nat)
    requires 0 < n && head < |ring|
    ensures Window(ring, head, n)[0] == ring[head]
    ensures Window(ring, Rem(head + 1, |ring|), n - 1) == Window(ring, head, n)[1..]
  {
    var w := Window(ring, Rem(head + 1, |ring|), n - 1);
    forall i | 0 <= i < n - 1
      ensures w[i] == Window(ring, head, n)[i + 1]
    {
      SlotOfSum(head + 1, i, |ring|);
    }
  }

  lemma SlotOfSum(a: nat, i: nat, n: nat)
    requires n > 0
    ensures Rem(Rem(a, n) + i, n) == Rem(a + i, n)
  {
    QuotRem(a, n);
    RemOfMultiple(Quot(a, n), n, Rem(a, n) + i);
  }
}
