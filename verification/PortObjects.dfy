/** kernel/port.c in place: a write port, its read ports, and the buffers that pass between them. */
module PortObjects {
  import opened Arith
  import opened PortBuffers
  import opened Ports

  /** log2 of PORT_BUFF_SIZE and PORT_BUFF_SIZE_BIG */
  const LOG2_SMALL: nat := 3
  const LOG2_BIG: nat := 6

  ghost function BufferOf(b: PortBuf): Buffer
    requires b.Valid()
    reads b, b.packet
  {
    Buffer(b.Contents(), Pow2(b.log2))
  }

  class ReadPort {
    const id: nat
    const wport: WritePort
    var buf: PortBuf?
    ghost var got: seq<Packet>
    ghost var inherited: seq<Packet>
    ghost var accepted: seq<Packet>

    ghost predicate Valid()
      reads this, buf
    {
      buf != null && buf.Valid()
    }

    ghost function View(): Reader
      requires Valid()
      reads this, buf, if buf == null then {} else {buf.packet}
    {
      Reader(id, BufferOf(buf), got, inherited, accepted)
    }

    constructor (id: nat, wport: WritePort, buf: PortBuf)
      requires buf.Valid()
      ensures Valid() && this.id == id && this.wport == wport && this.buf == buf
      ensures View() == Reader(id, BufferOf(buf), [], buf.Contents(), [])
    {
      this.id, this.wport, this.buf := id, wport, buf;
      got, inherited, accepted := [], buf.Contents(), [];
    }

    /** buf_write in the loop of port_write */
    method Deliver(packets: seq<Packet>) returns (ok: bool)
      requires Valid()
      modifies this`accepted, buf`avail, buf`tail, buf.packet
      ensures Valid() && ok == Fits(old(View()).buf, packets) && View() == Offer(old(View()), packets)
    {
      var status := buf.Write(packets);
      ok := status >= 0;
      if ok {
        accepted := accepted + packets;
      }
    }

    /** buf_read in read_no_lock; where the source would block, ERR_TIMED_OUT. */
    method Take() returns (status: int, packet: Packet)
      requires Valid()
      modifies this`got, buf`avail, buf`head
      ensures Valid() && status == if old(View()).buf.packets == [] then ERR_TIMED_OUT else NO_ERROR
      ensures status == NO_ERROR ==>
                var r := old(View());
                packet == r.buf.packets[0]
                && View() == r.(buf := r.buf.(packets := r.buf.packets[1..]), got := r.got + [packet])
      ensures status != NO_ERROR ==> View() == old(View())
    {
      status, packet := buf.Read();
      if status != ERR_NO_MSG {
        got := got + [packet];
        return;
      }
      status := ERR_TIMED_OUT;
    }
  }

  class WritePort {
    var open: bool
    const unicast: bool
    var buf: PortBuf?
    var readers: seq<ReadPort>

    ghost function Repr(): set<object>
      reads this, readers
    {
      {this as object} + (set r | r in readers :: r as object)
      + (if buf == null then {} else {buf as object, buf.packet as object})
      + (set r | r in readers && r.buf != null :: r.buf as object)
      + (set r | r in readers && r.buf != null :: r.buf.packet as object)
    }

    /** Each reader has a buffer of its own; the write port has one iff there are no readers. */
    ghost predicate Valid()
      reads this, readers, Repr()
    {
      && (forall r :: r in readers ==> r.Valid() && r.wport == this)
      && (forall i, j :: 0 <= i < j < |readers| ==> Apart(readers[i], readers[j]))
      && (buf != null ==> buf.Valid())
      && (buf != null <==> readers == [])
    }

    ghost predicate Apart(r: ReadPort, s: ReadPort)
      reads r, s
    {
      && r != s && r.buf != s.buf && r.id != s.id
      && (r.buf != null && s.buf != null ==> r.buf.packet != s.buf.packet)
    }

    ghost function ReadersOf(): (rs: seq<Reader>)
      requires Valid()
      reads this, readers, Repr()
      ensures |rs| == |readers|
    {
      seq(|readers|, (i: nat) requires i < |readers| && Valid() reads this, readers, Repr() => readers[i].View())
    }

    ghost function View(): Port
      requires Valid()
      reads this, readers, Repr()
    {
      Port(open, unicast, if buf == null then [] else [BufferOf(buf)], ReadersOf())
    }

    /** The end of port_create */
    constructor (unicast: bool, big: bool)
      ensures Valid() && fresh(Repr())
      ensures View() == Port(true, unicast, [Buffer([], Pow2(if big then LOG2_BIG else LOG2_SMALL))], [])
    {
      open, this.unicast, readers := true, unicast, [];
      buf := new PortBuf(if big then LOG2_BIG else LOG2_SMALL);
    }

    /** port_open, once the write port is found by name; `id` is new. */
    method Open(id: nat) returns (status: int, port: ReadPort?)
      requires Valid() && forall r :: r in readers ==> r.id != id
      modifies this
      ensures Valid() && (View(), status) == Ports.Open(old(View()), id)
      ensures status == NO_ERROR <==> port != null
      ensures status == NO_ERROR ==> fresh(port) && readers == old(readers) + [port]
    {
      var small := new PortBuf(LOG2_SMALL);
      SmallIs();
      if buf != null {
        port := AddReader(id, buf);
        buf := null;
        assert ReadersOf() == old(ReadersOf()) + [port.View()];
        status := NO_ERROR;
      } else if unicast {
        assert ReadersOf() == old(ReadersOf());
        return ERR_NOT_ALLOWED, null;
      } else {
        port := AddReader(id, small);
        assert ReadersOf() == old(ReadersOf()) + [port.View()];
        status := NO_ERROR;
      }
    }

    /** A new reader goes to the tail of the list, with buffer `b`. */
    method AddReader(id: nat, b: PortBuf) returns (port: ReadPort)
      requires Valid() && b.Valid() && forall r :: r in readers ==> r.id != id && r.buf != b && r.buf.packet != b.packet
      modifies this`readers
      ensures fresh(port) && readers == old(readers) + [port] && port.buf == b && port.wport == this
      ensures port.Valid() && port.View() == Reader(id, BufferOf(b), [], b.Contents(), [])
      ensures forall j, k :: 0 <= j < k < |readers| ==> Apart(readers[j], readers[k])
      ensures forall r :: r in old(readers) ==> r.Valid() && r.wport == this && r.View() == old(r.View())
    {
      port := new ReadPort(id, this, b);
      readers := readers + [port];
      assert forall j :: 0 <= j < |old(readers)| ==> old(readers)[j] in old(readers);
    }

    /** port_write, without waking readers */
    method Write(packets: seq<Packet>) returns (status: int)
      requires Valid()
      modifies Repr()
      ensures Valid() && readers == old(readers) && (View(), status) == Ports.Write(old(View()), packets)
    {
      if !open {
        return ERR_BAD_HANDLE;
      }
      if buf != null {
        status := buf.Write(packets);
        assert ReadersOf() == [];
      } else {
        InRepr();
        status := WriteToReaders(packets, Repr());
      }
    }

    /** The loop of port_write over the readers */
    method WriteToReaders(packets: seq<Packet>, ghost frame: set<object>) returns (status: int)
      requires Valid() && buf == null
      requires Covers(frame)
      modifies frame
      ensures Valid() && readers == old(readers) && buf == null && open == old(open)
      ensures ReadersOf() == OfferAll(old(ReadersOf()), packets)
      ensures status == if RoomForAll(old(ReadersOf()), packets) then NO_ERROR else ERR_PARTIAL_WRITE
    {
      hide *;
      ghost var rs, all, wasOpen := ReadersOf(), readers, open;
      status := NO_ERROR;
      NothingOffered(packets, frame);
      var n, i := |readers|, 0;
      while i < n
        invariant i <= n == |all| && Offering(rs, i, packets, frame, status, all, wasOpen)
      {
        status := OfferNext(i, packets, frame, rs, status, all, wasOpen);
        i := i + 1;
      }
      Offered(rs, packets, frame, status, all, wasOpen);
    }

    /** The first `i` readers were offered the packets, and nothing else changed. */
    ghost predicate Offering(rs: seq<Reader>, i: nat, packets: seq<Packet>, frame: set<object>, status: int,
                             all: seq<ReadPort>, wasOpen: bool)
      reads this, readers, Repr()
    {
      && Valid() && readers == all && buf == null && open == wasOpen && i <= |readers| == |rs| && Covers(frame)
      && ReadersOf() == OfferedTo(rs, i, packets) && StatusIs(status, AllFit(rs, i, packets))
    }

    lemma NothingOffered(packets: seq<Packet>, frame: set<object>)
      requires Valid() && buf == null && Covers(frame)
      ensures Offering(ReadersOf(), 0, packets, frame, NO_ERROR, readers, open)
    {
      OfferedStart(ReadersOf(), packets);
    }

    lemma Offered(rs: seq<Reader>, packets: seq<Packet>, frame: set<object>, status: int, all: seq<ReadPort>, wasOpen: bool)
      requires Offering(rs, |all|, packets, frame, status, all, wasOpen)
      ensures Valid() && readers == all && buf == null && open == wasOpen
      ensures ReadersOf() == OfferAll(rs, packets)
      ensures status == if RoomForAll(rs, packets) then NO_ERROR else ERR_PARTIAL_WRITE
    {
      OfferedAll(rs, packets);
    }

    /** One turn of the loop: reader `i` is offered the packets. */
    method OfferNext(i: nat, packets: seq<Packet>, ghost frame: set<object>, ghost rs: seq<Reader>, status: int,
                     ghost all: seq<ReadPort>, ghost wasOpen: bool) returns (status': int)
      requires Offering(rs, i, packets, frame, status, all, wasOpen) && i < |all|
      modifies frame
      ensures Offering(rs, i + 1, packets, frame, status', all, wasOpen)
    {
      hide WritePort.Valid, WritePort.ReadersOf, WritePort.Covers, WritePort.Repr, OfferedTo, AllFit, Offer, Fits;
      var rp := readers[i];
      CoversOne(frame, i);
      OfferedNext(rs, i, packets);
      var ok := DeliverTo(i, rp, packets, frame);
      status' := status;
      if !ok {
        // buffer full
        status' := ERR_PARTIAL_WRITE;
      }
      StatusNext(status, status', AllFit(rs, i, packets), ok);
    }

    /** `frame` holds all readers and their buffers. */
    ghost predicate Covers(frame: set<object>)
      reads this, readers
    {
      forall r :: r in readers ==> r.buf != null && r in frame && r.buf in frame && r.buf.packet in frame
    }

    lemma CoversOne(frame: set<object>, i: nat)
      requires Covers(frame) && i < |readers|
      ensures readers[i].buf != null && readers[i] in frame && readers[i].buf in frame && readers[i].buf.packet in frame
    {
      assert readers[i] in readers;
    }

    lemma InRepr()
      requires Valid()
      ensures Covers(Repr())
    {
    }

    /** One turn of the loop: only reader `i` changes. */
    method DeliverTo(i: nat, rp: ReadPort, packets: seq<Packet>, ghost frame: set<object>) returns (ok: bool)
      requires Valid() && i < |readers| && rp == readers[i] && rp.buf != null && Covers(frame)
      modifies rp`accepted, rp.buf, rp.buf.packet
      ensures Valid() && readers == old(readers) && buf == null && open == old(open)
      ensures ok == Fits(old(ReadersOf())[i].buf, packets)
      ensures Covers(frame)
      ensures ReadersOf() == old(ReadersOf())[i := Offer(old(ReadersOf())[i], packets)]
    {
      ghost var rs := ReadersOf();
      Others(i);
      label before:
      ok := rp.Deliver(packets);
      forall j | 0 <= j < |readers| && j != i
        ensures readers[j].Valid() && readers[j].View() == old@before(readers[j].View())
      {
        assert readers[j] in readers;
      }
      Reassemble(i, rs);
    }

    /** The buffers of the other readers are other objects. */
    lemma Others(i: nat)
      requires Valid() && i < |readers|
      ensures readers[i] in readers
      ensures forall j :: 0 <= j < |readers| && j != i ==>
                readers[j] != readers[i] && readers[j].buf != null && readers[j].buf != readers[i].buf
                && readers[j].buf.packet != readers[i].buf.packet
    {
      assert readers[i] in readers;
      forall j | 0 <= j < |readers| && j != i
        ensures readers[j] != readers[i] && readers[j].buf != null && readers[j].buf != readers[i].buf
        ensures readers[j].buf.packet != readers[i].buf.packet
      {
        assert readers[j] in readers;
        assert if i < j then Apart(readers[i], readers[j]) else Apart(readers[j], readers[i]);
      }
    }

    /** All readers are in order again, and only the one at `i` differs from `rs`. */
    lemma Reassemble(i: nat, rs: seq<Reader>)
      requires i < |readers| == |rs| && buf == null
      requires forall j :: 0 <= j < |readers| ==> readers[j].Valid() && readers[j].wport == this
      requires forall j, k :: 0 <= j < k < |readers| ==> Apart(readers[j], readers[k])
      requires forall j :: 0 <= j < |readers| && j != i ==> readers[j].View() == rs[j]
      ensures Valid() && ReadersOf() == rs[i := readers[i].View()]
    {
      assert forall r :: r in readers ==> exists j :: 0 <= j < |readers| && readers[j] == r;
    }

    /** port_read on the reader at index `i` */
    method Read(i: nat, rp: ReadPort) returns (status: int, packet: Packet)
      requires Valid() && i < |readers| && rp == readers[i]
      modifies rp`got, rp.buf
      ensures Valid() && readers == old(readers)
      ensures var (p, st, x) := Ports.Read(old(View()), i);
              View() == p && status == st && (x != [] ==> packet == x[0])
    {
      ghost var rs := ReadersOf();
      Others(i);
      label before:
      status, packet := rp.Take();
      forall j | 0 <= j < |readers| && j != i
        ensures readers[j].Valid() && readers[j].View() == old@before(readers[j].View())
      {
        assert readers[j] in readers;
      }
      Reassemble(i, rs);
    }

    /** port_close on the reader at index `i` */
    method CloseReader(i: nat, rp: ReadPort)
      requires Valid() && i < |readers| && rp == readers[i]
      modifies this, rp`buf
      ensures Valid() && View() == Ports.CloseReader(old(View()), i)
      ensures readers == old(readers[..i] + readers[i + 1..])
    {
      assert rp in readers;
      RestApart(i);
      ghost var rs := ReadersOf();
      readers := readers[..i] + readers[i + 1..];
      if readers == [] {
        buf := rp.buf;
        rp.buf := null;
      }
      assert ReadersOf() == rs[..i] + rs[i + 1..];
    }

    /** The other readers still have buffers of their own. */
    lemma RestApart(i: nat)
      requires Valid() && i < |readers|
      ensures var rest := readers[..i] + readers[i + 1..];
              && (forall r :: r in rest ==> r in readers)
              && (forall j, k :: 0 <= j < k < |rest| ==> Apart(rest[j], rest[k]))
    {
      var rest := readers[..i] + readers[i + 1..];
      assert forall j :: 0 <= j < |rest| ==> rest[j] == readers[if j < i then j else j + 1];
    }

    /** port_close on the write port */
    method CloseWrite() returns (status: int)
      requires Valid()
      modifies this`open
      ensures Valid() && (View(), status) == Ports.CloseWrite(old(View()))
    {
      if !open {
        return ERR_BAD_HANDLE;
      }
      open := false;
      assert ReadersOf() == old(ReadersOf());
      return NO_ERROR;
    }
  }

  ghost predicate StatusIs(status: int, all: bool) {
    status == if all then NO_ERROR else ERR_PARTIAL_WRITE
  }

  lemma StatusNext(status: int, status': int, all: bool, ok: bool)
    requires StatusIs(status, all) && status' == if ok then status else ERR_PARTIAL_WRITE
    ensures StatusIs(status', all && ok)
  {
  }

  ghost predicate AllFit(rs: seq<Reader>, n: nat, packets: seq<Packet>)
    requires n <= |rs|
  {
    forall j :: 0 <= j < n ==> Fits(rs[j].buf, packets)
  }

  /** The readers after the first `n` of them were offered the packets. */
  ghost function OfferedTo(rs: seq<Reader>, n: nat, packets: seq<Packet>): seq<Reader>
    requires n <= |rs|
  {
    OfferAll(rs[..n], packets) + rs[n..]
  }

  lemma OfferedStart(rs: seq<Reader>, packets: seq<Packet>)
    ensures OfferedTo(rs, 0, packets) == rs && StatusIs(NO_ERROR, AllFit(rs, 0, packets))
  {
  }

  lemma OfferedNext(rs: seq<Reader>, n: nat, packets: seq<Packet>)
    requires n < |rs|
    ensures |OfferedTo(rs, n, packets)| == |rs| && OfferedTo(rs, n, packets)[n] == rs[n]
    ensures OfferedTo(rs, n + 1, packets) == OfferedTo(rs, n, packets)[n := Offer(rs[n], packets)]
    ensures AllFit(rs, n + 1, packets) == (AllFit(rs, n, packets) && Fits(rs[n].buf, packets))
  {
  }

  lemma OfferedAll(rs: seq<Reader>, packets: seq<Packet>)
    ensures OfferedTo(rs, |rs|, packets) == OfferAll(rs, packets)
    ensures AllFit(rs, |rs|, packets) == RoomForAll(rs, packets)
  {
    assert rs[..|rs|] == rs;
    assert forall j :: 0 <= j < |rs| ==> rs[j] in rs;
  }

  lemma SmallIs()
    ensures Pow2(LOG2_SMALL) == SMALL
  {
  }
}
