/**
 * Ports of kernel/port.c as values: one write port with its read ports.  Each reader
 * carries its history: what it inherited when it opened, the writes accepted for it
 * since, and what it has read.
 */
module Ports {
  import opened PortBuffers

  const ERR_TIMED_OUT: int := -13
  const ERR_NOT_ALLOWED: int := -17
  const ERR_BAD_HANDLE: int := -42
  const ERR_PARTIAL_WRITE: int := -44

  /** PORT_BUFF_SIZE */
  const SMALL: nat := 8

  /** Unread packets, and how many there is room for in all. */
  datatype Buffer = Buffer(packets: seq<Packet>, size: nat)

  datatype Reader = Reader(id: nat, buf: Buffer, got: seq<Packet>, inherited: seq<Packet>, accepted: seq<Packet>)

  /** The write port owns `buf` when it has one. */
  datatype Port = Port(open: bool, unicast: bool, buf: seq<Buffer>, readers: seq<Reader>)

  predicate Fits(b: Buffer, packets: seq<Packet>) {
    |b.packets| + |packets| <= b.size
  }

  /** buf_write */
  function Put(b: Buffer, packets: seq<Packet>): Buffer {
    if Fits(b, packets) then b.(packets := b.packets + packets) else b
  }

  // ---- the operations ----

  /** port_open by reader `id`: the new state and the status */
  function Open(p: Port, id: nat): (Port, int) {
    if p.buf != [] then
      (p.(buf := [], readers := p.readers + [Reader(id, p.buf[0], [], p.buf[0].packets, [])]), NO_ERROR)
    else if p.unicast then (p, ERR_NOT_ALLOWED)
    else (p.(readers := p.readers + [Reader(id, Buffer([], SMALL), [], [], [])]), NO_ERROR)
  }

  function Offer(r: Reader, packets: seq<Packet>): Reader {
    if Fits(r.buf, packets) then r.(buf := Put(r.buf, packets), accepted := r.accepted + packets) else r
  }

  function OfferAll(rs: seq<Reader>, packets: seq<Packet>): seq<Reader> {
    seq(|rs|, (i: nat) requires i < |rs| => Offer(rs[i], packets))
  }

  predicate RoomForAll(rs: seq<Reader>, packets: seq<Packet>) {
    forall r :: r in rs ==> Fits(r.buf, packets)
  }

  /** port_write: each reader takes all of the packets, or none */
  function Write(p: Port, packets: seq<Packet>): (Port, int) {
    if !p.open then (p, ERR_BAD_HANDLE)
    else if p.buf != [] then
      (p.(buf := [Put(p.buf[0], packets)]), if Fits(p.buf[0], packets) then NO_ERROR else ERR_NOT_ENOUGH_BUFFER)
    else
      (p.(readers := OfferAll(p.readers, packets)),
       if RoomForAll(p.readers, packets) then NO_ERROR else ERR_PARTIAL_WRITE)
  }

  /** port_read with timeout 0, or the first try of a longer one: the state, the status, and the packet if there is one */
  function Read(p: Port, i: nat): (Port, int, seq<Packet>)
    requires i < |p.readers|
  {
    var r := p.readers[i];
    if r.buf.packets == [] then (p, ERR_TIMED_OUT, [])
    else
      var x := r.buf.packets[0];
      (p.(readers := p.readers[i := r.(buf := r.buf.(packets := r.buf.packets[1..]), got := r.got + [x])]), NO_ERROR, [x])
  }

  /** port_close on the reader at index `i`: the last one leaves its buffer to the write port */
  function CloseReader(p: Port, i: nat): Port
    requires i < |p.readers|
  {
    var rest := p.readers[..i] + p.readers[i + 1..];
    p.(readers := rest, buf := if rest == [] then [p.readers[i].buf] else p.buf)
  }

  /** port_close on the write port */
  function CloseWrite(p: Port): (Port, int) {
    if p.open then (p.(open := false), NO_ERROR) else (p, ERR_BAD_HANDLE)
  }

  // ---- the invariant ----

  ghost predicate ReaderOk(r: Reader) {
    r.got + r.buf.packets == r.inherited + r.accepted && |r.buf.packets| <= r.buf.size
  }

  /** The write port owns a buffer iff it has no readers; each reader's history adds up. */
  ghost predicate PortOk(p: Port) {
    && |p.buf| <= 1 && (p.buf != [] <==> p.readers == [])
    && (forall b :: b in p.buf ==> |b.packets| <= b.size)
    && (forall r :: r in p.readers ==> ReaderOk(r))
    && (forall i, j :: 0 <= i < j < |p.readers| ==> p.readers[i].id != p.readers[j].id)
    && (p.unicast ==> |p.readers| <= 1)
  }

  datatype Op =
    | Opens(id: nat)
    | Writes(packets: seq<Packet>)
    | Reads(i: nat)
    | ClosesReader(i: nat)
    | ClosesWrite

  predicate Enabled(p: Port, op: Op) {
    match op
    case Opens(id) => forall r :: r in p.readers ==> r.id != id
    case Reads(i) => i < |p.readers|
    case ClosesReader(i) => i < |p.readers|
    case _ => true
  }

  function Apply(p: Port, op: Op): Port
    requires Enabled(p, op)
  {
    match op
    case Opens(id) => Open(p, id).0
    case Writes(packets) => Write(p, packets).0
    case Reads(i) => Read(p, i).0
    case ClosesReader(i) => CloseReader(p, i)
    case ClosesWrite => CloseWrite(p).0
  }

  lemma OfferKeeps(r: Reader, packets: seq<Packet>)
    requires ReaderOk(r)
    ensures ReaderOk(Offer(r, packets))
  {
    if Fits(r.buf, packets) {
      assert r.got + (r.buf.packets + packets) == r.got + r.buf.packets + packets;
      assert r.inherited + (r.accepted + packets) == r.inherited + r.accepted + packets;
    }
  }

  lemma WriteKeeps(p: Port, packets: seq<Packet>)
    requires PortOk(p)
    ensures PortOk(Write(p, packets).0)
  {
    if p.open && p.buf == [] {
      var p' := Write(p, packets).0;
      forall r' | r' in p'.readers
        ensures ReaderOk(r')
      {
        var i :| 0 <= i < |p'.readers| && p'.readers[i] == r';
        assert p.readers[i] in p.readers;
        OfferKeeps(p.readers[i], packets);
      }
      assert forall i :: 0 <= i < |p.readers| ==> p'.readers[i].id == p.readers[i].id;
    }
  }

  lemma ReadKeeps(p: Port, i: nat)
    requires PortOk(p) && i < |p.readers|
    ensures PortOk(Read(p, i).0)
  {
    var r := p.readers[i];
    assert r in p.readers;
    if r.buf.packets != [] {
      var r' := Read(p, i).0.readers[i];
      assert r'.got + r'.buf.packets == r.got + r.buf.packets;
      forall x | x in Read(p, i).0.readers
        ensures ReaderOk(x)
      {
        assert x == r' || x in p.readers;
      }
    }
  }

  lemma CloseKeeps(p: Port, i: nat)
    requires PortOk(p) && i < |p.readers|
    ensures PortOk(CloseReader(p, i))
  {
    assert p.readers[i] in p.readers;
    assert forall x :: x in CloseReader(p, i).readers ==> x in p.readers;
  }

  lemma ApplyKeeps(p: Port, op: Op)
    requires PortOk(p) && Enabled(p, op)
    ensures PortOk(Apply(p, op))
  {
    match op
    case Opens(id) =>
    case Writes(packets) => WriteKeeps(p, packets);
    case Reads(i) => ReadKeeps(p, i);
    case ClosesReader(i) => CloseKeeps(p, i);
    case ClosesWrite =>
  }

  // ---- runs ----

  // ---- what a caller sees ----

  /** The buffers that a write goes to: one for each reader, or the port's own. */
  function Holders(p: Port): seq<Buffer> {
    p.buf + seq(|p.readers|, (i: nat) requires i < |p.readers| => p.readers[i].buf)
  }

  /** A write succeeds iff the port is open and every buffer has room; each buffer takes all of it or nothing. */
  lemma WriteOutcome(p: Port, packets: seq<Packet>)
    requires PortOk(p)
    ensures var (p', status), hs := Write(p, packets), Holders(p);
            && (status == NO_ERROR <==> p.open && forall b :: b in hs ==> |b.packets| + |packets| <= b.size)
            && (status == ERR_BAD_HANDLE <==> !p.open) && (!p.open ==> p' == p)
            && (status in {ERR_NOT_ENOUGH_BUFFER, ERR_PARTIAL_WRITE} ==>
                  (status == ERR_NOT_ENOUGH_BUFFER <==> p.readers == []))
            && status in {NO_ERROR, ERR_BAD_HANDLE, ERR_NOT_ENOUGH_BUFFER, ERR_PARTIAL_WRITE}
            && |Holders(p')| == |hs| && |p'.buf| == |p.buf| && p'.open == p.open && p'.unicast == p.unicast
            && (p.open ==> forall i :: 0 <= i < |hs| ==>
                  Holders(p')[i] == if |hs[i].packets| + |packets| <= hs[i].size
                                    then Buffer(hs[i].packets + packets, hs[i].size) else hs[i])
  {
    RoomIs(p, packets);
    if p.buf != [] {
      assert Holders(p) == p.buf;
    }
  }

  lemma RoomIs(p: Port, packets: seq<Packet>)
    ensures (forall b :: b in Holders(p) ==> |b.packets| + |packets| <= b.size) <==>
            (forall b :: b in p.buf ==> Fits(b, packets)) && RoomForAll(p.readers, packets)
  {
    var hs := Holders(p);
    forall r | r in p.readers
      ensures r.buf in hs
    {
      var i :| 0 <= i < |p.readers| && p.readers[i] == r;
      assert hs[|p.buf| + i] == r.buf;
    }
    forall b | b in hs
      ensures b in p.buf || exists r :: r in p.readers && r.buf == b
    {
      var i :| 0 <= i < |hs| && hs[i] == b;
      if i >= |p.buf| {
        assert p.readers[i - |p.buf|] in p.readers;
      }
    }
  }

  /** A read succeeds iff the reader's buffer holds a packet, and takes the oldest. */
  lemma ReadOutcome(p: Port, i: nat)
    requires PortOk(p) && i < |p.readers|
    ensures var (p', status, xs) := Read(p, i);
            && (status == NO_ERROR <==> p.readers[i].buf.packets != []) && status in {NO_ERROR, ERR_TIMED_OUT}
            && (status != NO_ERROR ==> p' == p && xs == [])
            && (status == NO_ERROR ==>
                  && |xs| == 1 && p' == p.(readers := p'.readers) && |p'.readers| == |p.readers|
                  && p.readers[i].buf.packets == xs + p'.readers[i].buf.packets
                  && p'.readers[i].buf.size == p.readers[i].buf.size && p'.readers[i].id == p.readers[i].id
                  && forall j :: 0 <= j < |p.readers| && j != i ==> p'.readers[j] == p.readers[j])
  {
  }

  /** An open is refused iff the port is unicast and has a reader; the first reader gets all that is unread, others start empty. */
  lemma OpenOutcome(p: Port, id: nat)
    requires PortOk(p)
    ensures var (p', status) := Open(p, id);
            && (status == NO_ERROR <==> !p.unicast || p.readers == []) && status in {NO_ERROR, ERR_NOT_ALLOWED}
            && (status != NO_ERROR ==> p' == p)
            && (status == NO_ERROR ==>
                  && p'.open == p.open && p'.unicast == p.unicast && p'.buf == [] && |p'.readers| == |p.readers| + 1
                  && p'.readers[..|p.readers|] == p.readers && p'.readers[|p.readers|].id == id
                  && p'.readers[|p.readers|].buf == if p.readers == [] then p.buf[0] else Buffer([], 8))
  {
  }

  /** A reader that closes leaves the others alone, and if it was the last one its unread packets to the port. */
  lemma CloseOutcome(p: Port, i: nat)
    requires PortOk(p) && i < |p.readers|
    ensures var p' := CloseReader(p, i);
            && p'.open == p.open && p'.unicast == p.unicast
            && p.readers == p'.readers[..i] + [p.readers[i]] + p'.readers[i..]
            && p'.buf == if |p.readers| == 1 then [p.readers[i].buf] else []
    ensures CloseWrite(p) == (p.(open := false), if p.open then NO_ERROR else ERR_BAD_HANDLE)
  {
  }

  ghost predicate Run(ps: seq<Port>, ops: seq<Op>) {
    && |ps| == |ops| + 1 && PortOk(ps[0])
    && forall k :: 0 <= k < |ops| ==> Enabled(ps[k], ops[k]) && ps[k + 1] == Apply(ps[k], ops[k])
  }

  lemma {:induction false} RunKeeps(ps: seq<Port>, ops: seq<Op>, k: nat)
    requires Run(ps, ops) && k < |ps|
    ensures PortOk(ps[k])
  {
    if k > 0 {
      RunKeeps(ps, ops, k - 1);
      ApplyKeeps(ps[k - 1], ops[k - 1]);
      assert ps[k - 1 + 1] == ps[k];
    }
  }

  ghost predicate Has(p: Port, r: Reader) {
    r in p.readers
  }

  /** What a write gives reader `r`: all of its packets, if it is made and they fit. */
  function Gain(p: Port, op: Op, r: Reader): seq<Packet> {
    if op.Writes? && p.open && Fits(r.buf, op.packets) then op.packets else []
  }

  /** What reader `r` gets by a read. */
  function Taken(p: Port, op: Op, r: Reader): seq<Packet> {
    if op.Reads? && op.i < |p.readers| && p.readers[op.i] == r && r.buf.packets != [] then [r.buf.packets[0]] else []
  }

  /** From one step to the next a reader that stays gains exactly the write, and gets exactly the read, of that step. */
  lemma ReaderStep(p: Port, op: Op, r: Reader, r': Reader)
    requires PortOk(p) && Enabled(p, op) && Has(p, r) && Has(Apply(p, op), r') && r'.id == r.id
    ensures r'.inherited == r.inherited
    ensures r'.accepted == r.accepted + Gain(p, op, r)
    ensures r'.got == r.got + Taken(p, op, r)
  {
    match op
    case Opens(id) => SameReader(p, r, if r' in p.readers then r' else r);
    case Writes(packets) => WriteStep(p, packets, r, r');
    case Reads(k) => ReadStep(p, k, r, r');
    case ClosesReader(k) =>
      assert r' in p.readers;
      SameReader(p, r, r');
    case ClosesWrite => SameReader(p, r, r');
  }

  lemma SameReader(p: Port, r: Reader, s: Reader)
    requires PortOk(p) && r in p.readers && s in p.readers && r.id == s.id
    ensures r == s
  {
  }

  lemma WriteStep(p: Port, packets: seq<Packet>, r: Reader, r': Reader)
    requires PortOk(p) && r in p.readers && r' in Write(p, packets).0.readers && r'.id == r.id
    ensures r' == if p.open && |r.buf.packets| + |packets| <= r.buf.size
                  then r.(buf := r.buf.(packets := r.buf.packets + packets), accepted := r.accepted + packets)
                  else r
  {
    if p.open {
      var rs := Write(p, packets).0.readers;
      var j :| 0 <= j < |rs| && rs[j] == r';
      SameReader(p, r, p.readers[j]);
    } else {
      SameReader(p, r, r');
    }
  }

  lemma ReadStep(p: Port, k: nat, r: Reader, r': Reader)
    requires PortOk(p) && k < |p.readers| && r in p.readers && r' in Read(p, k).0.readers && r'.id == r.id
    ensures r'.inherited == r.inherited && r'.accepted == r.accepted
    ensures r'.got == r.got + Taken(p, Op.Reads(k), r)
  {
    var rs := Read(p, k).0.readers;
    var j :| 0 <= j < |rs| && rs[j] == r';
    SameReader(p, r, p.readers[j]);
    if p.readers[k] == r {
      assert j == k;
    }
  }

  /** All that the writes of a run gave a reader, whose state at step k is `rs[k]`. */
  function Gains(ps: seq<Port>, ops: seq<Op>, rs: seq<Reader>, n: nat): seq<Packet>
    requires n <= |ops| && |ops| <= |ps| && |ops| <= |rs|
  {
    if n == 0 then [] else Gains(ps, ops, rs, n - 1) + Gain(ps[n - 1], ops[n - 1], rs[n - 1])
  }

  /** All that the reads of a run returned to a reader. */
  function ReadOut(ps: seq<Port>, ops: seq<Op>, rs: seq<Reader>, n: nat): seq<Packet>
    requires n <= |ops| && |ops| <= |ps| && |ops| <= |rs|
  {
    if n == 0 then [] else ReadOut(ps, ops, rs, n - 1) + Taken(ps[n - 1], ops[n - 1], rs[n - 1])
  }

  /**
   * Conservation over every run: what a reader has read, followed by what is in its buffer,
   * is what it inherited followed by the writes accepted for it, in order.
   */
  lemma {:induction false} Conservation(ps: seq<Port>, ops: seq<Op>, rs: seq<Reader>, n: nat)
    requires Run(ps, ops) && |rs| == |ps| && n <= |ops|
    requires forall k :: 0 <= k < |rs| ==> Has(ps[k], rs[k]) && rs[k].id == rs[0].id
    requires rs[0].got == [] && rs[0].accepted == []
    ensures rs[n].got == ReadOut(ps, ops, rs, n)
    ensures ReadOut(ps, ops, rs, n) + rs[n].buf.packets == rs[0].inherited + Gains(ps, ops, rs, n)
  {
    HistoryAdds(ps, ops, rs, n);
    RunKeeps(ps, ops, n);
    assert Has(ps[n], rs[n]);
    assert ReaderOk(rs[n]);
  }

  lemma {:induction false} HistoryAdds(ps: seq<Port>, ops: seq<Op>, rs: seq<Reader>, n: nat)
    requires Run(ps, ops) && |rs| == |ps| && n <= |ops|
    requires forall k :: 0 <= k < |rs| ==> Has(ps[k], rs[k]) && rs[k].id == rs[0].id
    requires rs[0].got == [] && rs[0].accepted == []
    ensures rs[n].inherited == rs[0].inherited && rs[n].accepted == Gains(ps, ops, rs, n)
    ensures rs[n].got == ReadOut(ps, ops, rs, n)
  {
    if n > 0 {
      HistoryAdds(ps, ops, rs, n - 1);
      RunKeeps(ps, ops, n - 1);
      assert ps[n - 1 + 1] == Apply(ps[n - 1], ops[n - 1]);
      assert Has(ps[n - 1], rs[n - 1]) && Has(ps[n], rs[n]);
      hide PortOk, Apply, Enabled;
      ReaderStep(ps[n - 1], ops[n - 1], rs[n - 1], rs[n]);
    }
  }

  // ---- the buffer passes from the last reader to the next ----

  function WriteMany(p: Port, ws: seq<seq<Packet>>): Port
    decreases |ws|
  {
    if ws == [] then p else WriteMany(Write(p, ws[0]).0, ws[1..])
  }

  function PutMany(b: Buffer, ws: seq<seq<Packet>>): Buffer
    decreases |ws|
  {
    if ws == [] then b else PutMany(Put(b, ws[0]), ws[1..])
  }

  lemma {:induction false} WriteManyToBuffer(p: Port, ws: seq<seq<Packet>>)
    requires |p.buf| == 1 && p.open
    ensures WriteMany(p, ws) == p.(buf := [PutMany(p.buf[0], ws)])
    decreases |ws|
  {
    if ws != [] {
      WriteManyToBuffer(Write(p, ws[0]).0, ws[1..]);
    }
  }

  lemma {:induction false} PutManyKeeps(b: Buffer, ws: seq<seq<Packet>>)
    ensures b.packets <= PutMany(b, ws).packets && PutMany(b, ws).size == b.size
    decreases |ws|
  {
    if ws != [] {
      PutManyKeeps(Put(b, ws[0]), ws[1..]);
    }
  }

  /** The next reader to open gets what the last one to close left unread, then the writes accepted in between. */
  lemma HandOver(p: Port, ws: seq<seq<Packet>>, id: nat)
    requires PortOk(p) && |p.readers| == 1 && p.open
    ensures var q := WriteMany(CloseReader(p, 0), ws);
            var (q', status) := Open(q, id);
            && status == NO_ERROR && |q'.readers| == 1
            && q'.readers[0].inherited == PutMany(p.readers[0].buf, ws).packets == q'.readers[0].buf.packets
            && p.readers[0].buf.packets <= q'.readers[0].inherited
  {
    WriteManyToBuffer(CloseReader(p, 0), ws);
    PutManyKeeps(p.readers[0].buf, ws);
  }
}
