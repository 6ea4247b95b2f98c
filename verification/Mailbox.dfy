/** The mailbox file: 512-byte slots edited in place, sixteen of them in a file made by the server.

    Slot 0 holds the globals; every other slot holds a node name, a message length, a peer id
    and a message.  All numbers are 8 bytes, least significant first. */
module Mailbox {
  import opened Prelude

  const SLOT_SIZE := 512
  const MAX_SLOTS := 16
  const FILE_SIZE := 8192
  const NODENAME_SIZE := 32
  const MSGLEN_OFF := 32
  const PEER_ID_OFF := 40
  const MSG_OFF := 128
  const MAX_MSGLEN := 384

  // ---- numbers as bytes

  function Pack(n: nat, width: nat): (s: seq<Byte>)
    ensures |s| == width
  {
    if width == 0 then [] else [n % 256] + Pack(n / 256, width - 1)
  }

  function Unpack(s: seq<Byte>): nat { if s == [] then 0 else s[0] + 256 * Unpack(s[1..]) }

  function Capacity(width: nat): nat { if width == 0 then 1 else 256 * Capacity(width - 1) }

  lemma {:induction false} UnpackPack(n: nat, width: nat)
    requires n < Capacity(width)
    ensures Unpack(Pack(n, width)) == n
  {
    if width > 0 {
      UnpackPack(n / 256, width - 1);
      assert Pack(n, width)[1..] == Pack(n / 256, width - 1);
    }
  }

  lemma {:induction false} PackZero(width: nat)
    ensures Pack(0, width) == Zeros(width)
  {
    if width > 0 {
      PackZero(width - 1);
      assert Pack(0, width) == [0] + Zeros(width - 1);
    }
  }

  /** The eight bytes of a 16-bit number, the least significant first. */
  lemma PackSmall(n: nat)
    requires n < 65536
    ensures Pack(n, 8) == [n % 256, n / 256] + Zeros(6)
  {
    PackZero(6);
    assert Pack(n / 256, 7) == [n / 256] + Pack(0, 6);
  }

  /** Eight bytes are plenty for anything this file holds. */
  lemma SmallFits(n: nat)
    requires n < 65536
    ensures Unpack(Pack(n, 8)) == n
  {
    assert Capacity(2) == 65536;
    assert Capacity(8) >= Capacity(6) >= Capacity(4) >= Capacity(2);
    UnpackPack(n, 8);
  }

  function Zeros(n: nat): seq<Byte> { seq(n, _ => 0) }

  lemma {:induction false} UnpackZeros(n: nat)
    ensures Unpack(Zeros(n)) == 0
  {
    if n > 0 {
      assert Zeros(n)[1..] == Zeros(n - 1);
      UnpackZeros(n - 1);
    }
  }

  // ---- overwriting part of a buffer

  function Splice(m: seq<Byte>, i: nat, data: seq<Byte>): (r: seq<Byte>)
    requires i + |data| <= |m|
    ensures |r| == |m|
  {
    m[..i] + data + m[i + |data|..]
  }

  lemma SpliceInside(m: seq<Byte>, i: nat, data: seq<Byte>)
    requires i + |data| <= |m|
    ensures Splice(m, i, data)[i..i + |data|] == data
  {
  }

  lemma SpliceOutside(m: seq<Byte>, i: nat, data: seq<Byte>, a: nat, b: nat)
    requires i + |data| <= |m| && a <= b <= |m| && (b <= i || i + |data| <= a)
    ensures Splice(m, i, data)[a..b] == m[a..b]
  {
  }

  // ---- slots

  function SlotBytes(m: seq<Byte>, s: nat): (r: seq<Byte>)
    requires s < |m| / SLOT_SIZE
    ensures |r| == SLOT_SIZE
  {
    m[s * SLOT_SIZE..(s + 1) * SLOT_SIZE]
  }

  /** Writing inside slot `t` changes that slot only. */
  lemma SpliceSlot(m: seq<Byte>, t: nat, off: nat, data: seq<Byte>, s: nat)
    requires t < |m| / SLOT_SIZE && s < |m| / SLOT_SIZE && off + |data| <= SLOT_SIZE
    ensures SlotBytes(Splice(m, t * SLOT_SIZE + off, data), s)
            == if s == t then Splice(SlotBytes(m, s), off, data) else SlotBytes(m, s)
  {
    var i := t * SLOT_SIZE + off;
    if s == t {
      var a, b := SlotBytes(Splice(m, i, data), s), Splice(SlotBytes(m, s), off, data);
      forall k | 0 <= k < SLOT_SIZE ensures a[k] == b[k] {
        assert a[k] == Splice(m, i, data)[t * SLOT_SIZE + k];
      }
    } else {
      SpliceOutside(m, i, data, s * SLOT_SIZE, (s + 1) * SLOT_SIZE);
    }
  }

  /** What a slot means to its readers. */
  datatype Mail = Mail(nodename: seq<Byte>, peerId: nat, message: seq<Byte>)

  function UpToNul(s: seq<Byte>): seq<Byte> {
    if s == [] || s[0] == 0 then [] else [s[0]] + UpToNul(s[1..])
  }

  function MsgLen(slot: seq<Byte>): nat
    requires |slot| == SLOT_SIZE
  {
    Unpack(slot[MSGLEN_OFF..MSGLEN_OFF + 8])
  }

  predicate SlotOk(slot: seq<Byte>) { |slot| == SLOT_SIZE && MsgLen(slot) < MAX_MSGLEN }

  function MailOf(slot: seq<Byte>): Mail
    requires SlotOk(slot)
  {
    Mail(UpToNul(slot[..NODENAME_SIZE]),
         Unpack(slot[PEER_ID_OFF..PEER_ID_OFF + 8]),
         slot[MSG_OFF..MSG_OFF + MsgLen(slot)])
  }

  /** fill: the length first, then the message, then a terminator. */
  function FillSlot(slot: seq<Byte>, msg: seq<Byte>): (r: seq<Byte>)
    requires |slot| == SLOT_SIZE && |msg| < MAX_MSGLEN
    ensures |r| == SLOT_SIZE
  {
    Splice(Splice(Splice(slot, MSGLEN_OFF, Pack(|msg|, 8)), MSG_OFF, msg), MSG_OFF + |msg|, [0])
  }

  /** retrieve: the message is taken by setting its length to zero. */
  function TakeSlot(slot: seq<Byte>): (r: seq<Byte>)
    requires |slot| == SLOT_SIZE
    ensures |r| == SLOT_SIZE
  {
    Splice(slot, MSGLEN_OFF, Pack(0, 8))
  }

  function NameSlot(slot: seq<Byte>, name: seq<Byte>): (r: seq<Byte>)
    requires |slot| == SLOT_SIZE && |name| < NODENAME_SIZE
    ensures |r| == SLOT_SIZE
  {
    Splice(Splice(slot, 0, Zeros(NODENAME_SIZE)), 0, name)
  }

  /** The body and its terminator leave the header alone. */
  lemma BodyOutside(slot: seq<Byte>, msg: seq<Byte>, a: nat, b: nat)
    requires |slot| == SLOT_SIZE && |msg| < MAX_MSGLEN && a <= b <= MSG_OFF
    ensures Splice(Splice(slot, MSG_OFF, msg), MSG_OFF + |msg|, [0])[a..b] == slot[a..b]
  {
    SpliceOutside(slot, MSG_OFF, msg, a, b);
    SpliceOutside(Splice(slot, MSG_OFF, msg), MSG_OFF + |msg|, [0], a, b);
  }

  lemma FillMeans(slot: seq<Byte>, msg: seq<Byte>)
    requires SlotOk(slot) && |msg| < MAX_MSGLEN
    ensures SlotOk(FillSlot(slot, msg)) && MailOf(FillSlot(slot, msg)) == MailOf(slot).(message := msg)
    ensures FillSlot(slot, msg)[MSG_OFF + |msg|] == 0
  {
    var a := Splice(slot, MSGLEN_OFF, Pack(|msg|, 8));
    var b := Splice(a, MSG_OFF, msg);
    var c := Splice(b, MSG_OFF + |msg|, [0]);
    SmallFits(|msg|);
    SpliceInside(slot, MSGLEN_OFF, Pack(|msg|, 8));
    SpliceInside(a, MSG_OFF, msg);
    SpliceOutside(b, MSG_OFF + |msg|, [0], MSG_OFF, MSG_OFF + |msg|);
    BodyOutside(a, msg, MSGLEN_OFF, MSGLEN_OFF + 8);
    BodyOutside(a, msg, 0, NODENAME_SIZE);
    BodyOutside(a, msg, PEER_ID_OFF, PEER_ID_OFF + 8);
    SpliceOutside(slot, MSGLEN_OFF, Pack(|msg|, 8), 0, NODENAME_SIZE);
    SpliceOutside(slot, MSGLEN_OFF, Pack(|msg|, 8), PEER_ID_OFF, PEER_ID_OFF + 8);
  }

  lemma FillBytes(slot: seq<Byte>, msg: seq<Byte>)
    requires |slot| == SLOT_SIZE && |msg| < MAX_MSGLEN
    ensures var r := FillSlot(slot, msg);
            && r[32..40] == [|msg| % 256, |msg| / 256] + Zeros(6) && r[128..128 + |msg|] == msg
            && r[..32] == slot[..32] && r[40..128] == slot[40..128]
  {
    var a := Splice(slot, MSGLEN_OFF, Pack(|msg|, 8));
    var b := Splice(a, MSG_OFF, msg);
    PackSmall(|msg|);
    SpliceInside(slot, MSGLEN_OFF, Pack(|msg|, 8));
    SpliceInside(a, MSG_OFF, msg);
    SpliceOutside(b, MSG_OFF + |msg|, [0], MSG_OFF, MSG_OFF + |msg|);
    BodyOutside(a, msg, 32, 40);
    BodyOutside(a, msg, 0, 32);
    BodyOutside(a, msg, 40, 128);
    SpliceOutside(slot, MSGLEN_OFF, Pack(|msg|, 8), 0, 32);
    SpliceOutside(slot, MSGLEN_OFF, Pack(|msg|, 8), 40, 128);
  }

  lemma TakeBytes(slot: seq<Byte>)
    requires |slot| == SLOT_SIZE
    ensures TakeSlot(slot)[32..40] == Zeros(8) && TakeSlot(slot)[..32] == slot[..32] && TakeSlot(slot)[40..] == slot[40..]
  {
    PackZero(8);
    SpliceInside(slot, MSGLEN_OFF, Pack(0, 8));
    SpliceOutside(slot, MSGLEN_OFF, Pack(0, 8), 0, 32);
    SpliceOutside(slot, MSGLEN_OFF, Pack(0, 8), 40, SLOT_SIZE);
    assert TakeSlot(slot)[40..SLOT_SIZE] == TakeSlot(slot)[40..] && slot[40..SLOT_SIZE] == slot[40..];
  }

  lemma NumberBytes(slot: seq<Byte>, s: nat, name: seq<Byte>, server: bool)
    requires |slot| == SLOT_SIZE && s < 256 && |name| <= 8
    ensures var r := Numbered(slot, s); (if server then Splice(r, 0, name) else r)[40..48] == [s, 0] + Zeros(6)
  {
    PackSmall(s);
    SpliceInside(slot, PEER_ID_OFF, Pack(s, 8));
    SpliceOutside(Numbered(slot, s), 0, name, 40, 48);
  }

  lemma TakeMeans(slot: seq<Byte>)
    requires |slot| == SLOT_SIZE
    ensures SlotOk(TakeSlot(slot))
    ensures SlotOk(slot) ==> MailOf(TakeSlot(slot)) == MailOf(slot).(message := [])
  {
    var c := TakeSlot(slot);
    SmallFits(0);
    assert c[MSGLEN_OFF..MSGLEN_OFF + 8] == Pack(0, 8);
    assert c[..NODENAME_SIZE] == slot[..NODENAME_SIZE];
    assert c[PEER_ID_OFF..PEER_ID_OFF + 8] == slot[PEER_ID_OFF..PEER_ID_OFF + 8];
  }

  lemma {:induction false} UpToNulPadded(name: seq<Byte>, zeros: seq<Byte>)
    requires zeros != [] && zeros[0] == 0
    ensures UpToNul(name + zeros) == UpToNul(name)
  {
    if name != [] {
      assert (name + zeros)[1..] == name[1..] + zeros;
      UpToNulPadded(name[1..], zeros);
    }
  }

  lemma {:induction false} UpToNulWhole(name: seq<Byte>)
    requires 0 !in name
    ensures UpToNul(name) == name
  {
    if name != [] {
      UpToNulWhole(name[1..]);
    }
  }

  lemma NameMeans(slot: seq<Byte>, name: seq<Byte>)
    requires SlotOk(slot) && |name| < NODENAME_SIZE
    ensures SlotOk(NameSlot(slot, name)) && MailOf(NameSlot(slot, name)) == MailOf(slot).(nodename := UpToNul(name))
  {
    NameParts(slot, name);
    LaterParts(NameSlot(slot, name), slot);
    UpToNulPadded(name, Zeros(NODENAME_SIZE - |name|));
  }

  lemma NameParts(slot: seq<Byte>, name: seq<Byte>)
    requires |slot| == SLOT_SIZE && |name| < NODENAME_SIZE
    ensures NameSlot(slot, name)[..NODENAME_SIZE] == name + Zeros(NODENAME_SIZE - |name|)
    ensures NameSlot(slot, name)[MSGLEN_OFF..] == slot[MSGLEN_OFF..]
  {
    var b, c := Splice(slot, 0, Zeros(NODENAME_SIZE)), NameSlot(slot, name);
    SpliceOutside(slot, 0, Zeros(NODENAME_SIZE), MSGLEN_OFF, SLOT_SIZE);
    SpliceOutside(b, 0, name, MSGLEN_OFF, SLOT_SIZE);
    assert c[MSGLEN_OFF..SLOT_SIZE] == c[MSGLEN_OFF..] && slot[MSGLEN_OFF..SLOT_SIZE] == slot[MSGLEN_OFF..];
    SpliceInside(slot, 0, Zeros(NODENAME_SIZE));
    assert c == name + b[|name|..];
    assert b[|name|..NODENAME_SIZE] == b[0..NODENAME_SIZE][|name|..];
  }

  lemma LaterParts(c: seq<Byte>, slot: seq<Byte>)
    requires |c| == |slot| == SLOT_SIZE && c[MSGLEN_OFF..] == slot[MSGLEN_OFF..]
    ensures MsgLen(c) == MsgLen(slot)
    ensures c[PEER_ID_OFF..PEER_ID_OFF + 8] == slot[PEER_ID_OFF..PEER_ID_OFF + 8]
    ensures SlotOk(slot) ==> c[MSG_OFF..MSG_OFF + MsgLen(slot)] == slot[MSG_OFF..MSG_OFF + MsgLen(slot)]
  {
    var a, b := c[MSGLEN_OFF..], slot[MSGLEN_OFF..];
    assert c[MSGLEN_OFF..MSGLEN_OFF + 8] == a[..8] && slot[MSGLEN_OFF..MSGLEN_OFF + 8] == b[..8];
    assert c[PEER_ID_OFF..PEER_ID_OFF + 8] == a[8..16] && slot[PEER_ID_OFF..PEER_ID_OFF + 8] == b[8..16];
    if SlotOk(slot) {
      var n := MsgLen(slot);
      assert c[MSG_OFF..MSG_OFF + n] == a[96..96 + n] && slot[MSG_OFF..MSG_OFF + n] == b[96..96 + n];
    }
  }

  // ---- the globals

  datatype Globals = Globals(slotSize: nat, msgOffset: nat, nClients: nat, nEvents: nat, serverId: nat)

  function PackGlobals(g: Globals): (r: seq<Byte>)
    ensures |r| == 40
  {
    Pack(g.slotSize, 8) + Pack(g.msgOffset, 8) + Pack(g.nClients, 8) + Pack(g.nEvents, 8) + Pack(g.serverId, 8)
  }

  /** The driver's view: five consecutive 64-bit numbers at the start of the file. */
  function DriverGlobals(slot0: seq<Byte>): Globals
    requires |slot0| == SLOT_SIZE
  {
    Globals(Unpack(slot0[0..8]), Unpack(slot0[8..16]), Unpack(slot0[16..24]), Unpack(slot0[24..32]), Unpack(slot0[32..40]))
  }

  lemma GlobalsSurvive(slot0: seq<Byte>, g: Globals)
    requires |slot0| == SLOT_SIZE
    requires g.slotSize < 65536 && g.msgOffset < 65536 && g.nClients < 65536 && g.nEvents < 65536 && g.serverId < 65536
    ensures DriverGlobals(Splice(slot0, 0, PackGlobals(g))) == g
  {
    var r := Splice(slot0, 0, PackGlobals(g));
    assert r[0..8] == Pack(g.slotSize, 8);
    assert r[8..16] == Pack(g.msgOffset, 8);
    assert r[16..24] == Pack(g.nClients, 8);
    assert r[24..32] == Pack(g.nEvents, 8);
    assert r[32..40] == Pack(g.serverId, 8);
    SmallFits(g.slotSize);
    SmallFits(g.msgOffset);
    SmallFits(g.nClients);
    SmallFits(g.nEvents);
    SmallFits(g.serverId);
  }

  // ---- the file

  const Z_SWITCH: seq<Byte> := [90, 45, 115, 119, 105, 116, 99, 104]
  const Z_SERVER: seq<Byte> := [90, 45, 115, 101, 114, 118, 101, 114]

  /** A slot as initialisation leaves it: the peer id and, for the server, its name. */
  function FreshSlot(s: nat): (r: seq<Byte>)
    ensures |r| == SLOT_SIZE
  {
    Numbered(Zeros(SLOT_SIZE), s)
  }

  function Numbered(slot: seq<Byte>, s: nat): (r: seq<Byte>)
    requires |slot| == SLOT_SIZE
    ensures |r| == SLOT_SIZE
  {
    Splice(slot, PEER_ID_OFF, Pack(s, 8))
  }

  /** Zeroing the first sixteen slots leaves any other slot alone. */
  lemma ZeroedSlot(m: seq<Byte>, s: nat)
    requires |m| >= FILE_SIZE && s < |m| / SLOT_SIZE
    ensures SlotBytes(Splice(m, 0, Zeros(FILE_SIZE)), s) == if s < MAX_SLOTS then Zeros(SLOT_SIZE) else SlotBytes(m, s)
  {
    if s >= MAX_SLOTS {
      SpliceOutside(m, 0, Zeros(FILE_SIZE), s * SLOT_SIZE, (s + 1) * SLOT_SIZE);
    }
  }

  lemma FreshMeans(s: nat, name: seq<Byte>)
    requires s < 65536 && |name| < NODENAME_SIZE && 0 !in name
    ensures SlotOk(Splice(FreshSlot(s), 0, name)) && MailOf(Splice(FreshSlot(s), 0, name)) == Mail(name, s, [])
  {
    var slot, c := FreshSlot(s), Splice(FreshSlot(s), 0, name);
    FreshParts(s);
    UnpackZeros(8);
    SmallFits(s);
    assert slot[|name|..NODENAME_SIZE] == slot[..NODENAME_SIZE][|name|..];
    assert c[..NODENAME_SIZE] == name + slot[|name|..NODENAME_SIZE];
    UpToNulPadded(name, slot[|name|..NODENAME_SIZE]);
    UpToNulWhole(name);
    assert c[MSGLEN_OFF..] == slot[MSGLEN_OFF..];
    LaterParts(c, slot);
  }

  lemma StartedSlot(s: nat, name: seq<Byte>, server: bool)
    requires s < 65536 && |name| < NODENAME_SIZE && 0 !in name
    ensures var slot := if server then Splice(FreshSlot(s), 0, name) else FreshSlot(s);
            SlotOk(slot) && MailOf(slot) == Mail(if server then name else [], s, [])
  {
    FreshMeans(s, if server then name else []);
    assert Splice(FreshSlot(s), 0, []) == FreshSlot(s);
  }

  lemma FreshParts(s: nat)
    ensures FreshSlot(s)[..NODENAME_SIZE] == Zeros(NODENAME_SIZE)
    ensures FreshSlot(s)[MSGLEN_OFF..MSGLEN_OFF + 8] == Zeros(8)
    ensures FreshSlot(s)[PEER_ID_OFF..PEER_ID_OFF + 8] == Pack(s, 8)
  {
    SpliceInside(Zeros(SLOT_SIZE), PEER_ID_OFF, Pack(s, 8));
    SpliceOutside(Zeros(SLOT_SIZE), PEER_ID_OFF, Pack(s, 8), 0, NODENAME_SIZE);
    SpliceOutside(Zeros(SLOT_SIZE), PEER_ID_OFF, Pack(s, 8), MSGLEN_OFF, MSGLEN_OFF + 8);
    assert FreshSlot(s)[..NODENAME_SIZE] == FreshSlot(s)[0..NODENAME_SIZE];
  }

  /** The mailbox file, mapped; `serverId` is the last slot in use. */
  class MailBox {
    const mm: array<Byte>
    var serverId: nat

    /** A file made for the purpose has sixteen slots; one that was there before may be longer and
        may hold anything. */
    constructor (size: nat, contents: nat -> Byte)
      requires size >= FILE_SIZE
      ensures fresh(mm) && mm.Length == size && serverId == 0
    {
      mm := new Byte[size](contents);
      serverId := 0;
    }

    /** How many whole slots the file has. */
    function Slots(): nat { mm.Length / SLOT_SIZE }

    ghost predicate Valid()
      reads this, mm
    {
      && mm.Length >= FILE_SIZE && serverId < Slots()
      && forall s | 1 <= s <= serverId :: SlotOk(Slot(s))
    }

    ghost function Slot(s: nat): seq<Byte>
      requires s < Slots()
      reads mm
    {
      SlotBytes(mm[..], s)
    }

    ghost function MailAt(s: nat): Mail
      requires Valid() && 1 <= s <= serverId
      reads this, mm
    {
      MailOf(Slot(s))
    }

    /** Slice assignment.  Past the end of the file Python raises an error and writes nothing. */
    method Put(i: nat, data: seq<Byte>) returns (ok: bool)
      modifies mm
      ensures ok <==> i + |data| <= mm.Length
      ensures mm[..] == if ok then Splice(old(mm[..]), i, data) else old(mm[..])
    {
      if i + |data| > mm.Length {
        return false;
      }
      for k := 0 to |data|
        invariant mm[..i] == old(mm[..i]) && mm[i..i + k] == data[..k]
        invariant mm[i + |data|..] == old(mm[i + |data|..])
      {
        mm[i + k] := data[k];
      }
      assert mm[..] == mm[..i] + mm[i..i + |data|] + mm[i + |data|..];
      ok := true;
    }

    /** Part of one slot. */
    method Get(s: nat, off: nat, len: nat) returns (data: seq<Byte>)
      requires s < Slots() && off + len <= SLOT_SIZE
      ensures data == Slot(s)[off..off + len]
    {
      var at := s * SLOT_SIZE;
      data := mm[at + off..at + off + len];
      forall k | 0 <= k < len ensures data[k] == Slot(s)[off..off + len][k] {
        assert data[k] == mm[at + off + k] == mm[..][at + (off + k)] == Slot(s)[off + k];
      }
    }

    /** A write inside one slot. */
    method PutInSlot(s: nat, off: nat, data: seq<Byte>)
      requires s < Slots() && off + |data| <= SLOT_SIZE
      modifies mm
      ensures Slot(s) == Splice(old(Slot(s)), off, data)
      ensures forall t | 0 <= t < Slots() && t != s :: Slot(t) == old(Slot(t))
    {
      var _ := Put(s * SLOT_SIZE + off, data);
      forall t | 0 <= t < Slots()
        ensures Slot(t) == if t == s then Splice(old(Slot(t)), off, data) else old(Slot(t))
      {
        SpliceSlot(old(mm[..]), s, off, data, t);
      }
    }

    /** fill.  `taken` says whether a receiver empties the slot during the wait; if none does, the
        wait ends in overwriting the message that is there. */
    method Fill(sender: nat, msg: seq<Byte>, taken: bool) returns (ok: bool, stomped: bool)
      requires Valid()
      modifies mm
      ensures Valid() && (ok <==> 1 <= sender <= serverId && |msg| < 384)
      ensures !ok ==> mm[..] == old(mm[..])
      ensures ok ==> MailAt(sender) == old(MailAt(sender)).(message := msg) && Slot(sender)[MSG_OFF + |msg|] == 0
      ensures ok ==>
                var slot, before := Slot(sender), old(Slot(sender));
                && slot[32..40] == [|msg| % 256, |msg| / 256] + Zeros(6) && slot[128..128 + |msg|] == msg
                && slot[..32] == before[..32] && slot[40..128] == before[40..128]
      ensures ok ==> (stomped <==> old(MailAt(sender)).message != [] && !taken)
      ensures forall t | 0 <= t < Slots() && t != sender :: Slot(t) == old(Slot(t))
    {
      ok, stomped := 1 <= sender <= serverId && |msg| < MAX_MSGLEN, false;
      if !ok {
        return;
      }
      var before := Get(sender, MSGLEN_OFF, 8);
      stomped := Unpack(before) != 0 && !taken;
      PutInSlot(sender, MSGLEN_OFF, Pack(|msg|, 8));
      PutInSlot(sender, MSG_OFF, msg);
      PutInSlot(sender, MSG_OFF + |msg|, [0]);
      FillMeans(old(Slot(sender)), msg);
      FillBytes(old(Slot(sender)), msg);
    }

    /** retrieve.  The name and the message; taking it empties the slot and nothing else. */
    method Retrieve(peer: nat, clear: bool) returns (ok: bool, nodename: seq<Byte>, msg: seq<Byte>)
      requires Valid()
      modifies mm
      ensures Valid() && (ok <==> 1 <= peer <= serverId)
      ensures !ok || !clear ==> mm[..] == old(mm[..])
      ensures ok ==> nodename == old(MailAt(peer)).nodename && msg == old(MailAt(peer)).message
      ensures ok && clear ==>
                Slot(peer)[32..40] == Zeros(8) && Slot(peer)[..32] == old(Slot(peer))[..32] && Slot(peer)[40..] == old(Slot(peer))[40..]
      ensures ok && clear ==> MailAt(peer) == old(MailAt(peer)).(message := [])
      ensures forall t | 0 <= t < Slots() && t != peer :: Slot(t) == old(Slot(t))
    {
      ok, nodename, msg := 1 <= peer <= serverId, [], [];
      if !ok {
        return;
      }
      ghost var slot := Slot(peer);
      assert SlotOk(slot);
      var name := Get(peer, 0, NODENAME_SIZE);
      var len := Get(peer, MSGLEN_OFF, 8);
      nodename := UpToNul(name);
      msg := Get(peer, MSG_OFF, Unpack(len));
      if clear {
        PutInSlot(peer, MSGLEN_OFF, Pack(0, 8));
        TakeMeans(slot);
        TakeBytes(slot);
      }
    }

    /** clear_mailslot: the node name is wiped and perhaps replaced. */
    method ClearMailslot(id: nat, name: seq<Byte>) returns (ok: bool)
      requires Valid()
      modifies mm
      ensures Valid() && (1 <= id <= serverId && |name| < NODENAME_SIZE ==> ok)
      ensures ok ==> 1 <= id <= serverId && |name| < NODENAME_SIZE
      ensures ok ==> MailAt(id) == old(MailAt(id)).(nodename := UpToNul(name))
      ensures ok ==> Slot(id)[..32] == name + Zeros(32 - |name|) && Slot(id)[32..] == old(Slot(id))[32..]
      ensures forall t | 0 <= t < Slots() && t != id :: Slot(t) == old(Slot(t))
    {
      if !(1 <= id <= serverId) {
        return false;
      }
      ghost var slot := Slot(id);
      assert SlotOk(slot);
      PutInSlot(id, 0, Zeros(NODENAME_SIZE));
      if |name| >= NODENAME_SIZE {
        NameMeans(slot, []);
        assert Splice(slot, 0, Zeros(NODENAME_SIZE)) == NameSlot(slot, []);
        return false;
      }
      PutInSlot(id, 0, name);
      NameMeans(slot, name);
      NameParts(slot, name);
      ok := true;
    }

    /** The part of _init_mailslot that reads the layout: clients look only at these offsets. */
    method ReadLayout() returns (nClients: nat, nEvents: nat, server: nat)
      requires mm.Length >= FILE_SIZE
      ensures nClients == DriverGlobals(Slot(0)).nClients
      ensures nEvents == DriverGlobals(Slot(0)).nEvents
      ensures server == DriverGlobals(Slot(0)).serverId
    {
      assert mm[16..24] == Slot(0)[16..24] && mm[24..32] == Slot(0)[24..32] && mm[32..40] == Slot(0)[32..40];
      nClients, nEvents, server := Unpack(mm[16..24]), Unpack(mm[24..32]), Unpack(mm[32..40]);
    }

    /** _initialize_mailbox.  The server admits up to 62 clients, and set-up goes through exactly
        when the last peer id fits into the file: for 14 clients or fewer in a file of sixteen
        slots.  Then the layout can be read back and every slot carries its own peer id; the first
        sixteen slots are empty besides, and the server has its name.  Slots beyond them, which
        only a longer file has, keep whatever else they held. */
    method Initialize(nClients: nat, smart: bool) returns (ok: bool)
      requires mm.Length >= FILE_SIZE && 1 <= nClients <= 62
      modifies this`serverId, mm
      ensures ok <==> (nClients + 1) * SLOT_SIZE + PEER_ID_OFF + 8 <= mm.Length
      ensures mm.Length == FILE_SIZE ==> (ok <==> nClients <= 14)
      ensures ok ==> serverId == nClients + 1
      ensures ok ==> DriverGlobals(Slot(0)) == Globals(SLOT_SIZE, MSG_OFF, nClients, nClients + 2, nClients + 1)
      ensures ok ==> forall s | 1 <= s <= serverId && s < Slots() :: Slot(s)[40..48] == [s, 0] + Zeros(6)
      ensures ok && nClients <= 14 ==> Valid()
      ensures ok && nClients <= 14 ==>
                forall s | 1 <= s <= serverId ::
                  MailAt(s) == Mail(if s == serverId then if smart then Z_SWITCH else Z_SERVER else [], s, [])
      ensures ok ==> forall s | MAX_SLOTS <= s < serverId && s < Slots() :: Slot(s) == Numbered(old(Slot(s)), s)
    {
      var g := Globals(SLOT_SIZE, MSG_OFF, nClients, nClients + 2, nClients + 1);
      var name := if smart then Z_SWITCH else Z_SERVER;
      ok := LayOut(g, name);
      if !ok {
        return;
      }
      serverId := g.serverId;
      forall s | 1 <= s <= serverId && s < Slots() ensures Slot(s)[40..48] == [s, 0] + Zeros(6) {
        NumberBytes(if s < MAX_SLOTS then Zeros(SLOT_SIZE) else old(Slot(s)), s, name, s == serverId);
      }
      if nClients <= 14 {
        forall s | 1 <= s <= serverId
          ensures SlotOk(Slot(s)) && MailOf(Slot(s)) == Mail(if s == serverId then name else [], s, [])
        {
          StartedSlot(s, name, s == serverId);
        }
      }
    }

    /** Globals, peer ids and the server's name, in this order. */
    method LayOut(g: Globals, name: seq<Byte>) returns (ok: bool)
      requires mm.Length >= FILE_SIZE && |name| <= 8 && g.nEvents == g.serverId + 1 && 1 <= g.serverId
      requires g.slotSize < 65536 && g.msgOffset < 65536 && g.nClients < 65536 && g.nEvents < 65536 && g.serverId < 65536
      modifies mm
      ensures ok <==> g.serverId * SLOT_SIZE + PEER_ID_OFF + 8 <= mm.Length
      ensures ok ==> DriverGlobals(Slot(0)) == g
      ensures ok ==> forall s | 1 <= s <= g.serverId && s < Slots() ::
                       var slot := if s < MAX_SLOTS then FreshSlot(s) else Numbered(old(Slot(s)), s);
                       Slot(s) == if s == g.serverId then Splice(slot, 0, name) else slot
    {
      WriteGlobals(g);
      ok := NumberSlots(g.nEvents);
      if ok {
        NameServer(g.serverId, name);
      }
    }

    /** The first sixteen slots zero, except for the globals. */
    method WriteGlobals(g: Globals)
      requires mm.Length >= FILE_SIZE
      requires g.slotSize < 65536 && g.msgOffset < 65536 && g.nClients < 65536 && g.nEvents < 65536 && g.serverId < 65536
      modifies mm
      ensures DriverGlobals(Slot(0)) == g
      ensures forall s | 1 <= s < MAX_SLOTS :: Slot(s) == Zeros(SLOT_SIZE)
      ensures forall s | MAX_SLOTS <= s < Slots() :: Slot(s) == old(Slot(s))
    {
      var _ := Put(0, Zeros(FILE_SIZE));
      forall s | 0 <= s < Slots() ensures Slot(s) == if s < MAX_SLOTS then Zeros(SLOT_SIZE) else old(Slot(s)) {
        ZeroedSlot(old(mm[..]), s);
      }
      PutInSlot(0, 0, PackGlobals(g));
      GlobalsSurvive(Zeros(SLOT_SIZE), g);
    }

    /** The loop that writes each slot's own number; the last slot may end outside the file. */
    method NumberSlots(nEvents: nat) returns (ok: bool)
      requires mm.Length >= FILE_SIZE && 2 <= nEvents
      modifies mm
      ensures ok <==> (nEvents - 1) * SLOT_SIZE + PEER_ID_OFF + 8 <= mm.Length
      ensures ok ==> forall s | 1 <= s < nEvents && s < Slots() :: Slot(s) == Numbered(old(Slot(s)), s)
      ensures Slot(0) == old(Slot(0))
    {
      var slot := 1;
      while slot < nEvents
        invariant 1 <= slot <= nEvents
        invariant (slot - 1) * SLOT_SIZE + PEER_ID_OFF + 8 <= mm.Length
        invariant forall s | 0 <= s < Slots() :: Slot(s) == if 1 <= s < slot then Numbered(old(Slot(s)), s) else old(Slot(s))
      {
        if slot < Slots() {
          PutInSlot(slot, PEER_ID_OFF, Pack(slot, 8));
        } else {
          var fits := PutAtEnd(slot * SLOT_SIZE + PEER_ID_OFF, Pack(slot, 8));
          if !fits {
            return false;
          }
        }
        slot := slot + 1;
      }
      ok := true;
    }

    /** A write behind the last whole slot. */
    method PutAtEnd(i: nat, data: seq<Byte>) returns (ok: bool)
      requires Slots() * SLOT_SIZE <= i
      modifies mm
      ensures ok <==> i + |data| <= mm.Length
      ensures forall s | 0 <= s < Slots() :: Slot(s) == old(Slot(s))
    {
      ok := Put(i, data);
      if ok {
        forall s | 0 <= s < Slots() ensures Slot(s) == old(Slot(s)) {
          SpliceOutside(old(mm[..]), i, data, s * SLOT_SIZE, (s + 1) * SLOT_SIZE);
        }
      }
    }

    method NameServer(id: nat, name: seq<Byte>)
      requires |name| <= 8 && id * SLOT_SIZE + 8 <= mm.Length
      modifies mm
      ensures forall s | 0 <= s < Slots() :: Slot(s) == if s == id then Splice(old(Slot(s)), 0, name) else old(Slot(s))
    {
      if id < Slots() {
        PutInSlot(id, 0, name);
      } else {
        var _ := PutAtEnd(id * SLOT_SIZE, name);
      }
    }
  }
}
