/** The driver's calls as they run on one adapter: sending, the interrupt handler, releasing and
    the bridge's write().  Each is tied to the slot contents that the handshake reasons about. */
module Driver {
  import opened Prelude
  import opened Handshake
  import HandshakeSends
  import LinkLayer

  const ENETUNREACH := 101
  const EBADSLT := 57
  const E2BIG := 7
  const ENODATA := 61
  const ERESTARTSYS := 512
  const EFAULT := 14
  const EBADMSG := 74
  const ETIMEDOUT := 110
  const EIO := 5

  const SID_DEFAULT := 27
  const SID_CID_IS_PEER_ID := -42

  const COLON: Byte := 58
  const COMMA: Byte := 44

  /** The global area of slot 0, written by the server. */
  datatype Globals = Globals(slotsize: nat, bufOffset: nat, nClients: nat, nEvents: nat, serverId: nat)

  datatype MsixEntry = MsixEntry(entry: nat, vector: int)

  datatype IrqReturn = IrqNone | IrqHandled

  // ---- addresses and doorbells

  /** Division as C does it, rounding towards zero. */
  function CDiv(a: int, b: int): int
    requires b > 0
  {
    if a >= 0 then a / b else -((-a) / b)
  }

  function Peer(cid: int, sid: int): nat {
    (if sid == SID_CID_IS_PEER_ID then cid else CDiv(cid, 100)) % 0x1_0000_0000
  }

  /** The doorbell register: destination in the high half, vector in the low half. */
  function Pack(peer: nat, vector: nat): nat { (peer % 0x1_0000) * 0x1_0000 + vector % 0x1_0000 }

  function DoorbellPeer(doorbell: nat): nat { doorbell / 0x1_0000 }

  function DoorbellVector(doorbell: nat): nat { doorbell % 0x1_0000 }

  /** The entry the handler's search stops at, or `nEvents` when there is none. */
  function Match(table: seq<MsixEntry>, vector: int, from: nat): (k: nat)
    requires from <= |table|
    ensures from <= k <= |table|
    ensures forall i | from <= i < k :: table[i].vector != vector
    ensures k < |table| ==> table[k].vector == vector
    decreases |table| - from
  {
    if from == |table| || table[from].vector == vector then from else Match(table, vector, from + 1)
  }

  /** The table that interrupt set-up leaves: entry numbers in order, IRQ numbers distinct. */
  predicate GoodTable(table: seq<MsixEntry>) {
    && (forall i | 0 <= i < |table| :: table[i].entry == i)
    && (forall i, j | 0 <= i < j < |table| :: table[i].vector != table[j].vector)
  }

  predicate IsMailslot(g: Globals, slotnum: nat) { 1 <= slotnum <= g.nClients || slotnum == g.serverId }

  /** What the sender rings is what the receiver finds: the interrupt that the device raises for
      a doorbell leads the handler to the sender's own slot, for every peer including the server;
      and an interrupt for vector 0 or one outside the table leads nowhere. */
  lemma SenderIdentified(g: Globals, table: seq<MsixEntry>, peer: nat, id: nat)
    requires g.serverId == g.nClients + 1 && g.nEvents == g.nClients + 2 == |table| <= 0x1_0000
    requires GoodTable(table) && 1 <= id <= g.serverId && 1 <= peer <= g.serverId
    ensures DoorbellPeer(Pack(peer, id)) == peer && DoorbellVector(Pack(peer, id)) == id
    ensures var irq := table[DoorbellVector(Pack(peer, id))].vector;
            var k := Match(table, irq, 1);
            k < |table| && table[k].entry == id && IsMailslot(g, table[k].entry)
    ensures Match(table, table[0].vector, 1) == g.nEvents
    ensures forall v | (forall i | 1 <= i < |table| :: table[i].vector != v) :: Match(table, v, 1) == g.nEvents
  {
    assert table[id].vector == table[DoorbellVector(Pack(peer, id))].vector;
  }

  // ---- text in front of a colon

  /** strchr: the first `c` in the NUL-terminated string that starts at `s[from]`. */
  function StrChr(s: seq<Byte>, c: Byte, from: nat := 0): (r: Option<nat>)
    requires from <= |s|
    ensures r.Some? ==> from <= r.value < |s| && s[r.value] == c && forall i | from <= i < r.value :: s[i] != c && s[i] != 0
    ensures r.None? ==> forall i | from <= i < |s| && s[i] == c :: exists j | from <= j < i :: s[j] == 0
    decreases |s| - from
  {
    if from == |s| then None
    else if s[from] == c then Some(from)
    else if s[from] == 0 then None
    else StrChr(s, c, from + 1)
  }

  type ErrorCode = e: int | e < 0 witness -1

  /** What kstrtoint makes of a string; its errors are reported as they come. */
  datatype Parsed = Number(n: int) | Bad(err: ErrorCode)

  datatype Target = Target(cid: int, sid: int) | BadTarget(err: ErrorCode)

  const SERVER: seq<Byte> := [115, 101, 114, 118, 101, 114]
  const SWITCH: seq<Byte> := [115, 119, 105, 116, 99, 104]
  const LINK: seq<Byte> := [108, 105, 110, 107]
  const INTERFACE: seq<Byte> := [105, 110, 116, 101, 114, 102, 97, 99, 101]

  /** Who a message is for: a keyword for the server, "SID,CID", or a bare peer id. */
  function TargetOf(text: seq<Byte>, serverId: nat, toInt: seq<Byte> -> Parsed): Target {
    if text in {SERVER, SWITCH, LINK, INTERFACE} then Target(serverId, SID_CID_IS_PEER_ID)
    else
      match StrChr(text, COMMA)
      case Some(k) =>
        (match toInt(text[..k])
         case Bad(err) => BadTarget(err)
         case Number(sid) =>
           match toInt(text[k + 1..])
           case Bad(err) => BadTarget(err)
           case Number(cid) => Target(cid, sid))
      case None =>
        match toInt(text)
        case Bad(err) => BadTarget(err)
        case Number(cid) => Target(cid, SID_CID_IS_PEER_ID)
  }

  // ---- one adapter

  class Mailslot {
    var buflen: nat
    var peerId: nat
    var lastResponder: nat
    var peerSid: int
    var peerCid: int
    const buf: array<Byte>

    constructor (size: nat, peer: nat)
      ensures fresh(buf) && buf.Length == size && buflen == 0 && peerId == peer && lastResponder == 0
    {
      buf := new Byte[size](_ => 0);
      buflen, peerId, lastResponder, peerSid, peerCid := 0, peer, 0, 0, 0;
    }

    ghost function View(): Slot
      reads this, buf
    {
      Slot(buflen, lastResponder, peerId, buf[..], 0)
    }

    /** What the driver makes of the message in this slot. */
    function Link(core: LinkLayer.Core): Option<LinkLayer.LinkReply>
      reads this, buf
    {
      LinkLayer.LinkRequest(buflen, LinkLayer.Chars(buf[..]), core)
    }
  }

  /** The error a send meets before it looks at the slot, if any; 0 when there is none. */
  function SendError(g: Globals, maxBuflen: nat, cid: int, sid: int, len: nat): int {
    if sid != SID_DEFAULT && sid != SID_CID_IS_PEER_ID then -ENETUNREACH
    else if Peer(cid, sid) < 1 || Peer(cid, sid) > g.serverId then -EBADSLT
    else if len >= maxBuflen then -E2BIG
    else if len == 0 then -ENODATA
    else 0
  }

  /** The fabric address (cid, sid) belongs to peer p: a hundred CIDs of the one subnet each, or the
      peer id itself where the SID says so.  CIDs are C integers. */
  predicate Addressed(cid: int, sid: int, p: int) {
    && -0x8000_0000 <= cid < 0x8000_0000
    && ((sid == 27 && 100 * p <= cid < 100 * (p + 1)) || (sid == -42 && cid == p))
  }

  /** Which peer an address reaches. */
  lemma PeerIs(g: Globals, cid: int, sid: int, p: int)
    requires Addressed(cid, sid, p) && g.serverId < 0x1_0000
    ensures 1 <= p <= g.serverId ==> Peer(cid, sid) == p
    ensures p < 1 || p > g.serverId ==> Peer(cid, sid) < 1 || Peer(cid, sid) > g.serverId
  {
  }

  /** What the tests of a send make of an address, error by error. */
  lemma AddressLaws(g: Globals, maxBuflen: nat, cid: int, sid: int, len: nat)
    ensures sid != 27 && sid != -42 ==> SendError(g, maxBuflen, cid, sid, len) == -101
    ensures g.serverId < 0x1_0000 ==>
              forall p | Addressed(cid, sid, p) ::
                && (1 <= p <= g.serverId ==> Peer(cid, sid) == p)
                && SendError(g, maxBuflen, cid, sid, len)
                   == if p < 1 || p > g.serverId then -57 else if len >= maxBuflen then -7 else if len == 0 then -61 else 0
  {
    forall p | Addressed(cid, sid, p) && g.serverId < 0x1_0000
      ensures 1 <= p <= g.serverId ==> Peer(cid, sid) == p
      ensures SendError(g, maxBuflen, cid, sid, len)
              == if p < 1 || p > g.serverId then -57 else if len >= maxBuflen then -7 else if len == 0 then -61 else 0
    {
      PeerIs(g, cid, sid, p);
    }
  }

  class Adapter {
    const globals: Globals
    const maxBuflen: nat
    const myId: nat
    const slots: seq<Mailslot>      // every mailslot of the fabric, by index
    const table: seq<MsixEntry>
    var incoming: Mailslot?
    var locked: bool                // the incoming_slot spinlock
    var rung: seq<nat>              // everything written to the doorbell register
    var core: LinkLayer.Core        // the Gen-Z core structure

    constructor (g: Globals, id: nat, mailslots: seq<Mailslot>, entries: seq<MsixEntry>, c: LinkLayer.Core)
      requires g.bufOffset < g.slotsize
      ensures globals == g && myId == id && slots == mailslots && table == entries
      ensures maxBuflen == g.slotsize - g.bufOffset && incoming == null && !locked && rung == [] && core == c
    {
      globals, maxBuflen, myId, slots, table := g, g.slotsize - g.bufOffset, id, mailslots, entries;
      incoming, locked, rung, core := null, false, [], c;
    }

    predicate Wired()
    {
      && 1 <= myId <= globals.serverId < |slots|
      && globals.nClients < |slots|
      && |table| == globals.nEvents
      && (forall i | 0 <= i < |slots| :: slots[i].buf.Length == maxBuflen)
      && (forall i, j | 0 <= i < j < |slots| :: slots[i] != slots[j] && slots[i].buf != slots[j].buf)
    }

    function MySlot(): Mailslot
      requires Wired()
    {
      slots[myId]
    }

    /** Our slot now holds `body`, terminated, for peer `to`, and one more doorbell was rung, which
        decodes to that peer and ourselves. */
    twostate predicate Reached(to: int, body: seq<Byte>)
      requires Wired()
      reads this, MySlot(), MySlot().buf
    {
      var slot := MySlot();
      && slot.buflen == |body| < slot.buf.Length && slot.buf[..|body|] == body && slot.buf[|body|] == 0
      && slot.lastResponder == to && slot.peerId == old(slot.peerId)
      && |rung| == |old(rung)| + 1 && rung[..|old(rung)|] == old(rung)
      && rung[|rung| - 1] / 0x1_0000 == to && rung[|rung| - 1] % 0x1_0000 == myId
    }

    /** famez_create_outgoing.  `cleared[k]` says whether a responder emptied the slot during the
        k-th sleep of the wait; the wait ends with the list.  First by the tests in their order, then
        by the address: whom the message reaches, and every error by its number. */
    method CreateOutgoing(cid: int, sid: int, msg: seq<Byte>, cleared: seq<bool>) returns (ret: int)
      requires Wired()
      modifies MySlot()`buflen, MySlot()`lastResponder, MySlot().buf, this`rung
      ensures SendError(globals, maxBuflen, cid, sid, |msg|) != 0 ==>
                ret == SendError(globals, maxBuflen, cid, sid, |msg|)
                && MySlot().View() == old(MySlot().View()) && rung == old(rung)
      ensures SendError(globals, maxBuflen, cid, sid, |msg|) == 0 && old(MySlot().buflen) != 0 && true !in cleared ==>
                ret == -ERESTARTSYS && MySlot().View() == old(MySlot().View()) && rung == old(rung)
      ensures SendError(globals, maxBuflen, cid, sid, |msg|) == 0 && (old(MySlot().buflen) == 0 || true in cleared) ==>
                && ret == |msg| && |msg| < |old(MySlot().View()).buf|
                && MySlot().View() == HandshakeSends.Published(old(MySlot().View()), Peer(cid, sid), msg, 0)
                && rung == old(rung) + [Pack(Peer(cid, sid), myId)]
      ensures sid != 27 && sid != -42 ==> ret == -101
      ensures globals.serverId < 0x1_0000 ==>
                forall p | Addressed(cid, sid, p) ::
                  if p < 1 || p > globals.serverId then ret == -57
                  else if |msg| >= maxBuflen then ret == -7
                  else if |msg| == 0 then ret == -61
                  else if old(MySlot().buflen) == 0 || true in cleared then ret == |msg| && Reached(p, msg)
                  else ret == -512
      ensures ret < 0 ==> MySlot().View() == old(MySlot().View()) && rung == old(rung)
    {
      AddressLaws(globals, maxBuflen, cid, sid, |msg|);
      ret := SendError(globals, maxBuflen, cid, sid, |msg|);
      if ret != 0 {
        return;
      }
      var slot, peer := MySlot(), Peer(cid, sid);
      var k := 0;
      while slot.buflen != 0 && k < |cleared|
        invariant 0 <= k <= |cleared|
        invariant slot.buflen == (if true in cleared[..k] then 0 else old(slot.buflen))
        invariant slot.View() == old(slot.View()).(buflen := slot.buflen)
        invariant rung == old(rung)
      {
        if cleared[k] {
          slot.buflen := 0;
        }
        assert cleared[..k + 1] == cleared[..k] + [cleared[k]];
        k := k + 1;
      }
      assert cleared[..|cleared|] == cleared;
      if slot.buflen != 0 {
        return -ERESTARTSYS;
      }
      slot.buflen := |msg|;
      slot.buf[|msg|] := 0;
      slot.lastResponder := peer;
      for i := 0 to |msg|
        invariant slot.buf[..i] == msg[..i]
        invariant slot.buf[|msg|] == 0
        invariant slot.buf[|msg| + 1..] == old(slot.buf[|msg| + 1..])
        invariant slot.buflen == |msg| && slot.lastResponder == peer && slot.peerId == old(slot.peerId)
        invariant rung == old(rung)
      {
        slot.buf[i] := msg[i];
      }
      assert slot.buf[..] == slot.buf[..|msg|] + [slot.buf[|msg|]] + slot.buf[|msg| + 1..];
      rung := rung + [Pack(peer, myId)];
      ret := |msg|;
    }

    /** famez_release_incoming.  The handshake shows that there always is a slot to release. */
    method ReleaseIncoming()
      requires incoming != null && !locked
      modifies this`incoming, this`locked, incoming`buflen
      ensures incoming == null && !locked
      ensures old(incoming).View() == old(incoming.View()).(buflen := 0)
    {
      locked := true;
      incoming.buflen := 0;
      incoming := null;
      locked := false;
    }

    /** The slot an interrupt is about, when the handler can tell. */
    function Source(vector: int): Option<Mailslot>
      requires Wired() && 1 <= |table|
    {
      var k := Match(table, vector, 1);
      if k < |table| && IsMailslot(globals, table[k].entry) then Some(slots[table[k].entry]) else None
    }

    /** What sending a link reply leaves behind, `own` telling whether the request came from our own
        slot: the published reply and a doorbell if the send goes through, nothing otherwise. */
    twostate predicate Replied(source: Mailslot, reply: seq<Byte>, cleared: seq<bool>)
      requires Wired()
      reads this, source, MySlot(), MySlot().buf
    {
      var to, own := old(source.peerId), source == MySlot();
      if SendError(globals, maxBuflen, to, SID_CID_IS_PEER_ID, |reply|) == 0
         && (own || old(MySlot().buflen) == 0 || true in cleared)
      then
        && |reply| < |old(MySlot().View()).buf|
        && MySlot().View() == HandshakeSends.Published(old(MySlot().View()), Peer(to, SID_CID_IS_PEER_ID), reply, 0)
        && rung == old(rung) + [Pack(Peer(to, SID_CID_IS_PEER_ID), myId)]
      else
        && MySlot().View() == old(MySlot().View()).(buflen := if own then 0 else old(MySlot().buflen))
        && rung == old(rung)
    }

    /** famez_link_request, entered with the lock held.  A link request empties the slot, drops the
        lock, changes the core structure and is answered; other mail leaves everything in place. */
    method TakeLinkRequest(source: Mailslot, cleared: seq<bool>) returns (taken: bool)
      requires Wired() && source in slots && locked
      modifies this`locked, this`rung, this`core, source, MySlot(), MySlot().buf
      ensures source.peerSid == SID_DEFAULT && source.peerCid == source.peerId * 100
      ensures taken <==> old(source.Link(core)).Some?
      ensures !taken ==> locked && rung == old(rung) && core == old(core) && Untouched({})
      ensures taken ==>
                var link := old(source.Link(core)).value;
                && !locked && core == link.core && Untouched({source, MySlot()})
                && (source != MySlot() ==> source.View() == old(source.View()).(buflen := 0))
                && Replied(source, LinkLayer.Bytes(link.text), cleared)
    {
      source.peerSid, source.peerCid := SID_DEFAULT, source.peerId * 100;
      var link := source.Link(core);
      taken := link.Some?;
      if taken {
        Answer(source, link.value, cleared);
      }
    }

    /** Empties the slot, drops the lock, updates the core structure and replies, in this order. */
    method Answer(source: Mailslot, link: LinkLayer.LinkReply, cleared: seq<bool>)
      requires Wired() && source in slots
      modifies this`locked, this`rung, this`core, source`buflen, MySlot()`buflen, MySlot()`lastResponder, MySlot().buf
      ensures !locked && core == link.core && Untouched({source, MySlot()})
      ensures source != MySlot() ==> source.View() == old(source.View()).(buflen := 0)
      ensures Replied(source, LinkLayer.Bytes(link.text), cleared)
    {
      source.buflen := 0;
      locked := false;
      core := link.core;
      var _ := CreateOutgoing(source.peerId, SID_CID_IS_PEER_ID, LinkLayer.Bytes(link.text), cleared);
    }

    /** all_msix */
    method AllMsix(vector: int, cleared: seq<bool>) returns (r: IrqReturn)
      requires Wired() && 1 <= |table| && !locked
      modifies this`incoming, this`locked, this`rung, this`core, slots, MySlot().buf
      ensures !locked
      ensures r == IrqNone <==> Match(table, vector, 1) == |table|
      ensures Source(vector).None? ==> Untouched({}) && incoming == old(incoming) && rung == old(rung) && core == old(core)
      ensures Source(vector).Some? && old(Source(vector).value.Link(core)).None? ==>
                Untouched({}) && incoming == Source(vector).value && rung == old(rung) && core == old(core)
      ensures Source(vector).Some? && old(Source(vector).value.Link(core)).Some? ==>
                var source, link := Source(vector).value, old(Source(vector).value.Link(core)).value;
                && incoming == old(incoming) && core == link.core
                && Untouched({source, MySlot()})
                && (source != MySlot() ==> source.View() == old(source.View()).(buflen := 0))
                && Replied(source, LinkLayer.Bytes(link.text), cleared)
    {
      locked := true;
      var slotnum := 1;
      while slotnum < globals.nEvents && vector != table[slotnum].vector
        invariant 1 <= slotnum <= globals.nEvents
        invariant Match(table, vector, 1) == Match(table, vector, slotnum)
      {
        slotnum := slotnum + 1;
      }
      if slotnum >= globals.nEvents {
        locked := false;
        return IrqNone;
      }
      r := IrqHandled;
      var id := table[slotnum].entry;
      if !IsMailslot(globals, id) {
        locked := false;
        return;
      }
      var taken := TakeLinkRequest(slots[id], cleared);
      if !taken {
        incoming := slots[id];
        locked := false;
      }
    }

    twostate predicate Untouched(except: set<Mailslot>)
      requires Wired()
      reads this, slots, set s | s in slots :: s.buf
    {
      forall i | 0 <= i < |slots| && slots[i] !in except :: slots[i].View() == old(slots[i].View())
    }
  }
}
