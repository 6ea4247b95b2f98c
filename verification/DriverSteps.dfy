/** The driver's calls in place are steps of the handshake: what one adapter does to its fields and to
    the mailslots is what the corresponding run does to the state they represent. */
module DriverSteps {
  import opened Prelude
  import opened Handshake
  import opened HandshakeSafety
  import opened HandshakeSends
  import Driver
  import LinkLayer

  function Untimed(slot: Slot): Slot { slot.(ticket := 0) }

  /** The mailslots and the receiving side of adapter `a`, as the handshake sees them. */
  ghost predicate Represents(a: Driver.Adapter, st: State)
    requires a.Wired()
    reads a, a.slots, set m | m in a.slots :: m.buf
  {
    && |a.slots| == a.globals.serverId + 1 == |st.nodes| && st.maxBuflen == a.maxBuflen
    && (forall msg :: st.isLink(msg) <==> LinkLayer.Recognised(msg))
    && (forall i | 1 <= i < |st.nodes| :: Untimed(st.nodes[i].slot) == a.slots[i].View())
    && match st.nodes[a.myId].incoming
       case None => a.incoming == null
       case Some(k) => IsId(st, k) && a.incoming == a.slots[k]
  }

  ghost function Views(a: Driver.Adapter): seq<Slot>
    reads a, a.slots, set m | m in a.slots :: m.buf
  {
    seq(|a.slots|, i requires 0 <= i < |a.slots| reads a, a.slots, set m | m in a.slots :: m.buf => a.slots[i].View())
  }

  /** The driver's tests before a send are those of the handshake. */
  lemma SendableIff(a: Driver.Adapter, st: State, cid: int, msg: seq<Byte>)
    requires |st.nodes| == a.globals.serverId + 1 && st.maxBuflen == a.maxBuflen
    ensures Driver.SendError(a.globals, a.maxBuflen, cid, Driver.SID_CID_IS_PEER_ID, |msg|) == 0
            <==> Sendable(st, Driver.Peer(cid, Driver.SID_CID_IS_PEER_ID), msg)
  {
  }

  lemma UntimedPublished(slot: Slot, dest: Id, msg: seq<Byte>, ticket: nat)
    requires |msg| < |slot.buf|
    ensures Untimed(Published(slot, dest, msg, ticket)) == Published(Untimed(slot), dest, msg, 0)
  {
  }

  // ---- sending

  /** famez_create_outgoing with nobody emptying the slot meanwhile: no step, a refused send or a
      whole one. */
  function SendSteps(st: State, id: Id, dest: Id, msg: seq<Byte>, error: int): seq<Step>
    requires IsId(st, id)
  {
    if error != 0 then []
    else if Busy(st, id) then [Begin(id, dest, msg)] + [Refuse(id)]
    else SendRun(id, dest, msg)
  }

  lemma RefusedSend(st: State, s: Id, dest: Id, msg: seq<Byte>)
    requires IsId(st, s) && st.nodes[s].sender.Quiet? && Busy(st, s) && Sendable(st, dest, msg)
    ensures var run := [Begin(s, dest, msg)] + [Refuse(s)];
            ValidRun(st, run) && Final(st, run) == st
  {
    var st1 := Apply(st, Begin(s, dest, msg));
    RefuseCompletes(st1, s);
    assert SetSender(st1, s, Quiet) == st;
    RunStep(st, Begin(s, dest, msg), [Refuse(s)]);
  }

  method SendAs(a: Driver.Adapter, cid: int, sid: int, msg: seq<Byte>, cleared: seq<bool>, ghost st: State)
    returns (ret: int, ghost run: seq<Step>)
    requires a.Wired() && Represents(a, st) && st.nodes[a.myId].sender.Quiet? && true !in cleared
    modifies a.MySlot()`buflen, a.MySlot()`lastResponder, a.MySlot().buf, a`rung
    ensures var dest, error := Driver.Peer(cid, sid), Driver.SendError(a.globals, a.maxBuflen, cid, sid, |msg|);
            && run == SendSteps(st, a.myId, dest, msg, error)
            && ValidRun(st, run) && |Final(st, run).nodes| == |st.nodes| && Represents(a, Final(st, run))
            && (a.rung == old(a.rung) <==> Final(st, run).pending == st.pending)
            && (a.rung != old(a.rung) ==>
                  && a.rung == old(a.rung) + [Driver.Pack(dest, a.myId)]
                  && Final(st, run).pending == st.pending + multiset{Doorbell(dest, a.myId)})
  {
    ghost var dest, error := Driver.Peer(cid, sid), Driver.SendError(a.globals, a.maxBuflen, cid, sid, |msg|);
    run := SendSteps(st, a.myId, dest, msg, error);
    ret := a.CreateOutgoing(cid, sid, msg, cleared);
    if error == 0 {
      if Busy(st, a.myId) {
        RefusedSend(st, a.myId, dest, msg);
      } else {
        SendCompletes(st, a.myId, dest, msg);
        UntimedPublished(st.nodes[a.myId].slot, dest, msg, |st.accepted|);
      }
    }
  }

  // ---- releasing

  /** famez_release_incoming is the two stores, one after the other. */
  method ReleaseAs(a: Driver.Adapter, ghost st: State)
    requires a.Wired() && Represents(a, st) && InUse(st.nodes[a.myId].reader) && a.incoming != null && !a.locked
    modifies a`incoming, a`locked, a.incoming`buflen
    ensures ValidRun(st, ReleaseRun(a.myId)) && |Final(st, ReleaseRun(a.myId)).nodes| == |st.nodes|
    ensures Represents(a, Final(st, ReleaseRun(a.myId)))
  {
    ReleaseCompletes(st, a.myId, st.nodes[a.myId].incoming.value);
    a.ReleaseIncoming();
  }

  // ---- the interrupt handler

  /** A doorbell from `s` is pending, its interrupt has come and the lock is free.  The invariant at
      `s` holds in every reachable state. */
  ghost predicate Interrupted(a: Driver.Adapter, vector: int, st: State, s: Id)
    requires a.Wired()
    reads a, a.slots, set m | m in a.slots :: m.buf
  {
    && 1 <= |a.table| && !a.locked && Represents(a, st)
    && IsId(st, s) && a.Source(vector) == Some(a.slots[s])
    && Rung(st, a.myId, s) && LocalInv(st, a.myId, s) && !st.nodes[a.myId].reader.Releasing?
  }

  /** all_msix on ordinary mail is one delivery. */
  method MailAs(a: Driver.Adapter, vector: int, cleared: seq<bool>, ghost st: State, ghost s: Id)
    requires a.Wired() && Interrupted(a, vector, st, s) && !st.isLink(Message(st.nodes[s].slot))
    modifies a`incoming, a`locked, a`rung, a`core, a.slots, a.MySlot().buf
    ensures Enabled(st, Deliver(a.myId, s)) && |Apply(st, Deliver(a.myId, s)).nodes| == |st.nodes|
    ensures Represents(a, Apply(st, Deliver(a.myId, s))) && a.rung == old(a.rung)
  {
    RuleAgrees(a, st, s);
    var _ := a.AllMsix(vector, cleared);
  }

  /** all_msix on a link request, with nobody emptying our own slot meanwhile, takes it and answers it
      in one undisturbed send, is refused, or has nothing it could send. */
  method LinkAs(a: Driver.Adapter, vector: int, cleared: seq<bool>, ghost st: State, ghost s: Id) returns (ghost reply: seq<Byte>)
    requires a.Wired() && Interrupted(a, vector, st, s) && st.isLink(Message(st.nodes[s].slot))
    requires st.nodes[a.myId].sender.Quiet? && true !in cleared
    modifies a`incoming, a`locked, a`rung, a`core, a.slots, a.MySlot().buf
    ensures var run := [LinkRequest(a.myId, s, reply)] + ReplyRun(st, a.myId, s, reply);
            ValidRun(st, run) && |Final(st, run).nodes| == |st.nodes| && Represents(a, Final(st, run))
  {
    ghost var d, views := a.myId, Views(a);
    RuleAgrees(a, st, s);
    reply := LinkLayer.Bytes(a.slots[s].Link(a.core).value.text);
    SendableIff(a, st, a.slots[s].peerId, reply);
    ghost var sent := Sendable(st, ReplyTo(st.nodes[s].slot), reply) && (d == s || !Busy(st, d));
    AnswerViews(a, vector, cleared, s, reply);
    LinkRun(st, d, s, reply, views, Views(a), sent);
  }

  lemma LinkRun(st: State, d: Id, s: Id, reply: seq<Byte>, views: seq<Slot>, views': seq<Slot>, sent: bool)
    requires Enabled(st, LinkRequest(d, s, reply)) && |st.nodes[d].slot.buf| == st.maxBuflen
    requires IsId(st, d) && IsId(st, s) && LinkEffect(st, d, s, reply, views, views', sent)
    ensures var run := [LinkRequest(d, s, reply)] + ReplyRun(st, d, s, reply);
            && ValidRun(st, run)
            && var end := Final(st, run);
            && |end.nodes| == |st.nodes| && end.maxBuflen == st.maxBuflen && end.isLink == st.isLink
            && end.nodes[d].incoming == st.nodes[d].incoming
            && forall i | 1 <= i < |st.nodes| :: Untimed(end.nodes[i].slot) == views'[i]
  {
    LinkCompletes(st, d, s, reply);
    LinkTaken(st, d, s, reply, views, views', sent);
  }

  /** The effect of all_msix on the mailslots, for a link request. */
  method AnswerViews(a: Driver.Adapter, vector: int, cleared: seq<bool>, ghost s: nat, ghost reply: seq<Byte>)
    requires a.Wired() && 1 <= |a.table| && !a.locked && true !in cleared
    requires 1 <= s < |a.slots| && a.Source(vector) == Some(a.slots[s])
    requires a.slots[s].Link(a.core).Some? && reply == LinkLayer.Bytes(a.slots[s].Link(a.core).value.text)
    modifies a`incoming, a`locked, a`rung, a`core, a.slots, a.MySlot().buf
    ensures a.incoming == old(a.incoming)
    ensures var d, v, v', to := a.myId, old(Views(a)), Views(a), old(a.slots[s].peerId);
            var sent := Driver.SendError(a.globals, a.maxBuflen, to, Driver.SID_CID_IS_PEER_ID, |reply|) == 0
                        && (s == d || v[d].buflen == 0);
            && (forall i | 1 <= i < |v| && i != s && i != d :: v'[i] == v[i])
            && (s != d ==> v'[s] == v[s].(buflen := 0))
            && (sent ==> |reply| < |v[d].buf|)
            && v'[d] == if sent then Published(v[d], Driver.Peer(to, Driver.SID_CID_IS_PEER_ID), reply, 0)
                        else v[d].(buflen := if s == d then 0 else v[d].buflen)
  {
    assert a.slots[s] == a.MySlot() <==> s == a.myId;
    var _ := a.AllMsix(vector, cleared);
  }

  predicate LinkEffect(st: State, d: Id, s: Id, reply: seq<Byte>, views: seq<Slot>, views': seq<Slot>, sent: bool)
    requires IsId(st, d) && IsId(st, s)
  {
    && |views'| == |views| == |st.nodes|
    && (forall i | 1 <= i < |st.nodes| :: Untimed(st.nodes[i].slot) == views[i])
    && sent == (Sendable(st, ReplyTo(st.nodes[s].slot), reply) && (d == s || !Busy(st, d)))
    && (sent ==> |reply| < |views[d].buf|)
    && (forall i | 1 <= i < |st.nodes| && i != s && i != d :: views'[i] == views[i])
    && (s != d ==> views'[s] == views[s].(buflen := 0))
    && views'[d] == if sent then Published(views[d], ReplyTo(views[s]), reply, 0)
                    else views[d].(buflen := if s == d then 0 else views[d].buflen)
  }

  /** The mailslots after a link request from `s` was taken and answered, or not. */
  lemma LinkTaken(st: State, d: Id, s: Id, reply: seq<Byte>, views: seq<Slot>, views': seq<Slot>, sent: bool)
    requires IsId(st, d) && IsId(st, s) && LinkEffect(st, d, s, reply, views, views', sent)
    ensures var st' := Replied(st, d, s, reply);
            |st'.nodes| == |st.nodes| && forall i | 1 <= i < |st.nodes| :: Untimed(st'.nodes[i].slot) == views'[i]
  {
    var slot := Taken(st, d, s).nodes[d].slot;
    if |reply| < |slot.buf| {
      UntimedPublished(slot, ReplyTo(st.nodes[s].slot), reply, |st.accepted|);
    }
  }

  /** The handler decides by the message alone. */
  lemma RuleAgrees(a: Driver.Adapter, st: State, s: Id)
    requires a.Wired() && Represents(a, st) && IsId(st, s) && AtRest(st, s) && SlotOk(st, s)
    ensures a.slots[s].Link(a.core).Some? <==> st.isLink(Message(st.nodes[s].slot))
  {
    var slot := a.slots[s];
    assert st.nodes[s].slot.buf == slot.buf[..] && st.nodes[s].slot.buflen == slot.buflen;
    LinkLayer.RuleOnMessage(slot.buf[..], slot.buflen, a.core);
  }
}
