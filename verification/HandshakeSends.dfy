/** Whole sends and reads, one after the other: what an undisturbed send leaves behind, and the
    runs in which an overlap loses a message. */
module HandshakeSends {
  import opened Prelude
  import opened Handshake
  import opened HandshakeSafety

  /** A slot after a whole send: length, destination, body and terminator in place. */
  function Published(slot: Slot, dest: Id, msg: seq<Byte>, ticket: nat): Slot
    requires |msg| < |slot.buf|
  {
    Slot(|msg|, dest, slot.peerId, msg + [0] + slot.buf[|msg| + 1..], ticket)
  }

  function Sent(st: State, s: Id, dest: Id, msg: seq<Byte>): State
    requires IsId(st, s) && |msg| < |st.nodes[s].slot.buf|
  {
    SetSlot(st, s, Published(st.nodes[s].slot, dest, msg, |st.accepted|))
      .(accepted := st.accepted + [Accepted(s, dest, msg)], pending := st.pending + multiset{Doorbell(dest, s)})
  }

  function CopyRun(s: Id, n: nat): seq<Step> { if n == 0 then [] else [CopyIn(s)] + CopyRun(s, n - 1) }

  function SendRun(s: Id, dest: Id, msg: seq<Byte>): seq<Step> {
    [Begin(s, dest, msg)] + WaitingRun(s, |msg|)
  }

  lemma RunStep(st: State, step: Step, rest: seq<Step>)
    requires Enabled(st, step) && ValidRun(Apply(st, step), rest)
    ensures ValidRun(st, [step] + rest) && Final(st, [step] + rest) == Final(Apply(st, step), rest)
  {
    assert ([step] + rest)[1..] == rest;
  }

  lemma {:induction false} CopyCompletes(st: State, s: Id, k: nat)
    requires IsId(st, s) && st.nodes[s].sender.Publishing? && st.nodes[s].sender.progress == Copying(k)
    requires k <= |st.nodes[s].sender.msg| <= |st.nodes[s].slot.buf|
    requires st.nodes[s].slot.buf[..k] == st.nodes[s].sender.msg[..k]
    ensures var sender, slot := st.nodes[s].sender, st.nodes[s].slot;
            var run := CopyRun(s, |sender.msg| - k);
            && ValidRun(st, run)
            && Final(st, run) == SetSlot(SetSender(st, s, sender.(progress := Copying(|sender.msg|))), s,
                                         slot.(buf := sender.msg + slot.buf[|sender.msg|..]))
    decreases |st.nodes[s].sender.msg| - k
  {
    var msg, buf := st.nodes[s].sender.msg, st.nodes[s].slot.buf;
    var run := CopyRun(s, |msg| - k);
    if k == |msg| {
      assert buf == msg + buf[|msg|..];
    } else {
      var st' := Apply(st, CopyIn(s));
      assert msg[..k + 1] == msg[..k] + [msg[k]];
      assert st'.nodes[s].slot.buf[|msg|..] == buf[|msg|..];
      assert run[1..] == CopyRun(s, |msg| - (k + 1));
      CopyCompletes(st', s, k + 1);
    }
  }

  lemma SenderThenSlot(st: State, s: Id, sender: Sender, slot: Slot)
    requires IsId(st, s)
    ensures SetSender(SetSlot(SetSender(st, s, sender), s, slot), s, Quiet) == SetSlot(SetSender(st, s, Quiet), s, slot)
  {
  }

  lemma RingCompletes(st: State, s: Id)
    requires Enabled(st, Ring(s))
    ensures ValidRun(st, [Ring(s)])
    ensures Final(st, [Ring(s)])
            == SetSender(st, s, Quiet).(pending := st.pending + multiset{Doorbell(st.nodes[s].sender.dest, s)})
  {
    assert [Ring(s)][1..] == [];
  }

  /** The tail of a send, once the destination is written. */
  lemma TailCompletes(st: State, s: Id)
    requires IsId(st, s) && st.nodes[s].sender.Publishing? && st.nodes[s].sender.progress == Copying(0)
    requires |st.nodes[s].sender.msg| <= |st.nodes[s].slot.buf|
    ensures var msg, slot := st.nodes[s].sender.msg, st.nodes[s].slot;
            var run := CopyRun(s, |msg|) + [Ring(s)];
            && ValidRun(st, run)
            && Final(st, run) == SetSlot(SetSender(st, s, Quiet), s, slot.(buf := msg + slot.buf[|msg|..]))
                                 .(pending := st.pending + multiset{Doorbell(st.nodes[s].sender.dest, s)})
  {
    var msg := st.nodes[s].sender.msg;
    CopyCompletes(st, s, 0);
    RingCompletes(Final(st, CopyRun(s, |msg|)), s);
    SenderThenSlot(st, s, st.nodes[s].sender.(progress := Copying(|msg|)), st.nodes[s].slot.(buf := msg + st.nodes[s].slot.buf[|msg|..]));
    RunConcat(st, CopyRun(s, |msg|), [Ring(s)]);
  }

  predicate FreeToSend(st: State, s: Id, dest: Id, msg: seq<Byte>) {
    && IsId(st, s) && st.nodes[s].sender.Quiet? && !Busy(st, s)
    && Sendable(st, dest, msg) && |st.nodes[s].slot.buf| == st.maxBuflen
  }

  lemma BodyCompletes(st: State, s: Id)
    requires IsId(st, s) && st.nodes[s].sender.Ready? && |st.nodes[s].sender.msg| < |st.nodes[s].slot.buf|
    ensures var Ready(dest, msg) := st.nodes[s].sender;
            var run := [Size(s)] + ([Terminate(s)] + ([Address(s)] + (CopyRun(s, |msg|) + [Ring(s)])));
            ValidRun(st, run) && Final(st, run) == Sent(SetSender(st, s, Quiet), s, dest, msg)
  {
    var Ready(dest, msg) := st.nodes[s].sender;
    var st3 := Apply(st, Size(s));
    var st4 := Apply(st3, Terminate(s));
    var rest := CopyRun(s, |msg|) + [Ring(s)];
    HeaderWritten(st, s);
    TailCompletes(Apply(st4, Address(s)), s);
    RunStep(st4, Address(s), rest);
    RunStep(st3, Terminate(s), [Address(s)] + rest);
    RunStep(st, Size(s), [Terminate(s)] + ([Address(s)] + rest));
    TerminatedBody(msg, st.nodes[s].slot.buf);
  }

  lemma TerminatedBody(msg: seq<Byte>, buf: seq<Byte>)
    requires |msg| < |buf|
    ensures msg + buf[|msg| := 0][|msg|..] == msg + [0] + buf[|msg| + 1..]
  {
  }

  /** The state once length, terminator and destination are written. */
  lemma HeaderWritten(st: State, s: Id)
    requires IsId(st, s) && st.nodes[s].sender.Ready? && |st.nodes[s].sender.msg| < |st.nodes[s].slot.buf|
    ensures Enabled(st, Size(s)) && Enabled(Apply(st, Size(s)), Terminate(s))
    ensures Enabled(Apply(Apply(st, Size(s)), Terminate(s)), Address(s))
    ensures var Ready(dest, msg) := st.nodes[s].sender;
            var slot := st.nodes[s].slot;
            Apply(Apply(Apply(st, Size(s)), Terminate(s)), Address(s))
            == SetSlot(SetSender(st, s, Publishing(dest, msg, Copying(0))), s,
                       Slot(|msg|, dest, slot.peerId, slot.buf[|msg| := 0], |st.accepted|))
               .(accepted := st.accepted + [Accepted(s, dest, msg)])
  {
  }

  /** A send to a free slot, run without interruption, is accepted and leaves the slot holding the
      message and one doorbell; nothing else changes. */
  lemma SendCompletes(st: State, s: Id, dest: Id, msg: seq<Byte>)
    requires FreeToSend(st, s, dest, msg)
    ensures ValidRun(st, SendRun(s, dest, msg)) && Final(st, SendRun(s, dest, msg)) == Sent(st, s, dest, msg)
  {
    var st1 := Apply(st, Begin(s, dest, msg));
    WaitingCompletes(st1, s);
    assert SetSender(st1, s, Quiet) == st;
    RunStep(st, Begin(s, dest, msg), WaitingRun(s, |msg|));
  }

  lemma WaitingCompletes(st: State, s: Id)
    requires IsId(st, s) && st.nodes[s].sender.Waiting? && !Busy(st, s) && |st.nodes[s].sender.msg| < |st.nodes[s].slot.buf|
    ensures var Waiting(dest, msg) := st.nodes[s].sender;
            ValidRun(st, WaitingRun(s, |msg|)) && Final(st, WaitingRun(s, |msg|)) == Sent(SetSender(st, s, Quiet), s, dest, msg)
  {
    var Waiting(dest, msg) := st.nodes[s].sender;
    var st' := Apply(st, Test(s));
    BodyCompletes(st', s);
    assert SetSender(st', s, Quiet) == SetSender(st, s, Quiet);
    RunStep(st, Test(s), [Size(s)] + ([Terminate(s)] + ([Address(s)] + (CopyRun(s, |msg|) + [Ring(s)]))));
  }

  function WaitingRun(s: Id, n: nat): seq<Step> {
    [Test(s)] + ([Size(s)] + ([Terminate(s)] + ([Address(s)] + (CopyRun(s, n) + [Ring(s)]))))
  }

  // ---- a link request and its reply, undisturbed

  /** What follows the taking of a link request: nothing if the reply cannot be sent at all, a
      refusal if our own slot is busy, a whole send otherwise. */
  function ReplyRun(st: State, d: Id, s: Id, reply: seq<Byte>): seq<Step>
    requires IsId(st, d) && IsId(st, s)
  {
    if !Sendable(st, ReplyTo(st.nodes[s].slot), reply) then []
    else if d != s && Busy(st, d) then [Refuse(d)]
    else WaitingRun(d, |reply|)
  }

  function Replied(st: State, d: Id, s: Id, reply: seq<Byte>): State
    requires IsId(st, d) && IsId(st, s)
  {
    var taken, dest := Taken(st, d, s), ReplyTo(st.nodes[s].slot);
    if Sendable(st, dest, reply) && (d == s || !Busy(st, d)) && |reply| < |taken.nodes[d].slot.buf| then Sent(taken, d, dest, reply)
    else taken
  }

  lemma LinkCompletes(st: State, d: Id, s: Id, reply: seq<Byte>)
    requires Enabled(st, LinkRequest(d, s, reply)) && |st.nodes[d].slot.buf| == st.maxBuflen
    ensures var run := [LinkRequest(d, s, reply)] + ReplyRun(st, d, s, reply);
            ValidRun(st, run) && Final(st, run) == Replied(st, d, s, reply)
  {
    var st1 := Apply(st, LinkRequest(d, s, reply));
    ReplyCompletes(st, d, s, reply, st1);
    RunStep(st, LinkRequest(d, s, reply), ReplyRun(st, d, s, reply));
  }

  lemma ReplyCompletes(st: State, d: Id, s: Id, reply: seq<Byte>, st1: State)
    requires Enabled(st, LinkRequest(d, s, reply)) && |st.nodes[d].slot.buf| == st.maxBuflen
    requires st1 == Apply(st, LinkRequest(d, s, reply))
    ensures ValidRun(st1, ReplyRun(st, d, s, reply)) && Final(st1, ReplyRun(st, d, s, reply)) == Replied(st, d, s, reply)
  {
    var taken, dest := Taken(st, d, s), ReplyTo(st.nodes[s].slot);
    if Sendable(st, dest, reply) {
      assert st1 == SetSender(taken, d, Waiting(dest, reply));
      assert SetSender(st1, d, Quiet) == taken;
      if d != s && Busy(st, d) {
        RefuseCompletes(st1, d);
      } else {
        WaitingCompletes(st1, d);
      }
    }
  }

  lemma RefuseCompletes(st: State, s: Id)
    requires Enabled(st, Refuse(s))
    ensures ValidRun(st, [Refuse(s)]) && Final(st, [Refuse(s)]) == SetSender(st, s, Quiet)
  {
    assert [Refuse(s)][1..] == [];
  }

  // ---- one read, and how two overlapping messages lose one

  function CopyOutRun(d: Id, n: nat): seq<Step> { if n == 0 then [] else [CopyOut(d)] + CopyOutRun(d, n - 1) }

  lemma {:induction false} CopyOutCompletes(st: State, d: Id, k: nat)
    requires IsId(st, d) && st.nodes[d].reader.CopyingOut? && IsId(st, st.nodes[d].reader.src)
    requires var r := st.nodes[d].reader;
             k == |r.got| <= r.len <= |st.nodes[r.src].slot.buf| && r.got == st.nodes[r.src].slot.buf[..k]
    ensures var r := st.nodes[d].reader;
            var run := CopyOutRun(d, r.len - k);
            && ValidRun(st, run)
            && Final(st, run) == SetReader(st, d, r.(got := st.nodes[r.src].slot.buf[..r.len]))
    decreases st.nodes[d].reader.len - k
  {
    var r := st.nodes[d].reader;
    if k < r.len {
      var st' := Apply(st, CopyOut(d));
      var buf := st.nodes[r.src].slot.buf;
      assert buf[..k + 1] == buf[..k] + [buf[k]];
      assert st'.nodes[r.src].slot == st.nodes[r.src].slot;
      CopyOutCompletes(st', d, k + 1);
      RunStep(st, CopyOut(d), CopyOutRun(d, r.len - (k + 1)));
    }
  }

  function ReadRun(d: Id, n: nat): seq<Step> { [ReadLength(d)] + (CopyOutRun(d, n) + [Finish(d)]) }

  lemma FinishCompletes(st: State, d: Id)
    requires Enabled(st, Finish(d))
    ensures var r := st.nodes[d].reader;
            && ValidRun(st, [Finish(d)])
            && Final(st, [Finish(d)]) == SetReader(st, d, Done(r.src, r.ticket)).(copies := st.copies + [Copy(d, r.ticket, r.got)])
  {
    assert [Finish(d)][1..] == [];
  }

  lemma CopyAndFinish(st: State, d: Id)
    requires IsId(st, d) && st.nodes[d].reader.CopyingOut? && IsId(st, st.nodes[d].reader.src)
    requires var r := st.nodes[d].reader; r.got == [] && r.len <= |st.nodes[r.src].slot.buf|
    ensures var r := st.nodes[d].reader;
            var run := CopyOutRun(d, r.len) + [Finish(d)];
            && ValidRun(st, run)
            && Final(st, run) == SetReader(st, d, Done(r.src, r.ticket))
                                 .(copies := st.copies + [Copy(d, r.ticket, st.nodes[r.src].slot.buf[..r.len])])
  {
    var n := st.nodes[d].reader.len;
    CopyOutCompletes(st, d, 0);
    FinishCompletes(Final(st, CopyOutRun(d, n)), d);
    RunConcat(st, CopyOutRun(d, n), [Finish(d)]);
  }

  /** An undisturbed read copies the whole message. */
  lemma ReadCompletes(st: State, d: Id, s: Id)
    requires IsId(st, d) && IsId(st, s) && st.nodes[d].reader == Holding(s, st.nodes[s].slot.ticket)
    requires st.nodes[s].slot.buflen <= |st.nodes[s].slot.buf|
    ensures var slot := st.nodes[s].slot;
            var run := ReadRun(d, slot.buflen);
            && ValidRun(st, run)
            && Final(st, run) ==
               SetReader(st, d, Done(s, slot.ticket)).(copies := st.copies + [Copy(d, slot.ticket, slot.buf[..slot.buflen])])
  {
    var slot := st.nodes[s].slot;
    var st1 := Apply(st, ReadLength(d));
    assert st1 == SetReader(st, d, CopyingOut(s, slot.ticket, slot.buflen, []));
    CopyAndFinish(st1, d);
    RunStep(st, ReadLength(d), CopyOutRun(d, slot.buflen) + [Finish(d)]);
  }

  function OverlapRun(d: Id, s: Id, t: Id): seq<Step> {
    [Deliver(d, s)] + ([Await(d)] + ([Deliver(d, t)] + []))
  }

  lemma Pointed(st: State, d: Id, s: Id) returns (st': State)
    requires IsId(st, d) && IsId(st, s) && st.nodes[d].incoming.None? && st.nodes[d].reader.Idle? && Doorbell(d, s) in st.pending
    requires !st.isLink(Message(st.nodes[s].slot))
    ensures Enabled(st, Deliver(d, s)) && st' == Apply(st, Deliver(d, s))
    ensures st' == st.(nodes := st.nodes[d := st.nodes[d].(incoming := Some(s))], pending := st.pending - multiset{Doorbell(d, s)})
  {
    st' := Apply(st, Deliver(d, s));
    assert st.stomped + {} == st.stomped;
  }

  lemma Held(st: State, d: Id, s: Id) returns (st': State)
    requires IsId(st, d) && IsId(st, s) && st.nodes[d].incoming == Some(s) && st.nodes[d].reader.Idle?
    ensures Enabled(st, Await(d)) && st' == Apply(st, Await(d))
    ensures st' == st.(nodes := st.nodes[d := st.nodes[d].(reader := Holding(s, st.nodes[s].slot.ticket))])
  {
    st' := Apply(st, Await(d));
  }

  lemma Overwritten(st: State, d: Id, s: Id, t: Id)
    requires IsId(st, d) && IsId(st, t) && st.nodes[d].incoming == Some(s) && InUse(st.nodes[d].reader)
    requires Doorbell(d, t) in st.pending && !st.isLink(Message(st.nodes[t].slot))
    ensures Apply(st, Deliver(d, t)) ==
            st.(nodes := st.nodes[d := st.nodes[d].(incoming := Some(t))],
                pending := st.pending - multiset{Doorbell(d, t)}, stomped := st.stomped + {s})
  {
  }

  lemma Overlap(st: State, d: Id, s: Id, t: Id)
    requires IsId(st, d) && IsId(st, s) && IsId(st, t) && s != t
    requires st.nodes[d].incoming.None? && st.nodes[d].reader.Idle?
    requires Doorbell(d, s) in st.pending && Doorbell(d, t) in st.pending
    requires !st.isLink(Message(st.nodes[s].slot)) && !st.isLink(Message(st.nodes[t].slot))
    ensures ValidRun(st, OverlapRun(d, s, t))
    ensures Final(st, OverlapRun(d, s, t)) ==
            st.(nodes := st.nodes[d := st.nodes[d].(incoming := Some(t), reader := Holding(s, st.nodes[s].slot.ticket))],
                pending := st.pending - multiset{Doorbell(d, s)} - multiset{Doorbell(d, t)},
                stomped := st.stomped + {s})
  {
    var st1 := Pointed(st, d, s);
    var st2 := Held(st1, d, s);
    Overwritten(st2, d, s, t);
    assert st2.nodes[d := st2.nodes[d].(incoming := Some(t))]
        == st.nodes[d := st.nodes[d].(incoming := Some(t), reader := Holding(s, st.nodes[s].slot.ticket))];
    RunStep(st2, Deliver(d, t), []);
    RunStep(st1, Await(d), [Deliver(d, t)] + []);
    RunStep(st, Deliver(d, s), [Await(d)] + ([Deliver(d, t)] + []));
  }

  function ReleaseRun(d: Id): seq<Step> { [Release(d)] + ([Forget(d)] + []) }

  lemma ReleaseCompletes(st: State, d: Id, t: Id)
    requires IsId(st, d) && IsId(st, t) && InUse(st.nodes[d].reader) && st.nodes[d].incoming == Some(t)
    ensures ValidRun(st, ReleaseRun(d))
    ensures var st' := Final(st, ReleaseRun(d));
            && |st'.nodes| == |st.nodes| && st'.copies == st.copies && st'.accepted == st.accepted
            && st'.maxBuflen == st.maxBuflen && st'.isLink == st.isLink
            && st'.nodes[d].incoming.None? && st'.nodes[d].reader.Idle?
            && forall i | 1 <= i < |st.nodes| ::
                 st'.nodes[i].slot == if i == t then st.nodes[t].slot.(buflen := 0) else st.nodes[i].slot
  {
    var st1 := Apply(st, Release(d));
    RunStep(st1, Forget(d), []);
    RunStep(st, Release(d), [Forget(d)] + []);
  }

  function LossRun(d: Id, s: Id, t: Id, n: nat): seq<Step> { OverlapRun(d, s, t) + (ReadRun(d, n) + ReleaseRun(d)) }

  /** Two ordinary messages wait at one idle receiver and the second is handled between await and release:
      the first message is copied but its slot stays busy, the second is acknowledged without
      having been copied. */
  lemma OverlapLosesMessage(st: State, d: Id, s: Id, t: Id)
    requires IsId(st, d) && IsId(st, s) && IsId(st, t) && s != t
    requires st.nodes[d].incoming.None? && st.nodes[d].reader.Idle?
    requires Doorbell(d, s) in st.pending && Doorbell(d, t) in st.pending
    requires !st.isLink(Message(st.nodes[s].slot)) && !st.isLink(Message(st.nodes[t].slot))
    requires st.nodes[s].slot.buflen <= |st.nodes[s].slot.buf|
    ensures var slot := st.nodes[s].slot;
            var run := LossRun(d, s, t, slot.buflen);
            && ValidRun(st, run)
            && var st' := Final(st, run);
            && |st'.nodes| == |st.nodes| && st'.accepted == st.accepted
            && st'.copies == st.copies + [Copy(d, slot.ticket, slot.buf[..slot.buflen])]
            && st'.nodes[s].slot == slot
            && st'.nodes[t].slot == st.nodes[t].slot.(buflen := 0)
  {
    var n := st.nodes[s].slot.buflen;
    Overlap(st, d, s, t);
    var held := Final(st, OverlapRun(d, s, t));
    ReadCompletes(held, d, s);
    var done := Final(held, ReadRun(d, n));
    ReleaseCompletes(done, d, t);
    RunConcat(held, ReadRun(d, n), ReleaseRun(d));
    RunConcat(st, OverlapRun(d, s, t), ReadRun(d, n) + ReleaseRun(d));
  }

  function TwoSends(d: Id, s: Id, t: Id, a: seq<Byte>, b: seq<Byte>): seq<Step> { SendRun(s, d, a) + SendRun(t, d, b) }

  lemma TwoSendsComplete(st: State, d: Id, s: Id, t: Id, a: seq<Byte>, b: seq<Byte>)
    requires Init(st) && IsId(st, s) && IsId(st, t) && s != t && Sendable(st, d, a) && Sendable(st, d, b)
    ensures ValidRun(st, TwoSends(d, s, t, a, b))
    ensures |a| < |st.nodes[s].slot.buf| && |b| < |Sent(st, s, d, a).nodes[t].slot.buf|
    ensures Final(st, TwoSends(d, s, t, a, b)) == Sent(Sent(st, s, d, a), t, d, b)
  {
    SendCompletes(st, s, d, a);
    SendCompletes(Sent(st, s, d, a), t, d, b);
    RunConcat(st, SendRun(s, d, a), SendRun(t, d, b));
  }

  /** Why the message read need not be the message acknowledged, from start-up: whoever the two
      senders and the receiver are and whatever ordinary messages they send, there is a run in which
      the first is read and never acknowledged and the second acknowledged and never read. */
  lemma OverlapFromStart(st: State, d: Id, s: Id, t: Id, a: seq<Byte>, b: seq<Byte>)
    requires Init(st) && IsId(st, s) && IsId(st, t) && s != t && Sendable(st, d, a) && Sendable(st, d, b)
    requires !st.isLink(a) && !st.isLink(b)
    ensures var run := TwoSends(d, s, t, a, b) + LossRun(d, s, t, |a|);
            && ValidRun(st, run)
            && var end := Final(st, run);
            && |end.nodes| == |st.nodes|
            && end.accepted == [Accepted(s, d, a), Accepted(t, d, b)] && end.copies == [Copy(d, 0, a)]
            && end.nodes[s].slot.buflen == |a| && end.nodes[t].slot.buflen == 0
  {
    TwoSendsComplete(st, d, s, t, a, b);
    var sent := Sent(Sent(st, s, d, a), t, d, b);
    BothRung(st, d, s, t, a, b);
    OverlapLosesMessage(sent, d, s, t);
    RunConcat(st, TwoSends(d, s, t, a, b), LossRun(d, s, t, |a|));
  }

  lemma BothRung(st: State, d: Id, s: Id, t: Id, a: seq<Byte>, b: seq<Byte>)
    requires Init(st) && IsId(st, s) && IsId(st, t) && s != t && Sendable(st, d, a) && Sendable(st, d, b)
    requires |a| < |st.nodes[s].slot.buf| && |b| < |Sent(st, s, d, a).nodes[t].slot.buf|
    ensures var sent := Sent(Sent(st, s, d, a), t, d, b);
            && |sent.nodes| == |st.nodes| && sent.nodes[d].incoming.None? && sent.nodes[d].reader.Idle?
            && Doorbell(d, s) in sent.pending && Doorbell(d, t) in sent.pending
            && sent.accepted == [Accepted(s, d, a), Accepted(t, d, b)] && sent.copies == []
            && sent.nodes[s].slot.buflen == |a| && sent.nodes[s].slot.ticket == 0
            && sent.nodes[s].slot.buf[..|a|] == a
            && Message(sent.nodes[s].slot) == a && Message(sent.nodes[t].slot) == b && sent.isLink == st.isLink
  {
    MessageOfPublished(st.nodes[s].slot, d, a, 0);
    MessageOfPublished(st.nodes[t].slot, d, b, 1);
  }

  lemma MessageOfPublished(slot: Slot, dest: Id, msg: seq<Byte>, ticket: nat)
    requires |msg| < |slot.buf|
    ensures Message(Published(slot, dest, msg, ticket)) == msg
  {
  }

  // ---- between the two stores of a release

  /** The window is real: between the two stores the owner of the freed slot can publish again and
      ring, so that its doorbell and the stale reference to its slot exist together. */
  lemma ResendInWindow(st: State, d: Id, s: Id, msg: seq<Byte>)
    requires IsId(st, d) && st.nodes[d].reader.Releasing? && st.nodes[d].incoming == Some(s) && FreeToSend(st, s, d, msg)
    ensures ValidRun(st, SendRun(s, d, msg))
    ensures var end := Final(st, SendRun(s, d, msg));
            && |end.nodes| == |st.nodes| && Rung(end, d, s)
            && end.nodes[d].incoming == Some(s) && end.nodes[d].reader.Releasing?
            && Enabled(end, Forget(d)) && (Enabled(Apply(end, Forget(d)), Deliver(d, s)) <==> !st.isLink(msg))
  {
    SendCompletes(st, s, d, msg);
    AfterResend(st, d, s, msg);
  }

  lemma AfterResend(st: State, d: Id, s: Id, msg: seq<Byte>)
    requires IsId(st, d) && st.nodes[d].reader.Releasing? && st.nodes[d].incoming == Some(s) && FreeToSend(st, s, d, msg)
    ensures var end := Sent(st, s, d, msg);
            && |end.nodes| == |st.nodes| && Rung(end, d, s)
            && end.nodes[d].incoming == Some(s) && end.nodes[d].reader.Releasing?
            && Enabled(end, Forget(d)) && (Enabled(Apply(end, Forget(d)), Deliver(d, s)) <==> !st.isLink(msg))
  {
    MessageOfPublished(st.nodes[s].slot, d, msg, |st.accepted|);
    var end := Sent(st, s, d, msg);
    assert Apply(end, Forget(d)).nodes[s].slot == end.nodes[s].slot;
  }

  function WindowRun(d: Id, s: Id): seq<Step> { [Deliver(d, s)] + ([Await(d)] + ([Release(d)] + [])) }

  lemma WindowOpens(st: State, d: Id, s: Id)
    requires IsId(st, d) && IsId(st, s) && st.nodes[d].incoming.None? && st.nodes[d].reader.Idle? && Doorbell(d, s) in st.pending
    requires !st.isLink(Message(st.nodes[s].slot))
    ensures ValidRun(st, WindowRun(d, s))
    ensures var end := Final(st, WindowRun(d, s));
            && |end.nodes| == |st.nodes| && end.maxBuflen == st.maxBuflen
            && end.nodes[d].reader.Releasing? && end.nodes[d].incoming == Some(s)
            && end.nodes[s].slot == st.nodes[s].slot.(buflen := 0) && end.nodes[s].sender == st.nodes[s].sender
  {
    var st1 := Pointed(st, d, s);
    var st2 := Held(st1, d, s);
    RunStep(st2, Release(d), []);
    RunStep(st1, Await(d), [Release(d)] + []);
    RunStep(st, Deliver(d, s), [Await(d)] + ([Release(d)] + []));
  }

  /** It can be reached from start-up, whoever sends to whom, provided the first message is ordinary
      mail; the second may be anything. */
  lemma WindowFromStart(st: State, d: Id, s: Id, a: seq<Byte>, b: seq<Byte>)
    requires Init(st) && IsId(st, s) && Sendable(st, d, a) && Sendable(st, d, b) && !st.isLink(a)
    ensures var run := SendRun(s, d, a) + (WindowRun(d, s) + SendRun(s, d, b));
            && ValidRun(st, run)
            && var end := Final(st, run);
            && |end.nodes| == |st.nodes| && Rung(end, d, s)
            && end.nodes[d].incoming == Some(s) && end.nodes[d].reader.Releasing?
  {
    SendCompletes(st, s, d, a);
    var sent := Sent(st, s, d, a);
    MessageOfPublished(st.nodes[s].slot, d, a, |st.accepted|);
    WindowOpens(sent, d, s);
    var open := Final(sent, WindowRun(d, s));
    ResendInWindow(open, d, s, b);
    RunConcat(sent, WindowRun(d, s), SendRun(s, d, b));
    RunConcat(st, SendRun(s, d, a), WindowRun(d, s) + SendRun(s, d, b));
  }
}
