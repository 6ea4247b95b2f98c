/** What every reachable state of the handshake satisfies. */
module HandshakeSafety {
  import opened Prelude
  import opened Handshake

  predicate Busy(st: State, s: Id)
    requires IsId(st, s)
  {
    st.nodes[s].slot.buflen > 0
  }

  /** The slot holds a message that its sender has finished with. */
  predicate AtRest(st: State, s: Id)
    requires IsId(st, s)
  {
    Busy(st, s) && !st.nodes[s].sender.Publishing?
  }

  predicate Rung(st: State, d: Id, s: Id) { st.pending[Doorbell(d, s)] > 0 }

  /** `incoming` of d is a live reference to s; between the two stores of a release it is stale. */
  predicate Points(st: State, d: Id, s: Id)
    requires IsId(st, d)
  {
    st.nodes[d].incoming == Some(s) && !st.nodes[d].reader.Releasing?
  }

  predicate Holds(st: State, d: Id, s: Id)
    requires IsId(st, d)
  {
    InUse(st.nodes[d].reader) && st.nodes[d].reader.src == s
  }

  predicate Uncopied(st: State, ticket: nat) {
    forall c | c in st.copies :: c.ticket != ticket
  }

  predicate SenderOk(st: State, s: Id)
    requires IsId(st, s)
  {
    var slot, sender := st.nodes[s].slot, st.nodes[s].sender;
    && |slot.buf| == st.maxBuflen
    && (!sender.Quiet? ==> Sendable(st, sender.dest, sender.msg))
    && (sender.Ready? ==> slot.buflen == 0)
    && (sender.Publishing? ==>
          && slot.buflen == |sender.msg|
          && slot.ticket < |st.accepted|
          && st.accepted[slot.ticket] == Accepted(s, sender.dest, sender.msg)
          && Uncopied(st, slot.ticket)
          && (!sender.progress.Sized? ==> slot.buf[|sender.msg|] == 0)
          && (sender.progress.Copying? ==>
                && slot.lastResponder == sender.dest
                && sender.progress.copied <= |sender.msg|
                && slot.buf[..sender.progress.copied] == sender.msg[..sender.progress.copied]))
  }

  /** A slot at rest holds exactly the bytes of the send that filled it, terminated, and is in
      exactly one place: a doorbell, an `incoming` pointer, or among the stomped. */
  predicate SlotOk(st: State, s: Id)
    requires IsId(st, s)
  {
    var slot := st.nodes[s].slot;
    && (AtRest(st, s) ==>
          && slot.buflen < st.maxBuflen == |slot.buf|
          && slot.buf[slot.buflen] == 0
          && slot.ticket < |st.accepted|
          && st.accepted[slot.ticket] == Accepted(s, slot.lastResponder, slot.buf[..slot.buflen])
          && IsId(st, slot.lastResponder)
          && (Rung(st, slot.lastResponder, s) || Points(st, slot.lastResponder, s) || s in st.stomped))
    && (s in st.stomped ==> AtRest(st, s))
  }

  predicate PairOk(st: State, d: Id, s: Id)
    requires IsId(st, d) && IsId(st, s)
  {
    var slot, reader := st.nodes[s].slot, st.nodes[d].reader;
    && (Rung(st, d, s) ==>
          && st.pending[Doorbell(d, s)] == 1
          && AtRest(st, s) && slot.lastResponder == d
          && !Points(st, d, s) && s !in st.stomped && !Holds(st, d, s)
          && Uncopied(st, slot.ticket))
    && (Points(st, d, s) ==>
          && AtRest(st, s) && slot.lastResponder == d
          && s !in st.stomped && !st.isLink(Message(slot))
          && ((reader.Done? && reader.src == s) || Uncopied(st, slot.ticket)))
    && (Holds(st, d, s) ==>
          && AtRest(st, s) && slot.lastResponder == d
          && reader.ticket == slot.ticket && !st.isLink(Message(slot))
          && (Points(st, d, s) || s in st.stomped)
          && (reader.Done? || Uncopied(st, slot.ticket))
          && (reader.CopyingOut? ==>
                reader.len == slot.buflen && |reader.got| <= reader.len <= |slot.buf| && reader.got == slot.buf[..|reader.got|]))
  }

  /** The reader's pointers are never dangling: in particular release never follows NULL. */
  predicate ReaderOk(st: State, d: Id)
    requires IsId(st, d)
  {
    var node := st.nodes[d];
    && (node.incoming.Some? ==> IsId(st, node.incoming.value))
    && (!node.reader.Idle? ==> node.incoming.Some?)
    && (InUse(node.reader) ==> IsId(st, node.reader.src))
  }

  predicate CopyOk(st: State, c: Copy) {
    && c.ticket < |st.accepted| && st.accepted[c.ticket].bytes == c.bytes && st.accepted[c.ticket].dest == c.reader
    && !st.isLink(c.bytes)
  }

  predicate CopiesOk(st: State) {
    && (forall c | c in st.copies :: CopyOk(st, c))
    && (forall i, j | 0 <= i < j < |st.copies| :: st.copies[i].ticket != st.copies[j].ticket)
  }

  function BusySet(st: State): set<Id> { set s: Id | 1 <= s < |st.nodes| && st.nodes[s].slot.buflen > 0 }

  predicate Conserved(st: State) { |st.accepted| == st.clears + |BusySet(st)| }

  predicate PendingOk(st: State) {
    forall b | b in st.pending :: IsId(st, b.dest) && IsId(st, b.src)
  }

  predicate LocalInv(st: State, d: Id, s: Id)
    requires IsId(st, d) && IsId(st, s)
  {
    SenderOk(st, s) && SlotOk(st, s) && ReaderOk(st, d) && PairOk(st, d, s)
  }

  predicate Inv(st: State) {
    && (forall d, s | 1 <= d < |st.nodes| && 1 <= s < |st.nodes| :: LocalInv(st, d, s))
    && (forall s | s in st.stomped :: IsId(st, s))
    && PendingOk(st)
    && CopiesOk(st)
    && Conserved(st)
  }

  lemma InitInv(st: State)
    requires Init(st)
    ensures Inv(st)
  {
    assert BusySet(st) == {};
  }

  // ---- senders

  /** A sender that is not publishing may change its mind freely: nobody else looks. */
  lemma SenderInv(st: State, s: Id, sender: Sender)
    requires Inv(st) && IsId(st, s)
    requires !st.nodes[s].sender.Publishing? && !sender.Publishing?
    requires !sender.Quiet? ==> Sendable(st, sender.dest, sender.msg)
    requires sender.Ready? ==> st.nodes[s].slot.buflen == 0
    ensures Inv(SetSender(st, s, sender))
  {
    var st' := SetSender(st, s, sender);
    forall d, i | 1 <= d < |st'.nodes| && 1 <= i < |st'.nodes|
      ensures LocalInv(st', d, i)
    {
      assert LocalInv(st, d, i);
    }
    assert BusySet(st') == BusySet(st);
  }

  lemma SizeLocal(st: State, s: Id, e: Id, i: Id)
    requires Inv(st) && Enabled(st, Size(s)) && IsId(st, e) && IsId(st, i)
    ensures LocalInv(Apply(st, Size(s)), e, i)
  {
    assert LocalInv(st, e, i);
    assert LocalInv(st, e, s);
  }

  lemma SizeInv(st: State, s: Id)
    requires Inv(st) && Enabled(st, Size(s))
    ensures Inv(Apply(st, Size(s)))
  {
    var st' := Apply(st, Size(s));
    forall e, i | 1 <= e < |st'.nodes| && 1 <= i < |st'.nodes| ensures LocalInv(st', e, i) {
      SizeLocal(st, s, e, i);
    }
    assert LocalInv(st, s, s);
    assert BusySet(st') == BusySet(st) + {s};
  }

  /** Filling in the rest of a slot that is being published. */
  lemma FillInv(st: State, s: Id, slot: Slot, progress: Progress)
    requires Inv(st) && IsId(st, s) && st.nodes[s].sender.Publishing?
    requires slot.buflen == st.nodes[s].slot.buflen && slot.ticket == st.nodes[s].slot.ticket
    requires SenderOk(SetSlot(SetSender(st, s, st.nodes[s].sender.(progress := progress)), s, slot), s)
    ensures Inv(SetSlot(SetSender(st, s, st.nodes[s].sender.(progress := progress)), s, slot))
  {
    var st' := SetSlot(SetSender(st, s, st.nodes[s].sender.(progress := progress)), s, slot);
    forall d, i | 1 <= d < |st'.nodes| && 1 <= i < |st'.nodes|
      ensures LocalInv(st', d, i)
    {
      assert LocalInv(st, d, i);
    }
    assert BusySet(st') == BusySet(st);
  }

  lemma RingInv(st: State, s: Id)
    requires Inv(st) && Enabled(st, Ring(s))
    ensures Inv(Apply(st, Ring(s)))
  {
    var st' := Apply(st, Ring(s));
    forall d, i | 1 <= d < |st'.nodes| && 1 <= i < |st'.nodes|
      ensures LocalInv(st', d, i)
    {
      assert LocalInv(st, d, i);
    }
    assert LocalInv(st, s, s);
    assert BusySet(st') == BusySet(st);
  }

  // ---- the interrupt handler

  lemma DeliverLocal(st: State, d: Id, s: Id, e: Id, i: Id)
    requires Inv(st) && Enabled(st, Deliver(d, s)) && IsId(st, e) && IsId(st, i)
    ensures LocalInv(Apply(st, Deliver(d, s)), e, i)
  {
    assert LocalInv(st, d, s);
    assert LocalInv(st, e, i);
    assert LocalInv(st, d, i);
  }

  lemma DeliverInv(st: State, d: Id, s: Id)
    requires Inv(st) && Enabled(st, Deliver(d, s))
    ensures Inv(Apply(st, Deliver(d, s)))
  {
    var st' := Apply(st, Deliver(d, s));
    assert LocalInv(st, d, s);
    forall e, i | 1 <= e < |st'.nodes| && 1 <= i < |st'.nodes| ensures LocalInv(st', e, i) {
      DeliverLocal(st, d, s, e, i);
    }
    assert BusySet(st') == BusySet(st);
  }

  /** The first half of a link request: the slot is cleared and its doorbell is gone. */
  function Taken(st: State, d: Id, s: Id): State
    requires IsId(st, s)
  {
    Clear(st, s).(pending := st.pending - multiset{Doorbell(d, s)})
  }

  lemma TakenInv(st: State, d: Id, s: Id)
    requires Inv(st) && IsId(st, d) && IsId(st, s) && Rung(st, d, s)
    ensures Inv(Taken(st, d, s))
  {
    var st' := Taken(st, d, s);
    assert LocalInv(st, d, s);
    forall e, i | 1 <= e < |st'.nodes| && 1 <= i < |st'.nodes|
      ensures LocalInv(st', e, i)
    {
      assert LocalInv(st, e, i);
      assert LocalInv(st, e, s);
    }
    assert BusySet(st') == BusySet(st) - {s};
  }

  // ---- readers

  lemma ReaderInv(st: State, d: Id, reader: Reader)
    requires Inv(st) && IsId(st, d) && InUse(reader) && !reader.Done? && IsId(st, reader.src)
    requires ReaderOk(SetReader(st, d, reader), d) && PairOk(SetReader(st, d, reader), d, reader.src)
    requires !st.nodes[d].reader.Done? && !st.nodes[d].reader.Releasing?
    ensures Inv(SetReader(st, d, reader))
  {
    var st' := SetReader(st, d, reader);
    forall e, i | 1 <= e < |st'.nodes| && 1 <= i < |st'.nodes|
      ensures LocalInv(st', e, i)
    {
      assert LocalInv(st, e, i);
    }
    assert BusySet(st') == BusySet(st);
  }

  lemma FinishLocal(st: State, d: Id, e: Id, i: Id)
    requires Inv(st) && Enabled(st, Finish(d)) && IsId(st, e) && IsId(st, i)
    ensures LocalInv(Apply(st, Finish(d)), e, i)
  {
    assert LocalInv(st, d, d);
    assert LocalInv(st, d, st.nodes[d].reader.src);
    assert LocalInv(st, e, i);
  }

  lemma FinishInv(st: State, d: Id)
    requires Inv(st) && Enabled(st, Finish(d))
    ensures Inv(Apply(st, Finish(d)))
  {
    var st' := Apply(st, Finish(d));
    assert LocalInv(st, d, d);
    assert LocalInv(st, d, st.nodes[d].reader.src);
    forall e, i | 1 <= e < |st'.nodes| && 1 <= i < |st'.nodes| ensures LocalInv(st', e, i) {
      FinishLocal(st, d, e, i);
    }
    assert BusySet(st') == BusySet(st);
  }

  lemma ReleaseLocal(st: State, d: Id, e: Id, i: Id)
    requires Inv(st) && Enabled(st, Release(d)) && IsId(st, e) && IsId(st, i)
    ensures LocalInv(Apply(st, Release(d)), e, i)
  {
    ReleasePair(st, d, e, i);
  }

  lemma ReleasePair(st: State, d: Id, e: Id, i: Id)
    requires Enabled(st, Release(d)) && IsId(st, e) && IsId(st, i)
    requires LocalInv(st, d, st.nodes[d].incoming.value) && LocalInv(st, e, i) && LocalInv(st, e, st.nodes[d].incoming.value)
    ensures LocalInv(Apply(st, Release(d)), e, i)
  {
  }

  lemma ReleaseInv(st: State, d: Id)
    requires Inv(st) && Enabled(st, Release(d))
    ensures Inv(Apply(st, Release(d)))
  {
    var st' := Apply(st, Release(d));
    var s := st.nodes[d].incoming.value;
    assert LocalInv(st, d, s);
    forall e, i | 1 <= e < |st'.nodes| && 1 <= i < |st'.nodes| ensures LocalInv(st', e, i) {
      ReleaseLocal(st, d, e, i);
    }
    assert BusySet(st') == BusySet(st) - {s};
  }

  lemma ForgetInv(st: State, d: Id)
    requires Inv(st) && Enabled(st, Forget(d))
    ensures Inv(Apply(st, Forget(d)))
  {
    var st' := Apply(st, Forget(d));
    forall e, i | 1 <= e < |st'.nodes| && 1 <= i < |st'.nodes| ensures LocalInv(st', e, i) {
      assert LocalInv(st, e, i);
    }
    assert BusySet(st') == BusySet(st);
  }

  // ---- all steps, all runs

  lemma SendStepInv(st: State, step: Step)
    requires Inv(st) && Enabled(st, step)
    requires step.Terminate? || step.Address? || step.CopyIn?
    ensures Inv(Apply(st, step))
  {
    var s := step.s;
    assert LocalInv(st, s, s);
    var st' := Apply(st, step);
    assert st' == SetSlot(SetSender(st, s, st.nodes[s].sender.(progress := st'.nodes[s].sender.progress)), s, st'.nodes[s].slot);
    FillInv(st, s, st'.nodes[s].slot, st'.nodes[s].sender.progress);
  }

  lemma LinkRequestInv(st: State, d: Id, s: Id, reply: seq<Byte>)
    requires Inv(st) && Enabled(st, LinkRequest(d, s, reply))
    ensures Inv(Apply(st, LinkRequest(d, s, reply)))
  {
    TakenInv(st, d, s);
    var dest := ReplyTo(st.nodes[s].slot);
    if Sendable(st, dest, reply) {
      SenderInv(Taken(st, d, s), d, Waiting(dest, reply));
    }
  }

  lemma ReadStepInv(st: State, step: Step)
    requires Inv(st) && Enabled(st, step)
    requires step.Await? || step.ReadLength? || step.CopyOut?
    ensures Inv(Apply(st, step))
  {
    var d := step.d;
    var reader := Apply(st, step).nodes[d].reader;
    assert LocalInv(st, d, reader.src);
    ReaderInv(st, d, reader);
  }

  lemma StepInv(st: State, step: Step)
    requires Inv(st) && Enabled(st, step)
    ensures Inv(Apply(st, step))
  {
    match step
    case Begin(s, dest, msg) => SenderInv(st, s, Waiting(dest, msg));
    case Refuse(s) => SenderInv(st, s, Quiet);
    case Test(s) =>
      assert LocalInv(st, s, s);
      SenderInv(st, s, Ready(st.nodes[s].sender.dest, st.nodes[s].sender.msg));
    case Size(s) => SizeInv(st, s);
    case Terminate(s) => SendStepInv(st, step);
    case Address(s) => SendStepInv(st, step);
    case CopyIn(s) => SendStepInv(st, step);
    case Ring(s) => RingInv(st, s);
    case Deliver(d, s) => DeliverInv(st, d, s);
    case LinkRequest(d, s, reply) => LinkRequestInv(st, d, s, reply);
    case Await(d) => ReadStepInv(st, step);
    case ReadLength(d) => ReadStepInv(st, step);
    case CopyOut(d) => ReadStepInv(st, step);
    case Finish(d) => FinishInv(st, d);
    case Release(d) => ReleaseInv(st, d);
    case Forget(d) => ForgetInv(st, d);
  }

  lemma {:induction false} RunInv(st: State, run: seq<Step>)
    requires Inv(st) && ValidRun(st, run)
    ensures Inv(Final(st, run))
    decreases |run|
  {
    if run != [] {
      StepInv(st, run[0]);
      RunInv(Apply(st, run[0]), run[1..]);
    }
  }
}
