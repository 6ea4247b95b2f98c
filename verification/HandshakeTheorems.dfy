/** What the handshake guarantees to its users, over every run from start-up. */
module HandshakeTheorems {
  import opened Prelude
  import opened Handshake
  import opened HandshakeSafety

  ghost predicate Reachable(st: State) {
    exists init, run :: Init(init) && ValidRun(init, run) && Final(init, run) == st
  }

  lemma ReachableInv(st: State)
    requires Reachable(st)
    ensures Inv(st)
  {
    var init, run :| Init(init) && ValidRun(init, run) && Final(init, run) == st;
    InitInv(init);
    RunInv(init, run);
  }

  /** At most one doorbell from a sender is outstanding over all destinations; a doorbell or a
      live reference at a receiver means the sender's slot is busy with a message for that
      receiver; and no sender has a doorbell and a live reference at once, nor two of either.
      A reference is live except between the two stores of a release. */
  lemma DoorbellsAndPointers(st: State, d: Id, e: Id, s: Id)
    requires Reachable(st) && IsId(st, d) && IsId(st, e) && IsId(st, s)
    ensures st.pending[Doorbell(d, s)] <= 1
    ensures Rung(st, d, s) && Rung(st, e, s) ==> d == e
    ensures Points(st, d, s) && Points(st, e, s) ==> d == e
    ensures !(Rung(st, d, s) && Points(st, e, s))
    ensures Rung(st, d, s) || Points(st, d, s) ==> Busy(st, s) && st.nodes[s].slot.lastResponder == d
  {
    ReachableInv(st);
    assert LocalInv(st, d, s);
    assert LocalInv(st, e, s);
  }

  /** Between the two stores `incoming` is stale: it still names a slot whose owner may be sending
      again.  Nobody follows it: no step but the second store reads or changes it. */
  lemma StaleReference(st: State, d: Id, step: Step)
    requires Reachable(st) && IsId(st, d) && st.nodes[d].reader.Releasing? && Enabled(st, step)
    ensures Enabled(st, Forget(d)) && st.nodes[d].incoming.Some?
    ensures step != Await(d) && step != Release(d) && !(step.Deliver? && step.d == d) && !(step.LinkRequest? && step.d == d)
    ensures var node' := Apply(st, step).nodes[d];
            if step == Forget(d) then node'.incoming.None? && node'.reader.Idle?
            else node'.incoming == st.nodes[d].incoming && node'.reader.Releasing?
  {
    ReachableInv(st);
    PointersGood(st, d);
    StaleFrame(st, d, step);
  }

  lemma StaleFrame(st: State, d: Id, step: Step)
    requires IsId(st, d) && st.nodes[d].reader.Releasing? && Enabled(st, step)
    ensures var node' := Apply(st, step).nodes[d];
            if step == Forget(d) then node'.incoming.None? && node'.reader.Idle?
            else node'.incoming == st.nodes[d].incoming && node'.reader.Releasing?
  {
    if step != Forget(d) {
      BystanderStep(st, step, d);
    }
  }

  /** The steps that can change what the receiving side of d is doing. */
  predicate Receives(step: Step, d: Id) {
    || (step.Deliver? && step.d == d) || step == Await(d) || step == ReadLength(d) || step == CopyOut(d)
    || step == Finish(d) || step == Release(d) || step == Forget(d)
  }

  lemma BystanderStep(st: State, step: Step, d: Id)
    requires IsId(st, d) && Enabled(st, step) && !Receives(step, d)
    ensures var st' := Apply(st, step);
            && |st'.nodes| == |st.nodes|
            && st'.nodes[d].incoming == st.nodes[d].incoming && st'.nodes[d].reader == st.nodes[d].reader
  {
    if step.LinkRequest? || step.Release? {
      ClearingStep(st, step, d);
    } else if !Sends(step) {
      OtherReceiverStep(st, step, d);
    }
  }

  lemma ClearingStep(st: State, step: Step, d: Id)
    requires IsId(st, d) && Enabled(st, step) && (step.LinkRequest? || (step.Release? && step.d != d))
    ensures var st' := Apply(st, step);
            && |st'.nodes| == |st.nodes|
            && st'.nodes[d].incoming == st.nodes[d].incoming && st'.nodes[d].reader == st.nodes[d].reader
  {
  }

  predicate Sends(step: Step) {
    || step.Begin? || step.Refuse? || step.Test? || step.Size? || step.Terminate? || step.Address? || step.CopyIn? || step.Ring?
  }

  lemma OtherReceiverStep(st: State, step: Step, d: Id)
    requires IsId(st, d) && Enabled(st, step) && !Receives(step, d)
    requires step.Deliver? || step.Await? || step.ReadLength? || step.CopyOut? || step.Finish? || step.Forget?
    ensures var st' := Apply(st, step);
            && |st'.nodes| == |st.nodes|
            && st'.nodes[d].incoming == st.nodes[d].incoming && st'.nodes[d].reader == st.nodes[d].reader
  {
  }

  /** Every completed copy holds exactly the bytes of one accepted send, which was addressed to
      that reader and is not a link request, and no send is copied twice. */
  lemma CopiedBytes(st: State, i: nat)
    requires Reachable(st) && i < |st.copies|
    ensures st.copies[i].ticket < |st.accepted|
    ensures st.accepted[st.copies[i].ticket].dest == st.copies[i].reader
    ensures st.accepted[st.copies[i].ticket].bytes == st.copies[i].bytes && !st.isLink(st.copies[i].bytes)
    ensures forall j | 0 <= j < |st.copies| && j != i :: st.copies[j].ticket != st.copies[i].ticket
  {
    ReachableInv(st);
    assert CopyOk(st, st.copies[i]);
  }

  /** Half way through a copy too: whatever the interrupt handler has done since, the part copied
      so far is a prefix of the one message, and the rest of it is still in the slot. */
  lemma CopyInProgress(st: State, d: Id)
    requires Reachable(st) && IsId(st, d) && st.nodes[d].reader.CopyingOut?
    ensures var r := st.nodes[d].reader;
            && r.ticket < |st.accepted| && IsId(st, r.src)
            && st.accepted[r.ticket].src == r.src && st.accepted[r.ticket].dest == d
            && r.len == |st.accepted[r.ticket].bytes| <= |st.nodes[r.src].slot.buf|
            && r.got <= st.accepted[r.ticket].bytes
            && st.nodes[r.src].slot.buf[..r.len] == st.accepted[r.ticket].bytes
  {
    ReachableInv(st);
    assert LocalInv(st, d, d);
    assert LocalInv(st, d, st.nodes[d].reader.src);
  }

  /** A reader never follows a bad pointer: its release always finds a slot to clear, and each
      copied byte lies inside the sender's buffer. */
  lemma NoWildReads(st: State, d: Id)
    requires Reachable(st) && IsId(st, d)
    ensures match st.nodes[d].reader
            case Idle => st.nodes[d].incoming.Some? ==> Enabled(st, Await(d))
            case Holding(_, _) => Enabled(st, ReadLength(d)) && Enabled(st, Release(d))
            case CopyingOut(_, _, _, _) => (Enabled(st, CopyOut(d)) || Enabled(st, Finish(d))) && Enabled(st, Release(d))
            case Done(_, _) => Enabled(st, Release(d))
            case Releasing => Enabled(st, Forget(d))
  {
    ReachableInv(st);
    assert LocalInv(st, d, d);
    if st.nodes[d].reader.CopyingOut? {
      assert LocalInv(st, d, st.nodes[d].reader.src);
    }
    ReaderReady(st, d);
  }

  lemma ReaderReady(st: State, d: Id)
    requires IsId(st, d) && LocalInv(st, d, d)
    requires st.nodes[d].reader.CopyingOut? && IsId(st, st.nodes[d].reader.src) ==> LocalInv(st, d, st.nodes[d].reader.src)
    ensures match st.nodes[d].reader
            case Idle => st.nodes[d].incoming.Some? ==> Enabled(st, Await(d))
            case Holding(_, _) => Enabled(st, ReadLength(d)) && Enabled(st, Release(d))
            case CopyingOut(_, _, _, _) => (Enabled(st, CopyOut(d)) || Enabled(st, Finish(d))) && Enabled(st, Release(d))
            case Done(_, _) => Enabled(st, Release(d))
            case Releasing => Enabled(st, Forget(d))
  {
    PointersGood(st, d);
    if st.nodes[d].reader.CopyingOut? {
      CopyStaysInside(st, d);
    }
  }

  lemma PointersGood(st: State, d: Id)
    requires IsId(st, d) && LocalInv(st, d, d)
    ensures st.nodes[d].incoming.Some? ==> IsId(st, st.nodes[d].incoming.value)
    ensures !st.nodes[d].reader.Idle? ==> st.nodes[d].incoming.Some?
    ensures InUse(st.nodes[d].reader) ==> IsId(st, st.nodes[d].reader.src)
  {
  }

  lemma CopyStaysInside(st: State, d: Id)
    requires IsId(st, d) && st.nodes[d].reader.CopyingOut? && IsId(st, st.nodes[d].reader.src)
    requires LocalInv(st, d, st.nodes[d].reader.src)
    ensures var r := st.nodes[d].reader; |r.got| <= r.len <= |st.nodes[r.src].slot.buf|
  {
  }

  /** Nor does a sender write outside its own buffer. */
  lemma NoWildWrites(st: State, s: Id)
    requires Reachable(st) && IsId(st, s) && st.nodes[s].sender.Publishing?
    ensures match st.nodes[s].sender.progress
            case Sized => Enabled(st, Terminate(s))
            case Ended => Enabled(st, Address(s))
            case Copying(k) => if k == |st.nodes[s].sender.msg| then Enabled(st, Ring(s)) else Enabled(st, CopyIn(s))
  {
    ReachableInv(st);
    assert LocalInv(st, s, s);
  }

  function Count(b: bool): nat { if b then 1 else 0 }

  /** A message nobody will ever take: finished by its sender, not announced, not referred to. */
  predicate Stomped(st: State, s: Id)
    requires IsId(st, s)
  {
    AtRest(st, s) && forall e | 1 <= e < |st.nodes| :: !Rung(st, e, s) && !Points(st, e, s)
  }

  lemma StompedIsRecorded(st: State, s: Id)
    requires Inv(st) && IsId(st, s)
    ensures s in st.stomped <==> Stomped(st, s)
  {
    assert LocalInv(st, s, s);
    forall e | 1 <= e < |st.nodes| ensures s in st.stomped ==> !Rung(st, e, s) && !Points(st, e, s) {
      assert LocalInv(st, e, s);
    }
  }

  /** Accepted sends are the cleared ones plus the busy slots, and a busy slot is in exactly one
      of four conditions. */
  lemma Conservation(st: State, s: Id)
    requires Reachable(st) && IsId(st, s)
    ensures |st.accepted| == st.clears + |BusySet(st)|
    ensures s in BusySet(st) ==>
              Count(st.nodes[s].sender.Publishing?)
              + Count(exists e | 1 <= e < |st.nodes| :: Rung(st, e, s))
              + Count(exists e | 1 <= e < |st.nodes| :: Points(st, e, s))
              + Count(Stomped(st, s)) == 1
    ensures s !in BusySet(st) ==>
              && !st.nodes[s].sender.Publishing? && !Stomped(st, s)
              && forall e | 1 <= e < |st.nodes| :: !Rung(st, e, s) && !Points(st, e, s)
  {
    ReachableInv(st);
    var d := st.nodes[s].slot.lastResponder;
    forall e | 1 <= e < |st.nodes|
      ensures Rung(st, e, s) || Points(st, e, s) ==> AtRest(st, s) && e == d
      ensures !(Rung(st, e, s) && Points(st, e, s))
    {
      assert LocalInv(st, e, s);
    }
    assert LocalInv(st, s, s);
  }

  // ---- stomped slots

  lemma RecordedStep(st: State, step: Step, s: Id)
    requires Enabled(st, step) && s !in st.stomped && s in Apply(st, step).stomped
    ensures step.Deliver? && st.nodes[step.d].incoming == Some(s)
  {
  }

  lemma {:induction false} RecordedAt(st: State, run: seq<Step>, s: Id) returns (k: nat)
    requires ValidRun(st, run) && s !in st.stomped && s in Final(st, run).stomped
    ensures k < |run| && run[k].Deliver? && ValidRun(st, run[..k]) && Enabled(Final(st, run[..k]), run[k])
    ensures IsId(Final(st, run[..k]), run[k].d) && Final(st, run[..k]).nodes[run[k].d].incoming == Some(s)
    decreases |run|
  {
    var st' := Apply(st, run[0]);
    if s in st'.stomped {
      RecordedStep(st, run[0], s);
      k := 0;
    } else {
      k := RecordedAt(st', run[1..], s);
      assert run[..k + 1][1..] == run[1..][..k];
      k := k + 1;
    }
  }

  /** A slot becomes stomped only when an interrupt overwrites the live reference to it with
      another one: any run after which it is newly stomped has a step that did so. */
  lemma StompedByOverwriteOnly(st: State, run: seq<Step>, s: Id) returns (k: nat)
    requires Inv(st) && ValidRun(st, run) && IsId(st, s) && IsId(Final(st, run), s)
    requires !Stomped(st, s) && Stomped(Final(st, run), s)
    ensures k < |run| && run[k].Deliver? && run[k].s != s && ValidRun(st, run[..k])
    ensures IsId(Final(st, run[..k]), run[k].d) && Points(Final(st, run[..k]), run[k].d, s)
  {
    RunInv(st, run);
    StompedIsRecorded(st, s);
    StompedIsRecorded(Final(st, run), s);
    k := RecordedAt(st, run, s);
    RunInv(st, run[..k]);
    assert LocalInv(Final(st, run[..k]), run[k].d, run[k].s);
  }

  /** Conversely, every delivery that finds `incoming` occupied stomps the slot it names. */
  lemma OverwriteStomps(st: State, d: Id, s: Id)
    requires Inv(st) && Enabled(st, Deliver(d, s)) && st.nodes[d].incoming.Some?
    ensures IsId(st, st.nodes[d].incoming.value)
    ensures Stomped(Apply(st, Deliver(d, s)), st.nodes[d].incoming.value)
  {
    assert LocalInv(st, d, d);
    StepInv(st, Deliver(d, s));
    StompedIsRecorded(Apply(st, Deliver(d, s)), st.nodes[d].incoming.value);
  }

  /** Some delivery of the run finds `incoming` occupied. */
  predicate Overwrites(st: State, run: seq<Step>)
    requires ValidRun(st, run)
    decreases |run|
  {
    run != [] && ((run[0].Deliver? && st.nodes[run[0].d].incoming.Some?) || Overwrites(Apply(st, run[0]), run[1..]))
  }

  predicate AnyStomped(st: State) { exists s: Id | 1 <= s < |st.nodes| :: Stomped(st, s) }

  lemma AnyRecorded(st: State)
    requires Inv(st)
    ensures AnyStomped(st) <==> st.stomped != {}
  {
    forall s: Id | 1 <= s < |st.nodes| ensures s in st.stomped <==> Stomped(st, s) {
      StompedIsRecorded(st, s);
    }
    if st.stomped != {} {
      var s :| s in st.stomped;
      assert IsId(st, s) && Stomped(st, s);
    }
  }

  lemma RecordingStep(st: State, step: Step)
    requires Enabled(st, step)
    ensures Apply(st, step).stomped != {} <==> st.stomped != {} || (step.Deliver? && st.nodes[step.d].incoming.Some?)
  {
    if step.Deliver? && st.nodes[step.d].incoming.Some? {
      assert st.nodes[step.d].incoming.value in Apply(st, step).stomped;
    }
  }

  lemma {:induction false} RecordedIffOverwrites(st: State, run: seq<Step>)
    requires ValidRun(st, run)
    ensures Final(st, run).stomped != {} <==> st.stomped != {} || Overwrites(st, run)
    decreases |run|
  {
    if run != [] {
      RecordingStep(st, run[0]);
      RecordedIffOverwrites(Apply(st, run[0]), run[1..]);
    }
  }

  /** From start-up: a run leaves a stomped slot if and only if some delivery found `incoming`
      occupied. */
  lemma StompedIffOverwritten(st: State, run: seq<Step>)
    requires Init(st) && ValidRun(st, run)
    ensures AnyStomped(Final(st, run)) <==> Overwrites(st, run)
  {
    InitInv(st);
    RunInv(st, run);
    AnyRecorded(Final(st, run));
    RecordedIffOverwrites(st, run);
  }

  /** A stomped slot stays as it is for ever: its owner's later sends are refused and change
      nothing, and no other adapter touches it. */
  lemma StompedForEver(st: State, run: seq<Step>, s: Id)
    requires Inv(st) && ValidRun(st, run) && IsId(st, s) && Stomped(st, s)
    ensures |Final(st, run).nodes| == |st.nodes| && Stomped(Final(st, run), s)
    ensures Final(st, run).nodes[s].slot == st.nodes[s].slot
    ensures st.accepted <= Final(st, run).accepted
    ensures forall i | |st.accepted| <= i < |Final(st, run).accepted| :: Final(st, run).accepted[i].src != s
  {
    StompedIsRecorded(st, s);
    RecordedForEver(st, run, s);
    RunInv(st, run);
    StompedIsRecorded(Final(st, run), s);
  }

  lemma {:induction false} RecordedForEver(st: State, run: seq<Step>, s: Id)
    requires Inv(st) && ValidRun(st, run) && IsId(st, s) && s in st.stomped
    ensures Untouched(st, Final(st, run), s)
    decreases |run|
  {
    if run != [] {
      assert LocalInv(st, s, s);
      StompedUntouched(st, run[0], s);
      StepInv(st, run[0]);
      RecordedForEver(Apply(st, run[0]), run[1..], s);
    }
  }

  /** What a step may do around a stomped slot: nothing to it, no new send from it. */
  predicate Untouched(st: State, st': State, s: Id)
    requires IsId(st, s)
  {
    && |st'.nodes| == |st.nodes|
    && s in st'.stomped && st'.nodes[s].slot == st.nodes[s].slot
    && st.accepted <= st'.accepted
    && forall i | |st.accepted| <= i < |st'.accepted| :: st'.accepted[i].src != s
  }

  lemma StompedUntouched(st: State, step: Step, s: Id)
    requires Enabled(st, step) && IsId(st, s) && s in st.stomped && LocalInv(st, s, s)
    requires step.LinkRequest? || step.Release? ==> LocalInv(st, step.d, s)
    ensures Untouched(st, Apply(st, step), s)
  {
    if step.LinkRequest? {
      StompedByLink(st, step, s);
    } else if step.Size? || step.Terminate? || step.Address? || step.CopyIn? {
      StompedBySender(st, step, s);
    }
  }

  lemma StompedByLink(st: State, step: Step, s: Id)
    requires step.LinkRequest? && Enabled(st, step) && IsId(st, s) && s in st.stomped && LocalInv(st, step.d, s)
    ensures Untouched(st, Apply(st, step), s)
  {
  }

  lemma StompedBySender(st: State, step: Step, s: Id)
    requires step.Size? || step.Terminate? || step.Address? || step.CopyIn?
    requires Enabled(st, step) && IsId(st, s) && s in st.stomped && LocalInv(st, s, s)
    ensures Untouched(st, Apply(st, step), s)
  {
    assert AtRest(st, s);
  }

  // ---- is the message read the message acknowledged?

  /** The first store of a release frees the slot that was read exactly when `incoming` still
      names it, which the reader could test under its lock; otherwise it frees another busy slot
      whose message nobody has copied, and the slot that was read stays as it is, stomped. */
  lemma AcknowledgedIffStillIncoming(st: State, d: Id)
    requires Reachable(st) && IsId(st, d) && st.nodes[d].reader.Done?
    ensures var s := st.nodes[d].reader.src;
            && Enabled(st, Release(d)) && IsId(st, s)
            && (Apply(st, Release(d)).nodes[s].slot.buflen == 0 <==> st.nodes[d].incoming == Some(s))
            && var t := st.nodes[d].incoming.value;
            && Apply(st, Release(d)).nodes[t].slot.buflen == 0
            && (t != s ==>
                  && Busy(st, t) && Uncopied(st, st.nodes[t].slot.ticket)
                  && Apply(st, Release(d)).nodes[s].slot == st.nodes[s].slot && Stomped(st, s))
  {
    ReachableInv(st);
    assert LocalInv(st, d, d);
    assert LocalInv(st, d, st.nodes[d].reader.src);
    assert LocalInv(st, d, st.nodes[d].incoming.value);
    StompedIsRecorded(st, st.nodes[d].reader.src);
  }

  predicate Interrupted(run: seq<Step>, d: Id) { exists i | 0 <= i < |run| :: run[i].Deliver? && run[i].d == d }

  lemma InterruptedHead(run: seq<Step>, d: Id)
    requires run != []
    ensures Interrupted(run, d) <==> (run[0].Deliver? && run[0].d == d) || Interrupted(run[1..], d)
  {
    if Interrupted(run[1..], d) {
      var i :| 0 <= i < |run| - 1 && run[1..][i].Deliver? && run[1..][i].d == d;
      assert run[i + 1].Deliver? && run[i + 1].d == d;
    }
    if Interrupted(run, d) {
      var i :| 0 <= i < |run| && run[i].Deliver? && run[i].d == d;
      if i > 0 {
        assert run[1..][i - 1] == run[i];
      }
    }
  }

  /** One step while the reader of d holds s: the reference is lost exactly by a delivery to d,
      and no delivery brings it back. */
  lemma HeldStep(st: State, step: Step, d: Id, s: Id)
    requires Inv(st) && Enabled(st, step) && IsId(st, d) && IsId(st, s) && Holds(st, d, s) && step != Release(d)
    ensures var st' := Apply(st, step);
            && IsId(st', d) && IsId(st', s) && Holds(st', d, s)
            && (Points(st', d, s) <==> Points(st, d, s) && !(step.Deliver? && step.d == d))
  {
    assert LocalInv(st, d, s);
    if Receives(step, d) {
      HeldFrame(st, step, d, s);
    } else {
      BystanderStep(st, step, d);
    }
  }

  lemma HeldFrame(st: State, step: Step, d: Id, s: Id)
    requires Receives(step, d) && Enabled(st, step) && IsId(st, d) && IsId(st, s) && Holds(st, d, s) && step != Release(d)
    requires LocalInv(st, d, s)
    ensures var st' := Apply(st, step);
            && IsId(st', d) && IsId(st', s) && Holds(st', d, s)
            && (Points(st', d, s) <==> Points(st, d, s) && !(step.Deliver? && step.d == d))
  {
  }

  lemma {:induction false} HeldOverRun(st: State, run: seq<Step>, d: Id, s: Id)
    requires Inv(st) && ValidRun(st, run) && IsId(st, d) && IsId(st, s) && Holds(st, d, s) && Release(d) !in run
    ensures var end := Final(st, run);
            && Inv(end) && IsId(end, d) && IsId(end, s) && Holds(end, d, s)
            && (Points(end, d, s) <==> Points(st, d, s) && !Interrupted(run, d))
    decreases |run|
  {
    if run != [] {
      assert run[0] in run;
      HeldStep(st, run[0], d, s);
      StepInv(st, run[0]);
      InterruptedHead(run, d);
      HeldOverRun(Apply(st, run[0]), run[1..], d, s);
    }
  }

  lemma {:induction false} RunSplit(st: State, a: seq<Step>, b: seq<Step>)
    requires ValidRun(st, a + b)
    ensures ValidRun(st, a) && ValidRun(Final(st, a), b) && Final(st, a + b) == Final(Final(st, a), b)
    decreases |a|
  {
    if a == [] {
      assert a + b == b;
    } else {
      assert (a + b)[1..] == a[1..] + b;
      RunSplit(Apply(st, a[0]), a[1..], b);
    }
  }

  /** Over one whole read, from the moment the reader takes the reference to its release and
      whatever else happens in between: the slot read is the slot freed exactly when no ordinary
      message was delivered to this adapter in the meantime. */
  lemma FreedIffUninterrupted(st: State, during: seq<Step>, d: Id)
    requires Reachable(st) && Enabled(st, Await(d)) && Release(d) !in during
    requires ValidRun(Apply(st, Await(d)), during + [Release(d)])
    ensures var s := st.nodes[d].incoming.value;
            var end := Final(Apply(st, Await(d)), during + [Release(d)]);
            && IsId(end, s)
            && (end.nodes[s].slot.buflen == 0 <==> !Interrupted(during, d))
  {
    ReachableInv(st);
    var s, st1 := st.nodes[d].incoming.value, Apply(st, Await(d));
    StepInv(st, Await(d));
    RunSplit(st1, during, [Release(d)]);
    HeldOverRun(st1, during, d, s);
    OneStep(Final(st1, during), Release(d));
    ReleaseFrees(Final(st1, during), d, s);
  }

  lemma OneStep(st: State, step: Step)
    requires ValidRun(st, [step])
    ensures Enabled(st, step) && Final(st, [step]) == Apply(st, step)
  {
    assert [step][1..] == [];
  }

  lemma ReleaseFrees(st: State, d: Id, s: Id)
    requires Inv(st) && Enabled(st, Release(d)) && IsId(st, s) && Holds(st, d, s)
    ensures Apply(st, Release(d)).nodes[s].slot.buflen == 0 <==> Points(st, d, s)
  {
    assert LocalInv(st, d, s);
  }
}
