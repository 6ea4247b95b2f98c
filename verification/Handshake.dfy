/** The mailslot/doorbell handshake between driver adapters, as a small-step system.

    Every adapter owns one mailslot.  A sender fills its own slot and rings a doorbell; the
    receiver's interrupt handler either consumes the message itself (a link request) or points
    `incoming` at the sender; a reader waits for `incoming`, copies the bytes out and releases.
    Each store to a mailslot or to `incoming` is a step of its own, and steps of different adapters
    (and of the interrupt handler and the reader of one adapter) interleave freely.  The lock of an
    adapter keeps its interrupt handler out while its reader releases, but senders do not take it:
    they run between the two stores of a release as well.  A doorbell counts as pending until the
    handler's own store, which ends it. */
module Handshake {
  import opened Prelude
  type Id = nat // a mailslot index; slot 0 holds the globals and belongs to no adapter

  /** The shared part of an adapter: one mailslot.  `ticket` is a history variable, the index in
      `State.accepted` of the send that last filled the slot. */
  datatype Slot = Slot(buflen: nat, lastResponder: Id, peerId: Id, buf: seq<Byte>, ticket: nat)

  /** How far an accepted send has got: length written, terminator written, destination
      written and then `copied` bytes of the body. */
  datatype Progress = Sized | Ended | Copying(copied: nat)

  datatype Sender =
    | Quiet
    | Waiting(dest: Id, msg: seq<Byte>)  // polling its own buflen
    | Ready(dest: Id, msg: seq<Byte>)    // saw buflen == 0
    | Publishing(dest: Id, msg: seq<Byte>, progress: Progress)

  datatype Reader =
    | Idle
    | Holding(src: Id, ticket: nat)                             // has the slot pointer
    | CopyingOut(src: Id, ticket: nat, len: nat, got: seq<Byte>) // part way through the copy
    | Done(src: Id, ticket: nat)                                // copied, not yet released
    | Releasing                                                 // buflen cleared, `incoming` not yet

  datatype Node = Node(slot: Slot, sender: Sender, incoming: Option<Id>, reader: Reader)

  datatype Doorbell = Doorbell(dest: Id, src: Id)

  datatype Accepted = Accepted(src: Id, dest: Id, bytes: seq<Byte>)

  datatype Copy = Copy(reader: Id, ticket: nat, bytes: seq<Byte>)

  /** `isLink` tells which messages the interrupt handler finishes itself; it is the same for all
      adapters and never changes.  `accepted`, `copies`, `clears` and `stomped` are history: the
      sends that got past the busy test, the completed copies, the number of times a buflen was set
      back to 0, and the slots whose `incoming` reference the interrupt handler overwrote. */
  datatype State = State(
    maxBuflen: nat,
    isLink: seq<Byte> -> bool,
    nodes: seq<Node>,
    pending: multiset<Doorbell>,
    accepted: seq<Accepted>,
    copies: seq<Copy>,
    clears: nat,
    stomped: set<Id>)

  datatype Step =
    | Begin(s: Id, dest: Id, msg: seq<Byte>)
    | Refuse(s: Id)
    | Test(s: Id)
    | Size(s: Id)
    | Terminate(s: Id)
    | Address(s: Id)
    | CopyIn(s: Id)
    | Ring(s: Id)
    | Deliver(d: Id, s: Id)
    | LinkRequest(d: Id, s: Id, reply: seq<Byte>)
    | Await(d: Id)
    | ReadLength(d: Id)
    | CopyOut(d: Id)
    | Finish(d: Id)
    | Release(d: Id) // the first store of a release, with the lock taken: buflen
    | Forget(d: Id)  // the second, and the lock is dropped: incoming

  predicate IsId(st: State, i: Id) { 1 <= i < |st.nodes| }

  predicate Sendable(st: State, dest: Id, msg: seq<Byte>) {
    IsId(st, dest) && 0 < |msg| < st.maxBuflen
  }

  /** The message in a slot, as the interrupt handler sees it. */
  function Message(slot: Slot): seq<Byte> { if slot.buflen <= |slot.buf| then slot.buf[..slot.buflen] else slot.buf }

  /** Where a reply to the owner of a slot goes: a 32-bit number. */
  function ReplyTo(slot: Slot): Id { slot.peerId % 0x1_0000_0000 }

  /** The reader has a slot in its hands. */
  predicate InUse(reader: Reader) { !reader.Idle? && !reader.Releasing? }

  predicate Enabled(st: State, step: Step) {
    match step
    case Begin(s, dest, msg) => IsId(st, s) && st.nodes[s].sender.Quiet? && Sendable(st, dest, msg)
    case Refuse(s) => IsId(st, s) && st.nodes[s].sender.Waiting? && st.nodes[s].slot.buflen != 0
    case Test(s) => IsId(st, s) && st.nodes[s].sender.Waiting? && st.nodes[s].slot.buflen == 0
    case Size(s) => IsId(st, s) && st.nodes[s].sender.Ready?
    case Terminate(s) =>
      IsId(st, s) && st.nodes[s].sender.Publishing? && st.nodes[s].sender.progress.Sized?
      && |st.nodes[s].sender.msg| < |st.nodes[s].slot.buf|
    case Address(s) => IsId(st, s) && st.nodes[s].sender.Publishing? && st.nodes[s].sender.progress.Ended?
    case CopyIn(s) =>
      IsId(st, s) && st.nodes[s].sender.Publishing? && st.nodes[s].sender.progress.Copying?
      && st.nodes[s].sender.progress.copied < |st.nodes[s].sender.msg|
      && st.nodes[s].sender.progress.copied < |st.nodes[s].slot.buf|
    case Ring(s) =>
      IsId(st, s) && st.nodes[s].sender.Publishing? && st.nodes[s].sender.progress.Copying?
      && st.nodes[s].sender.progress.copied == |st.nodes[s].sender.msg|
    case Deliver(d, s) =>
      IsId(st, d) && IsId(st, s) && Doorbell(d, s) in st.pending && !st.nodes[d].reader.Releasing?
      && !st.isLink(Message(st.nodes[s].slot))
    case LinkRequest(d, s, reply) =>
      IsId(st, d) && IsId(st, s) && Doorbell(d, s) in st.pending && !st.nodes[d].reader.Releasing?
      && st.isLink(Message(st.nodes[s].slot)) && st.nodes[d].sender.Quiet?
    case Await(d) =>
      IsId(st, d) && st.nodes[d].reader.Idle? && st.nodes[d].incoming.Some? && IsId(st, st.nodes[d].incoming.value)
    case ReadLength(d) => IsId(st, d) && st.nodes[d].reader.Holding? && IsId(st, st.nodes[d].reader.src)
    case CopyOut(d) =>
      IsId(st, d) && st.nodes[d].reader.CopyingOut? && IsId(st, st.nodes[d].reader.src)
      && |st.nodes[d].reader.got| < st.nodes[d].reader.len
      && |st.nodes[d].reader.got| < |st.nodes[st.nodes[d].reader.src].slot.buf|
    case Finish(d) =>
      IsId(st, d) && st.nodes[d].reader.CopyingOut? && |st.nodes[d].reader.got| == st.nodes[d].reader.len
    case Release(d) =>
      IsId(st, d) && InUse(st.nodes[d].reader) && st.nodes[d].incoming.Some? && IsId(st, st.nodes[d].incoming.value)
    case Forget(d) => IsId(st, d) && st.nodes[d].reader.Releasing?
  }

  function SetSender(st: State, s: Id, sender: Sender): State
    requires IsId(st, s)
  {
    st.(nodes := st.nodes[s := st.nodes[s].(sender := sender)])
  }

  function SetSlot(st: State, s: Id, slot: Slot): State
    requires IsId(st, s)
  {
    st.(nodes := st.nodes[s := st.nodes[s].(slot := slot)])
  }

  function SetReader(st: State, d: Id, reader: Reader): State
    requires IsId(st, d)
  {
    st.(nodes := st.nodes[d := st.nodes[d].(reader := reader)])
  }

  /** Setting a slot's buflen to 0 tells its owner that the message has been taken. */
  function Clear(st: State, s: Id): State
    requires IsId(st, s)
  {
    SetSlot(st, s, st.nodes[s].slot.(buflen := 0)).(clears := st.clears + 1)
  }

  function Apply(st: State, step: Step): State
    requires Enabled(st, step)
  {
    match step
    case Begin(s, dest, msg) => SetSender(st, s, Waiting(dest, msg))
    case Refuse(s) => SetSender(st, s, Quiet)
    case Test(s) => SetSender(st, s, Ready(st.nodes[s].sender.dest, st.nodes[s].sender.msg))
    case Size(s) =>
      var Ready(dest, msg) := st.nodes[s].sender;
      var slot := st.nodes[s].slot.(buflen := |msg|, ticket := |st.accepted|);
      SetSlot(SetSender(st, s, Publishing(dest, msg, Sized)), s, slot)
        .(accepted := st.accepted + [Accepted(s, dest, msg)])
    case Terminate(s) =>
      var p, slot := st.nodes[s].sender, st.nodes[s].slot;
      SetSlot(SetSender(st, s, p.(progress := Ended)), s, slot.(buf := slot.buf[|p.msg| := 0]))
    case Address(s) =>
      var p := st.nodes[s].sender;
      SetSlot(SetSender(st, s, p.(progress := Copying(0))), s, st.nodes[s].slot.(lastResponder := p.dest))
    case CopyIn(s) =>
      var p, slot := st.nodes[s].sender, st.nodes[s].slot;
      var k := p.progress.copied;
      SetSlot(SetSender(st, s, p.(progress := Copying(k + 1))), s, slot.(buf := slot.buf[k := p.msg[k]]))
    case Ring(s) =>
      SetSender(st, s, Quiet).(pending := st.pending + multiset{Doorbell(st.nodes[s].sender.dest, s)})
    case Deliver(d, s) =>
      var overwritten := match st.nodes[d].incoming case Some(t) => {t} case None => {};
      st.(nodes := st.nodes[d := st.nodes[d].(incoming := Some(s))],
          pending := st.pending - multiset{Doorbell(d, s)},
          stomped := st.stomped + overwritten)
    case LinkRequest(d, s, reply) =>
      var taken := Clear(st, s).(pending := st.pending - multiset{Doorbell(d, s)});
      var dest := ReplyTo(st.nodes[s].slot);
      if Sendable(st, dest, reply) then SetSender(taken, d, Waiting(dest, reply)) else taken
    case Await(d) =>
      var src := st.nodes[d].incoming.value;
      SetReader(st, d, Holding(src, st.nodes[src].slot.ticket))
    case ReadLength(d) =>
      var Holding(src, ticket) := st.nodes[d].reader;
      SetReader(st, d, CopyingOut(src, ticket, st.nodes[src].slot.buflen, []))
    case CopyOut(d) =>
      var r := st.nodes[d].reader;
      SetReader(st, d, r.(got := r.got + [st.nodes[r.src].slot.buf[|r.got|]]))
    case Finish(d) =>
      var r := st.nodes[d].reader;
      SetReader(st, d, Done(r.src, r.ticket)).(copies := st.copies + [Copy(d, r.ticket, r.got)])
    case Release(d) =>
      SetReader(Clear(st, st.nodes[d].incoming.value), d, Releasing)
    case Forget(d) => st.(nodes := st.nodes[d := st.nodes[d].(incoming := None, reader := Idle)])
  }

  /** Nothing has been sent yet; slot contents and peer ids are whatever start-up left there. */
  predicate Init(st: State) {
    && (forall i | 1 <= i < |st.nodes| ::
          && st.nodes[i].slot.buflen == 0
          && |st.nodes[i].slot.buf| == st.maxBuflen
          && st.nodes[i].sender.Quiet?
          && st.nodes[i].incoming.None?
          && st.nodes[i].reader.Idle?)
    && st.pending == multiset{} && st.accepted == [] && st.copies == [] && st.clears == 0 && st.stomped == {}
  }

  predicate ValidRun(st: State, run: seq<Step>)
    decreases |run|
  {
    run == [] || (Enabled(st, run[0]) && ValidRun(Apply(st, run[0]), run[1..]))
  }

  function Final(st: State, run: seq<Step>): State
    requires ValidRun(st, run)
    decreases |run|
  {
    if run == [] then st else Final(Apply(st, run[0]), run[1..])
  }

  lemma {:induction false} RunConcat(st: State, a: seq<Step>, b: seq<Step>)
    requires ValidRun(st, a) && ValidRun(Final(st, a), b)
    ensures ValidRun(st, a + b) && Final(st, a + b) == Final(Final(st, a), b)
    decreases |a|
  {
    if a == [] {
      assert a + b == b;
    } else {
      assert (a + b)[1..] == a[1..] + b;
      RunConcat(Apply(st, a[0]), a[1..], b);
    }
  }
}
