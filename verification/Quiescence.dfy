/** Deliveries run out: without new requests the channels of every peer empty themselves. */
module Quiescence {
  import opened Prelude
  import opened Requests
  import opened RequestFacts
  import opened RequestTags
  import opened ControlPlane
  import Convergence

  /** How many deliveries the messages of a channel can still cause. */
  function Weight(q: seq<string>): nat { if q == [] then 0 else Weight(q[..|q| - 1]) + Rank(q[|q| - 1]) + 1 }

  function Backlog(p: Peer): nat { Weight(p.up) + Weight(p.down) }

  lemma WeightSnoc(q: seq<string>, text: string)
    ensures Weight(q + [text]) == Weight(q) + Rank(text) + 1
  {
    assert (q + [text])[..|q|] == q;
  }

  lemma WeightPush(q: seq<string>, reply: Option<string>, rank: nat)
    requires Lowers(reply, rank)
    ensures Weight(q + Replies(reply)) <= Weight(q) + rank
  {
    if reply.Some? {
      WeightSnoc(q, reply.value);
    } else {
      assert q + [] == q;
    }
  }

  lemma {:induction false} WeightPop(q: seq<string>)
    requires q != []
    ensures Weight(q) == Rank(q[0]) + 1 + Weight(q[1..])
  {
    var init, last := q[..|q| - 1], q[|q| - 1];
    if |q| > 1 {
      WeightPop(init);
      assert q[1..] == init[1..] + [last];
      WeightSnoc(init[1..], last);
    } else {
      assert init == [] && q[1..] == [];
    }
  }

  predicate TagsEverywhere(st: State) { TagInv(st.server) && forall c | c in st.peers :: TagInv(st.peers[c].proc) }

  lemma StepTags(st: State, step: Step)
    requires TagsEverywhere(st) && Enabled(st, step)
    ensures TagsEverywhere(Apply(st, step))
  {
    match step
    case ToServer(c) => HandleTags(st.server, st.peers[c].proxy, st.peers[c].up[0]);
    case ToClient(c) => HandleTags(st.peers[c].proc, st.peers[c].resp, st.peers[c].down[0]);
    case _ =>
  }

  predicate Delivery(step: Step) { step.ToServer? || step.ToClient? }

  /** One delivery uses up more than its reply puts back, and touches one peer's channels only. */
  lemma DeliveryDrains(st: State, step: Step)
    requires TagsEverywhere(st) && Enabled(st, step) && Delivery(step)
    ensures var peers' := Apply(st, step).peers;
            && Backlog(peers'[step.c]) < Backlog(st.peers[step.c])
            && peers' == st.peers[step.c := peers'[step.c]]
  {
    var p := st.peers[step.c];
    if step.ToServer? {
      var text := p.up[0];
      ReplyRanksLower(st.server, p.proxy, text);
      WeightPop(p.up);
      WeightPush(p.down, ServerOutcome(st.server, p).reply, Rank(text));
    } else {
      var text := p.down[0];
      ReplyRanksLower(p.proc, p.resp, text);
      WeightPop(p.down);
      WeightPush(p.up, Handle(p.proc, p.resp, text).reply, Rank(text));
    }
  }

  function Deliveries(run: seq<Step>, c: nat): nat {
    if run == [] then 0 else (if run[0].c == c then 1 else 0) + Deliveries(run[1..], c)
  }

  /** However deliveries interleave, the number a peer can see is bounded by what its channels
      hold at the start, whatever any other peer is doing. */
  lemma {:induction false} DeliveriesRunOut(st: State, run: seq<Step>, c: nat)
    requires TagsEverywhere(st) && ValidRun(st, run) && c in st.peers
    requires forall i | 0 <= i < |run| :: Delivery(run[i])
    ensures c in Final(st, run).peers
    ensures Deliveries(run, c) + Backlog(Final(st, run).peers[c]) <= Backlog(st.peers[c])
    decreases |run|
  {
    if run != [] {
      StepTags(st, run[0]);
      DeliveryDrains(st, run[0]);
      DeliveriesRunOut(Apply(st, run[0]), run[1..], c);
    }
  }

  lemma {:induction false} RunTags(st: State, run: seq<Step>)
    requires TagsEverywhere(st) && ValidRun(st, run)
    ensures TagsEverywhere(Final(st, run))
    decreases |run|
  {
    if run != [] {
      StepTags(st, run[0]);
      RunTags(Apply(st, run[0]), run[1..]);
    }
  }

  lemma RunStep(st: State, step: Step, rest: seq<Step>)
    requires Enabled(st, step) && ValidRun(Apply(st, step), rest)
    ensures ValidRun(st, [step] + rest) && Final(st, [step] + rest) == Final(Apply(st, step), rest)
  {
    assert ([step] + rest)[1..] == rest;
  }

  predicate Empty(p: Peer) { p.up == [] && p.down == [] }

  function Busy(st: State): set<nat> { set c | c in st.peers && !Empty(st.peers[c]) }

  predicate AllDeliveries(run: seq<Step>) { forall i | 0 <= i < |run| :: Delivery(run[i]) }

  /** A delivery empties its peer or leaves the set of busy peers as it is. */
  lemma BusyAfter(st: State, step: Step)
    requires TagsEverywhere(st) && Enabled(st, step) && Delivery(step)
    ensures var st' := Apply(st, step);
            step.c in st'.peers && Busy(st') == if Empty(st'.peers[step.c]) then Busy(st) - {step.c} else Busy(st)
  {
    DeliveryDrains(st, step);
    assert step.c in Busy(st);
  }

  /** From every state deliveries alone, peer by peer, bring the system to rest. */
  lemma {:induction false} Drain(st: State, c: nat) returns (run: seq<Step>)
    requires TagsEverywhere(st) && c in Busy(st)
    ensures ValidRun(st, run) && Quiet(Final(st, run)) && AllDeliveries(run)
    decreases Busy(st), Backlog(st.peers[c])
  {
    var step := if st.peers[c].up != [] then ToServer(c) else ToClient(c);
    var st' := Apply(st, step);
    StepTags(st, step);
    DeliveryDrains(st, step);
    BusyAfter(st, step);
    var rest;
    if !Empty(st'.peers[c]) {
      rest := Drain(st', c);
    } else {
      rest := CanGoQuiet(st');
    }
    RunStep(st, step, rest);
    run := [step] + rest;
  }

  lemma {:induction false} CanGoQuiet(st: State) returns (run: seq<Step>)
    requires TagsEverywhere(st)
    ensures ValidRun(st, run) && Quiet(Final(st, run)) && AllDeliveries(run)
    decreases Busy(st)
  {
    if c :| c in Busy(st) {
      run := Drain(st, c);
    } else {
      NoneBusy(st);
      run := [];
    }
  }

  lemma NoneBusy(st: State)
    requires Busy(st) == {}
    ensures Quiet(st)
  {
    forall c | c in st.peers ensures Empty(st.peers[c]) {
      assert c !in Busy(st);
    }
  }

  /** So whatever has happened, deliveries alone lead to a state in which no tag is outstanding
      and everyone who asked is configured and known. */
  lemma CanSettle(st: State, run: seq<Step>) returns (more: seq<Step>)
    requires Init(st) && ValidRun(st, run)
    ensures ValidRun(Final(st, run), more) && AllDeliveries(more)
    ensures var end := Final(Final(st, run), more);
            Quiet(end) && end.server.tagged == map[] && Convergence.AllSettled(end)
  {
    RunTags(st, run);
    Convergence.InitInv(st);
    Convergence.RunInv(st, run);
    more := CanGoQuiet(Final(st, run));
    Convergence.RunInv(Final(st, run), more);
    Convergence.QuietSettled(Final(Final(st, run), more));
  }
}
