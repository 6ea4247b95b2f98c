/** With recycling on and no failed handshake, the eventfds of a peer id never change, so no
    client ever holds a stale list; and what each client knows is determined by who was there. */
module Recycling {
  import opened Prelude
  import opened SwitchClient
  import opened SwitchServer
  import opened SwitchViews

  /** Refused connections may happen; a handshake that starts must not fail. */
  predicate CleanStep(cfg: Config, st: State, step: Step) {
    && cfg.recycle && Enabled(cfg, st, step)
    && (step.Join? && step.id != -1 ==> step.sent && (step.id in st.recycled || step.created.Some?))
  }

  predicate CleanRun(cfg: Config, st: State, run: seq<Step>): (clean: bool)
    ensures clean ==> ValidRun(cfg, st, run)
    decreases |run|
  {
    run == [] || (CleanStep(cfg, st, run[0]) && CleanRun(cfg, Apply(cfg, st, run[0]), run[1..]))
  }

  /** The eventfds an id stands for, whether its client is connected or not. */
  function Bound(st: State, k: nat): Option<seq<Fd>> {
    if k in st.clients then Some(st.clients[k].fds)
    else if k in st.recycled then st.recycled[k].fds
    else None
  }

  predicate CleanInv(cfg: Config, st: State) {
    && Inv(cfg, st)
    && (forall k | k in st.recycled && k != -1 :: st.recycled[k].fds.Some?)
    && (forall s | s in st.open :: Registered(st, s))
  }

  predicate Registered(st: State, s: nat)
    requires s in st.open
  {
    var id := st.open[s].id;
    id == -1 || (id >= 0 && id in st.clients && st.clients[id].sock == s)
  }

  // ---- one step

  /** What a clean connection does: a refusal changes no client, anything else registers one. */
  lemma CleanConnect(cfg: Config, st: State, step: Step)
    requires CleanInv(cfg, st) && CleanStep(cfg, st, step) && step.Join? && step.id != -1
    ensures 1 <= step.id <= cfg.nClients && step.id !in st.clients
    ensures var st1 := st.(recycled := st.recycled - {step.id});
            var fds := if Bound(st, step.id).Some? then Bound(st, step.id) else step.created;
            && fds.Some? && |fds.value| == EventCount(cfg)
            && Apply(cfg, st, step) == Register(cfg, st1, step.sock, step.id, fds.value, Bound(st, step.id).Some?)
  {
    AllocatedId(cfg, st.clients.Keys, step.id);
  }

  lemma CleanRefusal(cfg: Config, st: State, step: Step)
    requires CleanStep(cfg, st, step) && step.Join? && step.id == -1
    ensures var st1 := st.(recycled := st.recycled - {-1});
            Apply(cfg, st, step) == Unregistered(st1, step.sock, Conn(-1, None), Refusal(step.sent))
  {
  }

  lemma RegisteredKept(st: State, s: nat, st': State)
    requires s in st.open && Registered(st, s) && s in st'.open && st'.open[s] == st.open[s]
    requires forall k | k in st.clients && st.clients[k].sock == s :: k in st'.clients && st'.clients[k] == st.clients[k]
    ensures Registered(st', s)
  {
  }

  lemma JoinClean(cfg: Config, st: State, step: Step)
    requires CleanInv(cfg, st) && CleanStep(cfg, st, step) && step.Join?
    ensures CleanInv(cfg, Apply(cfg, st, step))
  {
    StepInv(cfg, st, step);
    var st' := Apply(cfg, st, step);
    JoinTouches(cfg, st, step);
    forall s | s in st'.open ensures Registered(st', s) {
      if s != step.sock {
        RegisteredKept(st, s, st');
      }
    }
  }

  /** A clean connection leaves the clients and the other connections alone. */
  predicate Touches(st: State, step: Step, st': State)
    requires step.Join?
  {
    && (forall k | k in st.clients :: k in st'.clients && st'.clients[k] == st.clients[k])
    && st'.recycled == st.recycled - {step.id}
    && step.sock in st'.open && st'.open == st.open[step.sock := st'.open[step.sock]] && Registered(st', step.sock)
  }

  lemma JoinTouches(cfg: Config, st: State, step: Step)
    requires CleanInv(cfg, st) && CleanStep(cfg, st, step) && step.Join?
    ensures Touches(st, step, Apply(cfg, st, step))
  {
    if step.id == -1 {
      CleanRefusal(cfg, st, step);
    } else {
      CleanConnect(cfg, st, step);
      var fds := if Bound(st, step.id).Some? then Bound(st, step.id) else step.created;
      RegisterTouches(cfg, st, step, fds.value, Bound(st, step.id).Some?);
    }
  }

  lemma RegisterTouches(cfg: Config, st: State, step: Step, fds: seq<Fd>, recycled: bool)
    requires step.Join? && step.id >= 1 && step.id !in st.clients && Ordered(st)
    ensures Touches(st, step, Register(cfg, st.(recycled := st.recycled - {step.id}), step.sock, step.id, fds, recycled))
  {
  }

  lemma LeaveClean(cfg: Config, st: State, sock: nat)
    requires CleanInv(cfg, st) && cfg.recycle && sock in st.open
    ensures CleanInv(cfg, Lose(cfg, st, sock))
  {
    LeaveInv(cfg, st, sock);
    var st', id := Lose(cfg, st, sock), st.open[sock].id;
    assert Registered(st, sock);
    assert id != -1 ==> MemberOk(cfg, st, id);
    forall s | s in st'.open ensures Registered(st', s) {
      assert Registered(st, s);
    }
  }

  lemma StepClean(cfg: Config, st: State, step: Step)
    requires CleanInv(cfg, st) && CleanStep(cfg, st, step)
    ensures CleanInv(cfg, Apply(cfg, st, step))
  {
    match step
    case Join(_, _, _, _) => JoinClean(cfg, st, step);
    case Leave(sock) => LeaveClean(cfg, st, sock);
  }

  /** Who is bound after a step: everybody who was, to the same list, and whoever joined. */
  predicate BoundStep(st: State, step: Step, st': State, k: nat) {
    && (Bound(st, k).Some? ==> Bound(st', k) == Bound(st, k))
    && (Bound(st', k).Some? <==> Bound(st, k).Some? || (step.Join? && step.id == k))
  }

  lemma StepBinds(cfg: Config, st: State, step: Step, k: nat)
    requires CleanInv(cfg, st) && CleanStep(cfg, st, step)
    ensures BoundStep(st, step, Apply(cfg, st, step), k)
  {
    if step.Leave? {
      LeaveBinds(cfg, st, step.sock, k);
    } else if step.id == -1 {
      CleanRefusal(cfg, st, step);
    } else {
      CleanConnect(cfg, st, step);
      var fds := if Bound(st, step.id).Some? then Bound(st, step.id) else step.created;
      RegisterBinds(cfg, st, step, fds.value, Bound(st, step.id).Some?, k);
    }
  }

  lemma RegisterBinds(cfg: Config, st: State, step: Step, fds: seq<Fd>, again: bool, k: nat)
    requires Ordered(st) && step.Join? && step.id >= 1 && step.id !in st.clients
    requires Bound(st, step.id).Some? ==> Bound(st, step.id) == Some(fds)
    ensures var st' := Register(cfg, st.(recycled := st.recycled - {step.id}), step.sock, step.id, fds, again);
            BoundStep(st, step, st', k) && Bound(st', step.id) == Some(fds)
  {
  }

  /** A departure moves a list from the clients to the recycled ones. */
  lemma LeaveBinds(cfg: Config, st: State, sock: nat, k: nat)
    requires CleanInv(cfg, st) && cfg.recycle && sock in st.open
    ensures Bound(Lose(cfg, st, sock), k) == Bound(st, k)
  {
    var id := st.open[sock].id;
    assert Registered(st, sock);
    assert id != -1 ==> MemberOk(cfg, st, id);
  }

  // ---- whole runs

  predicate EverJoined(run: seq<Step>, k: nat) { exists i | 0 <= i < |run| :: run[i].Join? && run[i].id == k }

  lemma EverJoinedHead(run: seq<Step>, k: nat)
    requires run != []
    ensures EverJoined(run, k) <==> (run[0].Join? && run[0].id == k) || EverJoined(run[1..], k)
  {
    if EverJoined(run[1..], k) {
      var i :| 0 <= i < |run| - 1 && run[1..][i].Join? && run[1..][i].id == k;
      assert run[i + 1].Join? && run[i + 1].id == k;
    }
    if EverJoined(run, k) {
      var i :| 0 <= i < |run| && run[i].Join? && run[i].id == k;
      if i > 0 {
        assert run[1..][i - 1] == run[i];
      }
    }
  }

  /** Once an id stands for a list of eventfds it stands for that list for ever, through every
      departure and return; and the ids that stand for one are those that have ever joined. */
  lemma {:induction false} BindingForEver(cfg: Config, st: State, run: seq<Step>, k: nat)
    requires CleanInv(cfg, st) && CleanRun(cfg, st, run)
    ensures CleanInv(cfg, Final(cfg, st, run))
    ensures Bound(st, k).Some? ==> Bound(Final(cfg, st, run), k) == Bound(st, k)
    ensures Bound(Final(cfg, st, run), k).Some? <==> Bound(st, k).Some? || EverJoined(run, k)
    decreases |run|
  {
    if run != [] {
      StepClean(cfg, st, run[0]);
      StepBinds(cfg, st, run[0], k);
      EverJoinedHead(run, k);
      BindingForEver(cfg, Apply(cfg, st, run[0]), run[1..], k);
    }
  }

  lemma EmptyClean(cfg: Config)
    ensures CleanInv(cfg, Empty)
  {
  }

  /** Whenever fewer than nClients are registered, somebody can join cleanly. */
  lemma CanJoin(cfg: Config, st: State, sock: nat, fds: seq<Fd>) returns (join: Step)
    requires CleanInv(cfg, st) && cfg.recycle && |st.clients| < cfg.nClients
    requires sock !in st.open && |fds| == EventCount(cfg)
    ensures join.Join? && join.sock == sock && join.id >= 1 && CleanStep(cfg, st, join)
  {
    IdAvailable(cfg, st.clients.Keys);
    var available := Available(cfg, st.clients.Keys);
    join := Join(sock, Lowest(available, 1, cfg.nClients), Some(fds), true);
  }

  // ---- what a client knows

  /** `c` joined as `me` when the server was in state `st0`. */
  ghost predicate Knows(cfg: Config, st0: State, st: State, c: Client, me: nat) {
    forall p: nat | p != ServerId(cfg) ::
      && (p in c.fds <==> p == me || p in st0.clients || (Bound(st, p).Some? && Bound(st0, p).None?))
      && (p in c.fds ==> Bound(st, p) == Some(c.fds[p]))
  }

  ghost predicate Grown(st0: State, st: State) { forall p: nat :: Bound(st0, p).Some? ==> Bound(st, p).Some? }

  /** The client on `sock` is registered as `me`, serves, and knows whom it should. */
  ghost predicate InService(cfg: Config, st0: State, st: State, sock: nat, me: nat) {
    && Grown(st0, st) && me in st.clients && st.clients[me].sock == sock && sock in st.wires
    && Serving(ClientOn(cfg, st, sock), cfg, me) && Knows(cfg, st0, st, ClientOn(cfg, st, sock), me)
  }

  lemma Welcomed(cfg: Config, st: State, step: Step)
    requires CleanInv(cfg, st) && CleanStep(cfg, st, step) && step.Join? && step.id != -1 && Speaking(cfg)
    ensures step.id >= 1 && InService(cfg, st, Apply(cfg, st, step), step.sock, step.id)
  {
    JoinSent(cfg, st, step);
    var st' := Apply(cfg, st, step);
    var me, c := Listing(step.id, st'.clients[step.id].fds), ClientOn(cfg, st', step.sock);
    WelcomedAs(cfg, st, me, c);
    forall p: nat ensures BoundStep(st, step, st', p) {
      StepBinds(cfg, st, step, p);
    }
    WelcomeKnows(cfg, st, step, st', me, c);
  }

  lemma JoinSent(cfg: Config, st: State, step: Step)
    requires CleanInv(cfg, st) && CleanStep(cfg, st, step) && step.Join? && step.id != -1
    ensures 1 <= step.id <= cfg.nClients && step.id !in st.clients
    ensures var st' := Apply(cfg, st, step);
            && step.id in st'.clients && st'.clients[step.id].sock == step.sock && step.sock in st'.wires
            && var me := Listing(step.id, st'.clients[step.id].fds);
            |me.fds| == EventCount(cfg) && st'.wires[step.sock] == JoinStream(Roster(cfg, st), me, cfg.shmFd)
  {
    CleanConnect(cfg, st, step);
  }

  lemma WelcomeKnows(cfg: Config, st: State, step: Step, st': State, me: Listing, c: Client)
    requires forall p: nat :: BoundStep(st, step, st', p)
    requires step.Join? && step.id == me.id && Bound(st', me.id) == Some(me.fds)
    requires forall p: nat | p != ServerId(cfg) ::
               && (p in c.fds <==> p == me.id || p in st.clients)
               && (p in c.fds ==> c.fds[p] == if p == me.id then me.fds else st.clients[p].fds)
    ensures Knows(cfg, st, st', c, me.id) && Grown(st, st')
  {
    forall p: nat
      ensures Bound(st, p).Some? ==> Bound(st', p) == Bound(st, p)
      ensures Bound(st', p).Some? <==> Bound(st, p).Some? || p == me.id
    {
      assert BoundStep(st, step, st', p);
    }
  }

  /** A step that sends nothing to this client and binds nobody new. */
  lemma NothingNew(cfg: Config, st0: State, st: State, st': State, c: Client, me: nat)
    requires Knows(cfg, st0, st, c, me) && forall p: nat :: Bound(st', p) == Bound(st, p)
    ensures Knows(cfg, st0, st', c, me)
  {
  }

  lemma NewlyBound(cfg: Config, st0: State, st: State, st': State, c: Client, c': Client, me: nat, id: nat, fds: seq<Fd>)
    requires Knows(cfg, st0, st, c, me) && Grown(st0, st) && Bound(st, id).None? && id != ServerId(cfg)
    requires forall p: nat :: Bound(st', p) == if p == id then Some(fds) else Bound(st, p)
    requires c'.fds == c.fds[id := fds]
    ensures Knows(cfg, st0, st', c', me)
  {
  }

  predicate FirstTimer(st: State, step: Step) { step.Join? && step.id >= 0 && Bound(st, step.id).None? }

  /** What a step of somebody else does to a client in service. */
  lemma OthersStep(cfg: Config, st0: State, st: State, step: Step, sock: nat, me: nat)
    requires CleanInv(cfg, st) && CleanStep(cfg, st, step) && InService(cfg, st0, st, sock, me) && step != Leave(sock)
    ensures InService(cfg, st0, Apply(cfg, st, step), sock, me)
  {
    assert MemberOk(cfg, st, me);
    if FirstTimer(st, step) {
      FirstTimerStep(cfg, st0, st, step, sock, me);
    } else {
      QuietStep(cfg, st, step, sock, me);
      NothingNew(cfg, st0, st, Apply(cfg, st, step), ClientOn(cfg, st, sock), me);
    }
  }

  /** Refusals, departures and returns reach no client. */
  lemma QuietStep(cfg: Config, st: State, step: Step, sock: nat, me: nat)
    requires CleanInv(cfg, st) && CleanStep(cfg, st, step) && !FirstTimer(st, step)
    requires me in st.clients && st.clients[me].sock == sock && step.sock != sock && sock in st.wires
    ensures var st' := Apply(cfg, st, step);
            && me in st'.clients && st'.clients[me] == st.clients[me]
            && sock in st'.wires && st'.wires[sock] == st.wires[sock]
            && forall p: nat :: Bound(st', p) == Bound(st, p)
  {
    QuietWire(cfg, st, step, sock, me);
    forall p: nat ensures Bound(Apply(cfg, st, step), p) == Bound(st, p) {
      StepBinds(cfg, st, step, p);
    }
  }

  lemma QuietWire(cfg: Config, st: State, step: Step, sock: nat, me: nat)
    requires CleanInv(cfg, st) && CleanStep(cfg, st, step) && !FirstTimer(st, step)
    requires me in st.clients && st.clients[me].sock == sock && step.sock != sock && sock in st.wires
    ensures var st' := Apply(cfg, st, step);
            && me in st'.clients && st'.clients[me] == st.clients[me]
            && sock in st'.wires && st'.wires[sock] == st.wires[sock]
  {
    if step.Leave? {
      assert Registered(st, step.sock);
    } else if step.id == -1 {
      CleanRefusal(cfg, st, step);
    } else {
      CleanConnect(cfg, st, step);
    }
  }

  /** A first-time joiner is advertised to everybody in service. */
  lemma FirstTimerSent(cfg: Config, st: State, step: Step, sock: nat, me: nat)
    requires CleanInv(cfg, st) && CleanStep(cfg, st, step) && FirstTimer(st, step)
    requires me in st.clients && st.clients[me].sock == sock && step.sock != sock && sock in st.wires
    ensures var st' := Apply(cfg, st, step);
            && 1 <= step.id <= cfg.nClients && step.created.Some? && |step.created.value| == EventCount(cfg)
            && me in st'.clients && st'.clients[me] == st.clients[me]
            && sock in st'.wires && st'.wires[sock] == st.wires[sock] + Batch(step.id, step.created.value)
            && forall p: nat :: Bound(st', p) == if p == step.id then step.created else Bound(st, p)
  {
    CleanConnect(cfg, st, step);
    var fds := step.created.value;
    RegisterSent(cfg, st, step, fds, sock, me);
    forall p: nat ensures Bound(Apply(cfg, st, step), p) == if p == step.id then step.created else Bound(st, p) {
      RegisterBinds(cfg, st, step, fds, false, p);
    }
  }

  lemma RegisterSent(cfg: Config, st: State, step: Step, fds: seq<Fd>, sock: nat, me: nat)
    requires Ordered(st) && step.Join? && step.id >= 1 && step.id !in st.clients
    requires me in st.clients && st.clients[me].sock == sock && step.sock != sock && sock in st.wires
    ensures var st' := Register(cfg, st.(recycled := st.recycled - {step.id}), step.sock, step.id, fds, false);
            && me in st'.clients && st'.clients[me] == st.clients[me]
            && sock in st'.wires && st'.wires[sock] == st.wires[sock] + Batch(step.id, fds)
  {
    assert sock in Sockets(st.clients);
  }

  lemma FirstTimerStep(cfg: Config, st0: State, st: State, step: Step, sock: nat, me: nat)
    requires CleanInv(cfg, st) && CleanStep(cfg, st, step) && FirstTimer(st, step)
    requires InService(cfg, st0, st, sock, me) && step.sock != sock
    ensures InService(cfg, st0, Apply(cfg, st, step), sock, me)
  {
    FirstTimerSent(cfg, st, step, sock, me);
    var st', id, fds, c := Apply(cfg, st, step), step.id, step.created.value, ClientOn(cfg, st, sock);
    var c' := ClientOn(cfg, st', sock);
    ServesOn(cfg, c, c', me, id, fds, st.wires[sock]);
    NewlyBound(cfg, st0, st, st', c, c', me, id, fds);
  }

  lemma ServesOn(cfg: Config, c: Client, c': Client, me: nat, id: nat, fds: seq<Fd>, wire: seq<Packet>)
    requires c == Fold(NewClient, MailboxOf(cfg), wire) && c' == Fold(NewClient, MailboxOf(cfg), wire + Batch(id, fds))
    requires Serving(c, cfg, me) && id !in c.fds && |fds| == EventCount(cfg)
    ensures Serving(c', cfg, me) && c'.fds == c.fds[id := fds]
  {
    FoldConcat(NewClient, MailboxOf(cfg), wire, Batch(id, fds));
    NewPeerBatch(c, MailboxOf(cfg), id, fds);
  }

  predicate Stays(run: seq<Step>, sock: nat) { forall i | 0 <= i < |run| :: run[i] != Leave(sock) }

  lemma StepInService(cfg: Config, st0: State, st: State, step: Step, sock: nat, me: nat)
    requires CleanInv(cfg, st) && CleanStep(cfg, st, step) && InService(cfg, st0, st, sock, me) && step != Leave(sock)
    ensures CleanInv(cfg, Apply(cfg, st, step)) && InService(cfg, st0, Apply(cfg, st, step), sock, me)
  {
    StepClean(cfg, st, step);
    OthersStep(cfg, st0, st, step, sock, me);
  }

  /** Induction over clean runs in which `sock` stays connected. */
  lemma {:induction false} RunKeeps(cfg: Config, keeps: State -> bool, st: State, run: seq<Step>, sock: nat)
    requires keeps(st) && CleanRun(cfg, st, run) && Stays(run, sock)
    requires forall s, step | keeps(s) && CleanStep(cfg, s, step) && step != Leave(sock) :: keeps(Apply(cfg, s, step))
    ensures keeps(Final(cfg, st, run))
    decreases |run|
  {
    if run != [] {
      RunKeeps(cfg, keeps, Apply(cfg, st, run[0]), run[1..], sock);
    }
  }

  lemma OthersRun(cfg: Config, st0: State, st: State, run: seq<Step>, sock: nat, me: nat)
    requires CleanInv(cfg, st) && CleanRun(cfg, st, run) && InService(cfg, st0, st, sock, me) && Stays(run, sock)
    ensures CleanInv(cfg, Final(cfg, st, run)) && InService(cfg, st0, Final(cfg, st, run), sock, me)
  {
    var keeps := s => CleanInv(cfg, s) && InService(cfg, st0, s, sock, me);
    forall s, step | keeps(s) && CleanStep(cfg, s, step) && step != Leave(sock) ensures keeps(Apply(cfg, s, step)) {
      StepInService(cfg, st0, s, step, sock, me);
    }
    RunKeeps(cfg, keeps, st, run, sock);
  }

  /** A client joins after any clean history and stays through any clean future.  It then holds,
      for every active peer it knows, that peer's present eventfds, and a notifier for each; and
      it knows an active peer exactly when that peer was active as it joined, or joined for the
      first time ever after it. */
  lemma KnowsExactly(cfg: Config, before: seq<Step>, join: Step, after: seq<Step>)
    requires Speaking(cfg) && CleanRun(cfg, Empty, before) && join.Join? && join.id != -1
    requires CleanStep(cfg, Final(cfg, Empty, before), join)
    requires CleanRun(cfg, Apply(cfg, Final(cfg, Empty, before), join), after) && Stays(after, join.sock)
    ensures var st0 := Final(cfg, Empty, before);
            var end := Final(cfg, Apply(cfg, st0, join), after);
            && join.sock in end.wires && var c := ClientOn(cfg, end, join.sock);
            && Serving(c, cfg, join.id)
            && (forall p | p in end.clients && p in c.fds :: c.fds[p] == end.clients[p].fds)
            && (forall p | p in end.clients && p != join.id :: p in c.fds <==> p in st0.clients || !EverJoined(before, p))
  {
    EmptyClean(cfg);
    BindingForEver(cfg, Empty, before, 0);
    var st0 := Final(cfg, Empty, before);
    StaysInService(cfg, st0, join, after);
    var end := Final(cfg, Apply(cfg, st0, join), after);
    KnownNow(cfg, before, end, ClientOn(cfg, end, join.sock), join.id);
  }

  lemma StaysInService(cfg: Config, st0: State, join: Step, after: seq<Step>)
    requires Speaking(cfg) && CleanInv(cfg, st0) && CleanStep(cfg, st0, join) && join.Join? && join.id != -1
    requires CleanRun(cfg, Apply(cfg, st0, join), after) && Stays(after, join.sock)
    ensures var end := Final(cfg, Apply(cfg, st0, join), after);
            CleanInv(cfg, end) && join.id >= 1 && InService(cfg, st0, end, join.sock, join.id)
  {
    StepClean(cfg, st0, join);
    Welcomed(cfg, st0, join);
    OthersRun(cfg, st0, Apply(cfg, st0, join), after, join.sock, join.id);
  }

  lemma KnownNow(cfg: Config, before: seq<Step>, end: State, c: Client, me: nat)
    requires CleanRun(cfg, Empty, before) && Inv(cfg, end) && Knows(cfg, Final(cfg, Empty, before), end, c, me)
    ensures forall p | p in end.clients && p in c.fds :: c.fds[p] == end.clients[p].fds
    ensures forall p | p in end.clients && p != me ::
              p in c.fds <==> p in Final(cfg, Empty, before).clients || !EverJoined(before, p)
  {
    EmptyClean(cfg);
    forall p | p in end.clients
      ensures p != ServerId(cfg) && (Bound(Final(cfg, Empty, before), p).Some? <==> EverJoined(before, p))
    {
      assert MemberOk(cfg, end, p);
      BindingForEver(cfg, Empty, before, p);
    }
  }

  // ---- why the handshakes must not fail, and why recycling must be on

  /** The exact condition under which a step of a recycling server takes the eventfds of an id away
      or replaces them.  The server could test it: a loss does when another connection is
      registered or recycled under its id with other eventfds, and a failing handshake does when
      the id it was given had been recycled. */
  predicate Disturbs(cfg: Config, st: State, step: Step)
    requires Enabled(cfg, st, step)
  {
    match step
    case Leave(sock) =>
      var conn := st.open[sock];
      conn.id >= 0 &&
      if conn.id in st.clients then st.clients[conn.id].sock != sock && Some(st.clients[conn.id].fds) != conn.fds
      else conn.id in st.recycled && st.recycled[conn.id].fds.Some? && st.recycled[conn.id].fds != conn.fds
    case Join(_, id, _, sent) => id >= 0 && !sent && id in st.recycled && st.recycled[id].fds.Some?
  }

  /** Every id that stands for a list still stands for it. */
  ghost predicate Keeps(st: State, st': State) { forall k: nat :: Bound(st, k).Some? ==> Bound(st', k) == Bound(st, k) }

  lemma LeaveEffect(cfg: Config, st: State, sock: nat, k: nat)
    requires cfg.recycle && Inv(cfg, st) && sock in st.open
    ensures Bound(Lose(cfg, st, sock), k) == if k == st.open[sock].id then st.open[sock].fds else Bound(st, k)
  {
  }

  lemma JoinEffect(cfg: Config, st: State, step: Step, k: nat)
    requires Inv(cfg, st) && Enabled(cfg, st, step) && step.Join?
    ensures Bound(st, k).Some? ==>
              Bound(Apply(cfg, st, step), k) == if k == step.id && !step.sent then None else Bound(st, k)
  {
    AllocatedId(cfg, st.clients.Keys, step.id);
  }

  lemma LeaveKeepsIff(cfg: Config, st: State, sock: nat)
    requires cfg.recycle && Inv(cfg, st) && sock in st.open
    ensures Keeps(st, Lose(cfg, st, sock)) <==> !Disturbs(cfg, st, Leave(sock))
  {
    var st', conn := Lose(cfg, st, sock), st.open[sock];
    forall k: nat ensures Bound(st', k) == if k == conn.id then conn.fds else Bound(st, k) {
      LeaveEffect(cfg, st, sock, k);
    }
    if conn.id >= 0 {
      assert conn.id in st.clients ==> MemberOk(cfg, st, conn.id);
      assert Bound(st', conn.id) == conn.fds;
    }
  }

  lemma JoinKeepsIff(cfg: Config, st: State, step: Step)
    requires Inv(cfg, st) && Enabled(cfg, st, step) && step.Join?
    ensures Keeps(st, Apply(cfg, st, step)) <==> !Disturbs(cfg, st, step)
  {
    var st' := Apply(cfg, st, step);
    AllocatedId(cfg, st.clients.Keys, step.id);
    forall k: nat ensures Bound(st, k).Some? ==> Bound(st', k) == if k == step.id && !step.sent then None else Bound(st, k) {
      JoinEffect(cfg, st, step, k);
    }
    if Disturbs(cfg, st, step) {
      assert Bound(st, step.id).Some? && Bound(st', step.id).None?;
    }
  }

  /** Whatever handshakes fail, step by step: the bindings survive exactly the steps that do not
      disturb them. */
  lemma KeptIffUndisturbed(cfg: Config, st: State, step: Step)
    requires cfg.recycle && Inv(cfg, st) && Enabled(cfg, st, step)
    ensures Keeps(st, Apply(cfg, st, step)) <==> !Disturbs(cfg, st, step)
  {
    match step
    case Leave(sock) => LeaveKeepsIff(cfg, st, sock);
    case Join(_, _, _, _) => JoinKeepsIff(cfg, st, step);
  }

  predicate Undisturbed(cfg: Config, st: State, run: seq<Step>)
    requires ValidRun(cfg, st, run)
    decreases |run|
  {
    run == [] || (!Disturbs(cfg, st, run[0]) && Undisturbed(cfg, Apply(cfg, st, run[0]), run[1..]))
  }

  /** No step of the run loses or changes a binding. */
  ghost predicate KeptThroughout(cfg: Config, st: State, run: seq<Step>)
    requires ValidRun(cfg, st, run)
    decreases |run|
  {
    run == [] || (Keeps(st, Apply(cfg, st, run[0])) && KeptThroughout(cfg, Apply(cfg, st, run[0]), run[1..]))
  }

  /** Over every run of a recycling server, failed handshakes included: bindings are kept
      throughout if and only if no step disturbs one, and then they hold at the end. */
  lemma {:induction false} BindingsKeptIff(cfg: Config, st: State, run: seq<Step>)
    requires cfg.recycle && Inv(cfg, st) && ValidRun(cfg, st, run)
    ensures KeptThroughout(cfg, st, run) <==> Undisturbed(cfg, st, run)
    ensures Undisturbed(cfg, st, run) ==> Keeps(st, Final(cfg, st, run))
    decreases |run|
  {
    if run != [] {
      var st' := Apply(cfg, st, run[0]);
      KeptIffUndisturbed(cfg, st, run[0]);
      StepInv(cfg, st, run[0]);
      BindingsKeptIff(cfg, st', run[1..]);
      if Undisturbed(cfg, st, run) {
        KeepsChain(st, st', Final(cfg, st', run[1..]));
      }
    }
  }

  lemma KeepsChain(a: State, b: State, c: State)
    requires Keeps(a, b) && Keeps(b, c)
    ensures Keeps(a, c)
  {
    forall k: nat ensures Bound(a, k).Some? ==> Bound(c, k) == Bound(a, k) {
      assert Bound(a, k).Some? ==> Bound(b, k) == Bound(a, k);
    }
  }

  /** In every state with a free id, a handshake that fails for it and whose connection is lost
      only after the id went to a live client takes the id away from that client and binds it to
      other eventfds. */
  lemma FailedHandshakeRebinds(cfg: Config, st: State, s: nat, t: nat, id: nat, mine: seq<Fd>, theirs: seq<Fd>)
    requires cfg.recycle && Inv(cfg, st) && s !in st.open && t !in st.open && s != t
    requires Allocates(cfg, st.clients.Keys, id) && id !in st.recycled
    requires |mine| == EventCount(cfg) && |theirs| == EventCount(cfg) && mine != theirs
    ensures var failing, joining := Join(s, id, Some(mine), false), Join(t, id, Some(theirs), true);
            && Enabled(cfg, st, failing) && Enabled(cfg, Apply(cfg, st, failing), joining)
            && var st2 := Apply(cfg, Apply(cfg, st, failing), joining);
            && Bound(st2, id) == Some(theirs) && Enabled(cfg, st2, Leave(s))
            && var st3 := Lose(cfg, st2, s);
            && Bound(st3, id) == Some(mine) && id !in st3.clients && t in st3.open
  {
    FailedJoin(cfg, st, s, id, mine);
    SecondJoin(cfg, Connect(cfg, st, s, id, Some(mine), false), t, id, theirs);
    LateLoss(cfg, Connect(cfg, Connect(cfg, st, s, id, Some(mine), false), t, id, Some(theirs), true), s, id, mine);
  }

  lemma FailedJoin(cfg: Config, st: State, s: nat, id: nat, mine: seq<Fd>)
    requires Ordered(st) && id !in st.recycled
    ensures var st1 := Connect(cfg, st, s, id, Some(mine), false);
            && Ordered(st1) && st1.clients == st.clients && st1.recycled == st.recycled
            && st1.open == st.open[s := Conn(id, Some(mine))]
  {
  }

  lemma SecondJoin(cfg: Config, st: State, t: nat, id: nat, theirs: seq<Fd>)
    requires Ordered(st) && id !in st.recycled
    ensures var st2 := Connect(cfg, st, t, id, Some(theirs), true);
            && st2.open == st.open[t := Conn(id, Some(theirs))] && Bound(st2, id) == Some(theirs)
  {
  }

  lemma LateLoss(cfg: Config, st: State, s: nat, id: nat, mine: seq<Fd>)
    requires cfg.recycle && s in st.open && st.open[s] == Conn(id, Some(mine))
    ensures var st3 := Lose(cfg, st, s);
            && Bound(st3, id) == Some(mine) && id !in st3.clients && st3.open == st.open - {s}
  {
  }

  /** With recycling off, a refused connection that closes is announced as peer -1, and every
      Python client that has not failed yet fails on it. */
  lemma RefusalStopsClients(cfg: Config, st: State, sock: nat, k: nat)
    requires !cfg.recycle && Inv(cfg, st) && sock !in st.open && |st.clients| >= cfg.nClients && k in st.clients
    ensures var full := Connect(cfg, st, sock, -1, None, true);
            var end := Lose(cfg, full, sock);
            && k in end.clients && end.clients[k] == st.clients[k]
            && end.clients[k].sock in end.wires && ClientOn(cfg, end, end.clients[k].sock).failed
  {
    assert MemberOk(cfg, st, k);
    var s := st.clients[k].sock;
    var end := Lose(cfg, Connect(cfg, st, sock, -1, None, true), sock);
    assert k in end.clients && s in Sockets(end.clients);
    assert end.wires[s] == st.wires[s] + [Packet([-1], None)];
    FoldSnoc(NewClient, MailboxOf(cfg), st.wires[s], Packet([-1], None));
  }
}
