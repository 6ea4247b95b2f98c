/** Without recycling: how long a Python client lives, and what it knows until then.

    One client is followed through any run of the server, failed handshakes and refused
    connections included.  In between it may look up the names of the peers it knows, which it does
    with every message it sends. */
module Departures {
  import opened Prelude
  import opened SwitchClient
  import opened SwitchServer
  import opened SwitchViews

  datatype Event = Server(step: Step) | LookUp

  /** get_nodenames: a name for every peer that has a list. */
  function Named(c: Client): Client { if c.failed then c else c.(names := c.fds.Keys) }

  /** What a step has sent on a socket. */
  function News(before: seq<Packet>, after: seq<Packet>): seq<Packet> {
    if before <= after then after[|before|..] else []
  }

  function NextServer(cfg: Config, st: State, e: Event): State
    requires e.Server? ==> Enabled(cfg, st, e.step)
  {
    match e case Server(step) => Apply(cfg, st, step) case LookUp => st
  }

  function NextClient(cfg: Config, st: State, c: Client, e: Event, sock: nat): Client
    requires (e.Server? ==> Enabled(cfg, st, e.step)) && sock in st.wires && sock in NextServer(cfg, st, e).wires
  {
    match e
    case Server(_) => Fold(c, MailboxOf(cfg), News(st.wires[sock], NextServer(cfg, st, e).wires[sock]))
    case LookUp => Named(c)
  }

  predicate RegisteredAs(st: State, sock: nat, me: nat) {
    sock in st.wires && me in st.clients && st.clients[me].sock == sock
  }

  /** Events during which the server keeps the client on `sock` registered as `me`. */
  predicate InTouch(cfg: Config, st: State, events: seq<Event>, sock: nat, me: nat)
    decreases |events|
  {
    RegisteredAs(st, sock, me) &&
    (events == [] ||
     (&& (events[0].Server? ==> Enabled(cfg, st, events[0].step))
      && InTouch(cfg, NextServer(cfg, st, events[0]), events[1..], sock, me)))
  }

  function ServerAfter(cfg: Config, st: State, events: seq<Event>, sock: nat, me: nat): State
    requires InTouch(cfg, st, events, sock, me)
    decreases |events|
  {
    if events == [] then st else ServerAfter(cfg, NextServer(cfg, st, events[0]), events[1..], sock, me)
  }

  function ClientAfter(cfg: Config, st: State, c: Client, events: seq<Event>, sock: nat, me: nat): Client
    requires InTouch(cfg, st, events, sock, me)
    decreases |events|
  {
    if events == [] then c
    else
      assert InTouch(cfg, NextServer(cfg, st, events[0]), events[1..], sock, me);
      ClientAfter(cfg, NextServer(cfg, st, events[0]), NextClient(cfg, st, c, events[0], sock), events[1..], sock, me)
  }

  // ---- the rule of survival, in the server's terms

  /** The ids looked up since they were last announced: all of them after a look-up, minus those
      that have left since. */
  function Looked(cfg: Config, st: State, looked: set<nat>, e: Event): set<nat>
    requires e.Server? ==> Enabled(cfg, st, e.step)
  {
    match e
    case LookUp => Everybody(cfg, st)
    case Server(step) => if step.Leave? then looked - {st.open[step.sock].id} else looked
  }

  function Everybody(cfg: Config, st: State): set<nat> { st.clients.Keys + {ServerId(cfg)} }

  /** Every connection that closed was looked up before.  A refused connection never is. */
  predicate Survives(cfg: Config, st: State, looked: set<nat>, events: seq<Event>, sock: nat, me: nat)
    requires InTouch(cfg, st, events, sock, me)
    decreases |events|
  {
    events == [] ||
    (&& (events[0].Server? && events[0].step.Leave? ==> st.open[events[0].step.sock].id in looked)
     && Survives(cfg, NextServer(cfg, st, events[0]), Looked(cfg, st, looked, events[0]), events[1..], sock, me))
  }

  /** The lists a client should have: those of the registered clients and the server's. */
  function ServerTable(cfg: Config, st: State): map<nat, seq<Fd>> {
    map k | k in Everybody(cfg, st) :: if k == ServerId(cfg) then cfg.serverFds else st.clients[k].fds
  }

  /** A live client agrees with the server and has looked up whom it should have. */
  predicate Current(cfg: Config, st: State, c: Client, looked: set<nat>, me: nat) {
    Serving(c, cfg, me) && c.fds == ServerTable(cfg, st) && c.names == looked
  }

  predicate Sound(cfg: Config, st: State, looked: set<nat>) {
    !cfg.recycle && Inv(cfg, st) && st.recycled == map[] && looked <= Everybody(cfg, st)
  }

  // ---- one event

  lemma {:induction false} FailedStays(c: Client, mailbox: Globals, stream: seq<Packet>)
    requires c.failed
    ensures Fold(c, mailbox, stream) == c
  {
    if stream != [] {
      FailedStays(c, mailbox, stream[..|stream| - 1]);
    }
  }

  lemma NewsIs(before: seq<Packet>, more: seq<Packet>)
    ensures News(before, before + more) == more
  {
  }

  lemma SoundStep(cfg: Config, st: State, looked: set<nat>, step: Step)
    requires Sound(cfg, st, looked) && Enabled(cfg, st, step)
    ensures Sound(cfg, Apply(cfg, st, step), Looked(cfg, st, looked, Server(step)))
  {
    StepInv(cfg, st, step);
    StaysEmpty(cfg, st, step);
    SameOrGrown(cfg, st, step);
    LookedStays(cfg, st, looked, step, Apply(cfg, st, step));
  }

  lemma StaysEmpty(cfg: Config, st: State, step: Step)
    requires !cfg.recycle && st.recycled == map[] && Enabled(cfg, st, step)
    ensures Apply(cfg, st, step).recycled == map[]
  {
    assert st.recycled - {if step.Join? then step.id else 0} == map[];
  }

  lemma LookedStays(cfg: Config, st: State, looked: set<nat>, step: Step, st': State)
    requires looked <= Everybody(cfg, st) && Enabled(cfg, st, step)
    requires if step.Leave? then Everybody(cfg, st') == Everybody(cfg, st) - {st.open[step.sock].id}
             else Everybody(cfg, st) <= Everybody(cfg, st')
    ensures Looked(cfg, st, looked, Server(step)) <= Everybody(cfg, st')
  {
  }

  lemma SameOrGrown(cfg: Config, st: State, step: Step)
    requires Inv(cfg, st) && st.recycled == map[] && Enabled(cfg, st, step)
    ensures var st' := Apply(cfg, st, step);
            if step.Leave? then Everybody(cfg, st') == Everybody(cfg, st) - {st.open[step.sock].id}
            else Everybody(cfg, st) <= Everybody(cfg, st')
  {
    if step.Leave? {
      assert ListOk(cfg, st.open[step.sock]);
    }
  }

  predicate Joins(step: Step) { step.Join? && step.id != -1 && step.created.Some? && step.sent }

  /** Without recycling a completed handshake is announced to everybody registered. */
  lemma JoinNews(cfg: Config, st: State, step: Step, sock: nat, me: nat)
    requires Inv(cfg, st) && st.recycled == map[] && Enabled(cfg, st, step) && Joins(step) && RegisteredAs(st, sock, me)
    ensures var st' := Apply(cfg, st, step);
            && 1 <= step.id <= cfg.nClients && step.id !in st.clients && |step.created.value| == EventCount(cfg)
            && step.sock != sock && sock in st'.wires
            && st'.wires[sock] == st.wires[sock] + Batch(step.id, step.created.value)
            && st'.clients == st.clients[step.id := Member(step.sock, step.created.value)]
  {
    AllocatedId(cfg, st.clients.Keys, step.id);
    assert MemberOk(cfg, st, me);
    assert sock in Sockets(st.clients);
  }

  /** One that fails is announced to nobody. */
  lemma FailureNews(cfg: Config, st: State, step: Step, sock: nat, me: nat)
    requires Inv(cfg, st) && st.recycled == map[] && Enabled(cfg, st, step) && step.Join? && !Joins(step) && RegisteredAs(st, sock, me)
    ensures var st' := Apply(cfg, st, step);
            sock in st'.wires && st'.wires[sock] == st.wires[sock] && st'.clients == st.clients
  {
    AllocatedId(cfg, st.clients.Keys, step.id);
    assert MemberOk(cfg, st, me);
  }

  /** A connection that closes is announced to everybody still registered. */
  lemma LeaveNews(cfg: Config, st: State, gone: nat, sock: nat, me: nat)
    requires !cfg.recycle && Inv(cfg, st) && gone in st.open && RegisteredAs(st, sock, me)
    requires RegisteredAs(Lose(cfg, st, gone), sock, me)
    ensures Lose(cfg, st, gone).wires[sock] == st.wires[sock] + [Packet([st.open[gone].id], None)]
  {
    var st' := Lose(cfg, st, gone);
    assert sock in Sockets(st'.clients);
  }

  lemma JoinCurrent(cfg: Config, st: State, c: Client, looked: set<nat>, step: Step, sock: nat, me: nat)
    requires Sound(cfg, st, looked) && Enabled(cfg, st, step) && Joins(step) && RegisteredAs(st, sock, me)
    requires Current(cfg, st, c, looked, me)
    ensures var st' := Apply(cfg, st, step);
            && sock in st'.wires
            && Current(cfg, st', NextClient(cfg, st, c, Server(step), sock), looked, me)
  {
    JoinNews(cfg, st, step, sock, me);
    var id, fds := step.id, step.created.value;
    NewsIs(st.wires[sock], Batch(id, fds));
    assert id !in ServerTable(cfg, st);
    NewPeerBatch(c, MailboxOf(cfg), id, fds);
    TableGrows(cfg, st, Apply(cfg, st, step), id, Member(step.sock, fds));
  }

  lemma TableGrows(cfg: Config, st: State, st': State, id: nat, m: Member)
    requires st'.clients == st.clients[id := m] && id != ServerId(cfg)
    ensures ServerTable(cfg, st') == ServerTable(cfg, st)[id := m.fds]
  {
  }

  lemma TableShrinks(cfg: Config, st: State, st': State, id: int)
    requires st'.clients == Without(st.clients, id) && id != ServerId(cfg)
    ensures ServerTable(cfg, st') == ServerTable(cfg, st) - {id}
  {
  }

  /** A departure: survived exactly when it was looked up, and then the table still agrees. */
  lemma LeaveCurrent(cfg: Config, st: State, c: Client, looked: set<nat>, gone: nat, sock: nat, me: nat)
    requires Sound(cfg, st, looked) && gone in st.open && RegisteredAs(st, sock, me)
    requires RegisteredAs(Lose(cfg, st, gone), sock, me) && Current(cfg, st, c, looked, me)
    ensures var id := st.open[gone].id;
            var c' := NextClient(cfg, st, c, Server(Leave(gone)), sock);
            if id in looked then Current(cfg, Lose(cfg, st, gone), c', looked - {id}, me) else c'.failed
  {
    var id, bye := st.open[gone].id, [Packet([st.open[gone].id], None)];
    LeaveNews(cfg, st, gone, sock, me);
    NewsIs(st.wires[sock], bye);
    assert bye[..0] == [];
    assert Fold(c, MailboxOf(cfg), bye) == Receive(c, MailboxOf(cfg), bye[0]);
    assert ListOk(cfg, st.open[gone]);
    TableShrinks(cfg, st, Lose(cfg, st, gone), id);
  }

  /** One event: the client stays current, fails, or stays failed, as the rule says. */
  lemma EventStep(cfg: Config, st: State, c: Client, looked: set<nat>, e: Event, sock: nat, me: nat)
    requires Sound(cfg, st, looked) && (e.Server? ==> Enabled(cfg, st, e.step))
    requires RegisteredAs(st, sock, me) && RegisteredAs(NextServer(cfg, st, e), sock, me)
    requires Current(cfg, st, c, looked, me)
    ensures var c' := NextClient(cfg, st, c, e, sock);
            if e.Server? && e.step.Leave? && st.open[e.step.sock].id !in looked then c'.failed
            else Current(cfg, NextServer(cfg, st, e), c', Looked(cfg, st, looked, e), me)
  {
    match e
    case LookUp =>
    case Server(step) =>
      if step.Leave? {
        LeaveCurrent(cfg, st, c, looked, step.sock, sock, me);
      } else if Joins(step) {
        JoinCurrent(cfg, st, c, looked, step, sock, me);
      } else {
        FailureNews(cfg, st, step, sock, me);
        NewsIs(st.wires[sock], []);
        assert st.wires[sock] + [] == st.wires[sock];
      }
  }

  // ---- all events

  lemma SoundEvent(cfg: Config, st: State, looked: set<nat>, e: Event)
    requires Sound(cfg, st, looked) && (e.Server? ==> Enabled(cfg, st, e.step))
    ensures Sound(cfg, NextServer(cfg, st, e), Looked(cfg, st, looked, e))
  {
    if e.Server? {
      SoundStep(cfg, st, looked, e.step);
    }
  }

  lemma {:induction false} FailedForEver(cfg: Config, st: State, c: Client, events: seq<Event>, sock: nat, me: nat)
    requires InTouch(cfg, st, events, sock, me) && c.failed
    ensures ClientAfter(cfg, st, c, events, sock, me).failed
    decreases |events|
  {
    if events != [] {
      var st' := NextServer(cfg, st, events[0]);
      assert InTouch(cfg, st', events[1..], sock, me);
      if events[0].Server? {
        FailedStays(c, MailboxOf(cfg), News(st.wires[sock], st'.wires[sock]));
      }
      FailedForEver(cfg, st', NextClient(cfg, st, c, events[0], sock), events[1..], sock, me);
    }
  }

  lemma {:induction false} LivesWhile(cfg: Config, st: State, c: Client, looked: set<nat>, events: seq<Event>, sock: nat, me: nat)
    requires InTouch(cfg, st, events, sock, me) && Sound(cfg, st, looked) && Current(cfg, st, c, looked, me)
    ensures var c' := ClientAfter(cfg, st, c, events, sock, me);
            && (!c'.failed <==> Survives(cfg, st, looked, events, sock, me))
            && (!c'.failed ==> Serving(c', cfg, me) && c'.fds == ServerTable(cfg, ServerAfter(cfg, st, events, sock, me)))
    decreases |events|
  {
    if events != [] {
      var e, st' := events[0], NextServer(cfg, st, events[0]);
      assert InTouch(cfg, st', events[1..], sock, me);
      var c' := NextClient(cfg, st, c, e, sock);
      EventStep(cfg, st, c, looked, e, sock, me);
      SoundEvent(cfg, st, looked, e);
      if c'.failed {
        FailedForEver(cfg, st', c', events[1..], sock, me);
      } else {
        LivesWhile(cfg, st', c', Looked(cfg, st, looked, e), events[1..], sock, me);
      }
    }
  }

  // ---- looking names up in the middle of a batch

  lemma LookUpCommutes(c: Client, mailbox: Globals, peer: nat, fd: Fd)
    requires Listening(c) && !c.firstpass && peer in c.fds && |c.fds[peer]| <= c.globals.serverId
    ensures Receive(Named(c), mailbox, Packet([peer], Some(fd))) == Named(Receive(c, mailbox, Packet([peer], Some(fd))))
  {
  }

  /** One more eventfd of a batch, wherever its part begins. */
  lemma FoldNext(c: Client, mailbox: Globals, peer: nat, fds: seq<Fd>, k: nat, j: nat)
    requires k < j <= |fds|
    ensures Fold(c, mailbox, Batch(peer, fds[k..j]))
            == Receive(Fold(c, mailbox, Batch(peer, fds[k..j - 1])), mailbox, Packet([peer], Some(fds[j - 1])))
  {
    assert Batch(peer, fds[k..j]) == Batch(peer, fds[k..j - 1]) + [Packet([peer], Some(fds[j - 1]))];
    FoldSnoc(c, mailbox, Batch(peer, fds[k..j - 1]), Packet([peer], Some(fds[j - 1])));
  }

  lemma NamedNext(c: Client, mailbox: Globals, peer: nat, fds: seq<Fd>, j: nat)
    requires Listening(c) && !c.firstpass && peer !in c.fds && 2 <= j <= |fds| == c.globals.nEvents
    ensures var before := Fold(c, mailbox, Batch(peer, fds[0..j - 1]));
            Receive(Named(before), mailbox, Packet([peer], Some(fds[j - 1]))) == Named(Fold(c, mailbox, Batch(peer, fds[0..j])))
  {
    assert fds[0..j - 1] == fds[..j - 1];
    FoldGrowing(c, mailbox, peer, fds, j - 1);
    LookUpCommutes(Growing(c, peer, fds[..j - 1]), mailbox, peer, fds[j - 1]);
    FoldNext(c, mailbox, peer, fds, 0, j);
  }

  lemma LookUpOneMore(c: Client, looked: Client, mailbox: Globals, peer: nat, fds: seq<Fd>, k: nat, j: nat)
    requires Listening(c) && !c.firstpass && peer !in c.fds && 1 <= k < j <= |fds| == c.globals.nEvents
    requires Fold(looked, mailbox, Batch(peer, fds[k..j - 1])) == Named(Fold(c, mailbox, Batch(peer, fds[0..j - 1])))
    ensures Fold(looked, mailbox, Batch(peer, fds[k..j])) == Named(Fold(c, mailbox, Batch(peer, fds[0..j])))
  {
    FoldNext(looked, mailbox, peer, fds, k, j);
    NamedNext(c, mailbox, peer, fds, j);
  }

  /** A look-up between two eventfds of a batch (`looked` is the client just after it) is worth one
      after the batch, so nothing is lost by placing look-ups between the server's callbacks. */
  lemma {:induction false} LookUpInBatch(c: Client, looked: Client, mailbox: Globals, peer: nat, fds: seq<Fd>, k: nat, j: nat)
    requires Listening(c) && !c.firstpass && peer !in c.fds && 1 <= k <= j <= |fds| == c.globals.nEvents
    requires looked == Named(Fold(c, mailbox, Batch(peer, fds[0..k])))
    ensures Fold(looked, mailbox, Batch(peer, fds[k..j])) == Named(Fold(c, mailbox, Batch(peer, fds[0..j])))
    decreases j
  {
    if j == k {
      assert |Batch(peer, fds[k..j])| == 0;
    } else {
      LookUpInBatch(c, looked, mailbox, peer, fds, k, j - 1);
      LookUpOneMore(c, looked, mailbox, peer, fds, k, j);
    }
  }

  // ---- whole lives

  lemma {:induction false} NeverRecycled(cfg: Config, st: State, run: seq<Step>)
    requires !cfg.recycle && st.recycled == map[] && ValidRun(cfg, st, run)
    ensures Final(cfg, st, run).recycled == map[]
    decreases |run|
  {
    if run != [] {
      StaysEmpty(cfg, st, run[0]);
      NeverRecycled(cfg, Apply(cfg, st, run[0]), run[1..]);
    }
  }

  /** The newcomer has looked everybody up by the end of its first pass. */
  lemma JoinsCurrent(cfg: Config, st: State, join: Step)
    requires Sound(cfg, st, {}) && Speaking(cfg) && Enabled(cfg, st, join) && Joins(join)
    ensures var st' := Apply(cfg, st, join);
            && join.id >= 1 && join.sock in st'.wires
            && Sound(cfg, st', Everybody(cfg, st'))
            && Current(cfg, st', ClientOn(cfg, st', join.sock), Everybody(cfg, st'), join.id)
  {
    SoundStep(cfg, st, {}, join);
    JoinSends(cfg, st, join);
    var st' := Apply(cfg, st, join);
    WelcomeTable(cfg, st, Listing(join.id, join.created.value), ClientOn(cfg, st', join.sock), join.sock);
    TableGrows(cfg, st, st', join.id, Member(join.sock, join.created.value));
  }

  lemma JoinSends(cfg: Config, st: State, join: Step)
    requires Inv(cfg, st) && st.recycled == map[] && Enabled(cfg, st, join) && Joins(join)
    ensures var st' := Apply(cfg, st, join);
            && 1 <= join.id <= cfg.nClients && join.id !in st.clients && |join.created.value| == EventCount(cfg)
            && join.sock in st'.wires
            && st'.wires[join.sock] == JoinStream(Roster(cfg, st), Listing(join.id, join.created.value), cfg.shmFd)
            && st'.clients == st.clients[join.id := Member(join.sock, join.created.value)]
  {
    AllocatedId(cfg, st.clients.Keys, join.id);
  }

  lemma WelcomeTable(cfg: Config, st: State, me: Listing, c: Client, sock: nat)
    requires Inv(cfg, st) && Speaking(cfg) && me.id !in st.clients && 1 <= me.id <= cfg.nClients && |me.fds| == EventCount(cfg)
    requires c == Fold(NewClient, MailboxOf(cfg), JoinStream(Roster(cfg, st), me, cfg.shmFd))
    ensures Serving(c, cfg, me.id) && c.names == c.fds.Keys && c.fds == ServerTable(cfg, st)[me.id := me.fds]
  {
    WelcomedAs(cfg, st, me, c);
  }

  /** After any history of the server a client joins; then anything happens while the server keeps
      it registered.  The client is alive exactly if every connection that closed since had been
      looked up before, which a refused connection never is; and as long as it is alive its lists
      and notifiers are exactly those of the clients then registered, and the server's. */
  lemma SurvivesExactly(cfg: Config, before: seq<Step>, join: Step, events: seq<Event>)
    requires !cfg.recycle && Speaking(cfg) && ValidRun(cfg, Empty, before)
    requires Enabled(cfg, Final(cfg, Empty, before), join) && Joins(join) && join.id >= 0
    requires InTouch(cfg, Apply(cfg, Final(cfg, Empty, before), join), events, join.sock, join.id)
    ensures var st := Apply(cfg, Final(cfg, Empty, before), join);
            var c := ClientAfter(cfg, st, ClientOn(cfg, st, join.sock), events, join.sock, join.id);
            && (!c.failed <==> Survives(cfg, st, Everybody(cfg, st), events, join.sock, join.id))
            && (!c.failed ==>
                  && Serving(c, cfg, join.id)
                  && c.fds == ServerTable(cfg, ServerAfter(cfg, st, events, join.sock, join.id)))
  {
    RunInv(cfg, Empty, before);
    NeverRecycled(cfg, Empty, before);
    JoinsCurrent(cfg, Final(cfg, Empty, before), join);
    var st := Apply(cfg, Final(cfg, Empty, before), join);
    LivesWhile(cfg, st, ClientOn(cfg, st, join.sock), Everybody(cfg, st), events, join.sock, join.id);
  }
}
