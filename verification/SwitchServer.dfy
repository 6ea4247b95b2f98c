/** The Python switch: bounded peer ids, eventfd lists that can be recycled, its own
    advertisement.  One state is the server between two callbacks. */
module SwitchServer {
  import opened Prelude
  import PeerIds
  import opened SwitchClient

  datatype Config = Config(nClients: nat, recycle: bool, smart: bool, serverFds: seq<Fd>, shmFd: Fd)

  function ServerId(cfg: Config): nat { cfg.nClients + 1 }

  function EventCount(cfg: Config): nat { cfg.nClients + 2 }

  /** A registered client: its socket and its eventfds. */
  datatype Member = Member(sock: nat, fds: seq<Fd>)

  /** A connection, registered or not.  An id of -1 marks a refused one. */
  datatype Conn = Conn(id: int, fds: Option<seq<Fd>>)

  /** `clients` is an ordered dictionary: `order` lists its keys as they were inserted.  `closed`
      are the eventfds cleaned up so far and `wiped` the mailslots cleared. */
  datatype State = State(
    clients: map<nat, Member>, order: seq<nat>, recycled: map<int, Conn>,
    open: map<nat, Conn>, wires: map<nat, seq<Packet>>, closed: seq<Fd>, wiped: seq<int>)

  const Empty := State(map[], [], map[], map[], map[], [], [])

  // ---- peer ids

  /** 1..n */
  function AllIds(n: nat): (ids: set<nat>)
    ensures forall i :: i in ids <==> 1 <= i <= n
    ensures |ids| == n
  {
    if n == 0 then {} else AllIds(n - 1) + {n}
  }

  function Available(cfg: Config, active: set<nat>): set<nat> { AllIds(cfg.nClients) - active }

  /** create_new_peer_id: any available id if smart, the lowest one if not, -1 when full. */
  predicate Allocates(cfg: Config, active: set<nat>, id: int) {
    if |active| >= cfg.nClients then id == -1
    else
      && id >= 0 && id in Available(cfg, active)
      && (!cfg.smart ==> forall i | i in Available(cfg, active) :: id <= i)
  }

  /** By pigeonhole an id in 1..nClients is free whenever fewer than nClients are registered. */
  lemma IdAvailable(cfg: Config, active: set<nat>)
    requires |active| < cfg.nClients
    ensures exists id :: id in Available(cfg, active) && 1 <= id <= cfg.nClients && id !in active
  {
    var all := AllIds(cfg.nClients);
    if all <= active {
      PeerIds.SubsetSize(all, active);
      assert false;
    }
    var id :| id in all && id !in active;
    assert id in Available(cfg, active);
  }

  /** sorted(ids)[0], looking from `from` on. */
  function Lowest(ids: set<nat>, from: nat, top: nat): (r: nat)
    requires forall i | i in ids :: from <= i <= top
    requires ids != {}
    ensures r in ids && forall i | i in ids :: r <= i
    decreases top - from
  {
    var i :| i in ids;
    if from in ids then from else Lowest(ids, from + 1, top)
  }

  // ---- sending

  function Sockets(clients: map<nat, Member>): set<nat> { set k | k in clients :: clients[k].sock }

  /** The same packets on each of these sockets. */
  function Broadcast(wires: map<nat, seq<Packet>>, socks: set<nat>, packets: seq<Packet>): map<nat, seq<Packet>> {
    map s | s in wires :: if s in socks then wires[s] + packets else wires[s]
  }

  /** The lists advertised to a newcomer: the clients in order, then the server itself. */
  function Listings(clients: map<nat, Member>, order: seq<nat>): seq<Listing>
    requires forall i | 0 <= i < |order| :: order[i] in clients
  {
    seq(|order|, i requires 0 <= i < |order| => Listing(order[i], clients[order[i]].fds))
  }

  /** A silent server has no eventfds and does not appear. */
  function Roster(cfg: Config, st: State): seq<Listing>
    requires Ordered(st)
  {
    Listings(st.clients, st.order) + [Listing(ServerId(cfg), cfg.serverFds)]
  }

  predicate Ordered(st: State) {
    && (forall i | 0 <= i < |st.order| :: st.order[i] in st.clients)
    && (forall k | k in st.clients :: k in st.order)
    && (forall i, j | 0 <= i < j < |st.order| :: st.order[i] != st.order[j])
  }

  // ---- connecting

  /** send_initial_info(False) or nothing at all, if that fails too. */
  function Refusal(sent: bool): seq<Packet> { if sent then [Packet([-1], None)] else [] }

  function Unregistered(st: State, sock: nat, conn: Conn, packets: seq<Packet>): State {
    st.(open := st.open[sock := conn], wires := st.wires[sock := packets])
  }

  /** Everybody is told unless the list is a recycled one, then the newcomer is registered. */
  function Register(cfg: Config, st: State, sock: nat, id: nat, fds: seq<Fd>, recycled: bool): State
    requires Ordered(st)
  {
    var wires := if recycled then st.wires else Broadcast(st.wires, Sockets(st.clients), Batch(id, fds));
    State(st.clients[id := Member(sock, fds)], st.order + [id], st.recycled, st.open[sock := Conn(id, Some(fds))],
          wires[sock := JoinStream(Roster(cfg, st), Listing(id, fds), cfg.shmFd)], st.closed, st.wiped)
  }

  /** connectionMade with the id chosen at construction.  `created` is the outcome of creating
      eventfds, `sent` whether the initial information could be sent. */
  function Connect(cfg: Config, st: State, sock: nat, id: int, created: Option<seq<Fd>>, sent: bool): State
    requires Ordered(st) && id >= -1
  {
    var st' := st.(recycled := st.recycled - {id});
    if id == -1 then Unregistered(st', sock, Conn(-1, None), Refusal(sent))
    else if id in st.recycled then
      match st.recycled[id].fds
      case None => Unregistered(st', sock, Conn(id, None), [])
      case Some(fds) =>
        if sent then Register(cfg, st', sock, id, fds, true) else Unregistered(st', sock, Conn(id, Some(fds)), [])
    else
      match created
      case None => Unregistered(st', sock, Conn(if sent then -1 else id, None), Refusal(sent))
      case Some(fds) =>
        if sent then Register(cfg, st', sock, id, fds, false) else Unregistered(st', sock, Conn(id, Some(fds)), [])
  }

  function Remove(order: seq<nat>, id: int): seq<nat> {
    if order == [] then []
    else if order[|order| - 1] == id then Remove(order[..|order| - 1], id)
    else Remove(order[..|order| - 1], id) + [order[|order| - 1]]
  }

  function Without(clients: map<nat, Member>, id: int): map<nat, Member> { map k | k in clients && k != id :: clients[k] }

  /** connectionLost: whoever is registered under the id goes; the eventfds are kept, or the others
      are told, the eventfds closed and the mailslot wiped.  A connection without eventfds stops
      there with an error. */
  function Lose(cfg: Config, st: State, sock: nat): State
    requires sock in st.open
  {
    var conn := st.open[sock];
    var clients := Without(st.clients, conn.id);
    var wires := st.wires - {sock};
    State(clients, Remove(st.order, conn.id),
          if cfg.recycle then st.recycled[conn.id := conn] else st.recycled,
          st.open - {sock},
          if cfg.recycle then wires else Broadcast(wires, Sockets(clients), [Packet([conn.id], None)]),
          if cfg.recycle || conn.fds.None? then st.closed else st.closed + conn.fds.value,
          if cfg.recycle || conn.fds.None? then st.wiped else st.wiped + [conn.id])
  }

  // ---- runs

  datatype Step = Join(sock: nat, id: int, created: Option<seq<Fd>>, sent: bool) | Leave(sock: nat)

  predicate Enabled(cfg: Config, st: State, step: Step) {
    match step
    case Join(sock, id, created, _) =>
      && sock !in st.open && Allocates(cfg, st.clients.Keys, id) && Ordered(st)
      && (created.Some? ==> |created.value| == EventCount(cfg))
    case Leave(sock) => sock in st.open
  }

  function Apply(cfg: Config, st: State, step: Step): State
    requires Enabled(cfg, st, step)
  {
    match step
    case Join(sock, id, created, sent) => Connect(cfg, st, sock, id, created, sent)
    case Leave(sock) => Lose(cfg, st, sock)
  }

  predicate ValidRun(cfg: Config, st: State, run: seq<Step>)
    decreases |run|
  {
    run == [] || (Enabled(cfg, st, run[0]) && ValidRun(cfg, Apply(cfg, st, run[0]), run[1..]))
  }

  function Final(cfg: Config, st: State, run: seq<Step>): State
    requires ValidRun(cfg, st, run)
    decreases |run|
  {
    if run == [] then st else Final(cfg, Apply(cfg, st, run[0]), run[1..])
  }

  // ---- what every run keeps, failed handshakes included

  predicate MemberOk(cfg: Config, st: State, k: nat)
    requires k in st.clients
  {
    var m := st.clients[k];
    && 1 <= k <= cfg.nClients && k !in st.recycled && |m.fds| == EventCount(cfg)
    && m.sock in st.open && st.open[m.sock] == Conn(k, Some(m.fds))
  }

  predicate ListOk(cfg: Config, conn: Conn) {
    -1 <= conn.id <= cfg.nClients && conn.id != 0 && (conn.fds.Some? ==> |conn.fds.value| == EventCount(cfg))
  }

  predicate Inv(cfg: Config, st: State) {
    && Ordered(st) && st.open.Keys == st.wires.Keys
    && (forall k | k in st.clients :: MemberOk(cfg, st, k))
    && (forall k | k in st.recycled :: st.recycled[k].id == k && ListOk(cfg, st.recycled[k]))
    && (forall s | s in st.open :: ListOk(cfg, st.open[s]))
  }

  lemma AllocatedId(cfg: Config, active: set<nat>, id: int)
    requires Allocates(cfg, active, id)
    ensures id == -1 || (1 <= id <= cfg.nClients && id !in active)
  {
  }

  lemma OrderedAppend(st: State, id: nat, m: Member, st': State)
    requires Ordered(st) && id !in st.clients && st'.clients == st.clients[id := m] && st'.order == st.order + [id]
    ensures Ordered(st')
  {
    assert st'.order[|st.order|] == id;
    forall k | k in st'.clients ensures k in st'.order {
      if k != id {
        assert k in st.order;
      }
    }
  }

  lemma RegisterInv(cfg: Config, st: State, sock: nat, id: nat, fds: seq<Fd>, recycled: bool)
    requires Inv(cfg, st) && sock !in st.open && 1 <= id <= cfg.nClients && id !in st.clients && id !in st.recycled
    requires |fds| == EventCount(cfg)
    ensures Inv(cfg, Register(cfg, st, sock, id, fds, recycled))
  {
    var st' := Register(cfg, st, sock, id, fds, recycled);
    OrderedAppend(st, id, Member(sock, fds), st');
    forall k | k in st'.clients ensures MemberOk(cfg, st', k) {
      if k != id {
        assert MemberOk(cfg, st, k);
      }
    }
  }

  lemma UnregisteredInv(cfg: Config, st: State, sock: nat, conn: Conn, packets: seq<Packet>)
    requires Inv(cfg, st) && sock !in st.open && ListOk(cfg, conn)
    ensures Inv(cfg, Unregistered(st, sock, conn, packets))
  {
    var st' := Unregistered(st, sock, conn, packets);
    forall k | k in st'.clients ensures MemberOk(cfg, st', k) {
      assert MemberOk(cfg, st, k);
    }
  }

  lemma ForgetRecycled(cfg: Config, st: State, id: int)
    requires Inv(cfg, st)
    ensures Inv(cfg, st.(recycled := st.recycled - {id}))
  {
    var st' := st.(recycled := st.recycled - {id});
    forall k | k in st'.clients ensures MemberOk(cfg, st', k) {
      assert MemberOk(cfg, st, k);
    }
  }

  lemma JoinInv(cfg: Config, st: State, step: Step)
    requires Inv(cfg, st) && Enabled(cfg, st, step) && step.Join?
    ensures Inv(cfg, Apply(cfg, st, step))
  {
    var Join(sock, id, created, sent) := step;
    AllocatedId(cfg, st.clients.Keys, id);
    ForgetRecycled(cfg, st, id);
    var st1 := st.(recycled := st.recycled - {id});
    var was := id in st.recycled;
    var fds := if was then st.recycled[id].fds else created;
    if id != -1 && fds.Some? && sent {
      RegisterInv(cfg, st1, sock, id, fds.value, was);
    } else {
      var conn := Connect(cfg, st, sock, id, created, sent).open[sock];
      UnregisteredInv(cfg, st1, sock, conn, Connect(cfg, st, sock, id, created, sent).wires[sock]);
    }
  }

  lemma {:induction false} RemoveKeeps(order: seq<nat>, id: int)
    requires forall i, j | 0 <= i < j < |order| :: order[i] != order[j]
    ensures var r := Remove(order, id);
            && (forall k :: k in r <==> k in order && k != id)
            && (forall i, j | 0 <= i < j < |r| :: r[i] != r[j])
  {
    if order != [] {
      var init, last := order[..|order| - 1], order[|order| - 1];
      RemoveKeeps(init, id);
      assert order == init + [last];
      assert last !in init;
    }
  }

  lemma OrderedRemove(st: State, id: int, st': State)
    requires Ordered(st) && st'.clients == Without(st.clients, id) && st'.order == Remove(st.order, id)
    ensures Ordered(st')
  {
    RemoveKeeps(st.order, id);
    forall i | 0 <= i < |st'.order| ensures st'.order[i] in st'.clients {
      assert st'.order[i] in st'.order;
    }
  }

  lemma LeaveInv(cfg: Config, st: State, sock: nat)
    requires Inv(cfg, st) && sock in st.open
    ensures Inv(cfg, Lose(cfg, st, sock))
  {
    var st' := Lose(cfg, st, sock);
    OrderedRemove(st, st.open[sock].id, st');
    forall k | k in st'.clients ensures MemberOk(cfg, st', k) {
      assert MemberOk(cfg, st, k);
    }
  }

  lemma StepInv(cfg: Config, st: State, step: Step)
    requires Inv(cfg, st) && Enabled(cfg, st, step)
    ensures Inv(cfg, Apply(cfg, st, step))
  {
    match step
    case Join(_, _, _, _) => JoinInv(cfg, st, step);
    case Leave(sock) => LeaveInv(cfg, st, sock);
  }

  lemma {:induction false} RunInv(cfg: Config, st: State, run: seq<Step>)
    requires Inv(cfg, st) && ValidRun(cfg, st, run)
    ensures Inv(cfg, Final(cfg, st, run))
    decreases |run|
  {
    if run != [] {
      StepInv(cfg, st, run[0]);
      RunInv(cfg, Apply(cfg, st, run[0]), run[1..]);
    }
  }

  /** Recycling keeps every eventfd open and every mailslot as it is, whoever comes and goes. */
  lemma {:induction false} RecyclingClosesNothing(cfg: Config, st: State, run: seq<Step>)
    requires cfg.recycle && ValidRun(cfg, st, run)
    ensures Final(cfg, st, run).closed == st.closed && Final(cfg, st, run).wiped == st.wiped
    decreases |run|
  {
    if run != [] {
      RecyclingClosesNothing(cfg, Apply(cfg, st, run[0]), run[1..]);
    }
  }

  /** Over every run, failed handshakes and refused connections included: no id is both
      registered and recycled, registered ids lie in 1..nClients, and no two share a socket. */
  lemma ClientsAndRecycledDisjoint(cfg: Config, run: seq<Step>)
    requires ValidRun(cfg, Empty, run)
    ensures var st := Final(cfg, Empty, run);
            && (forall k | k in st.clients :: k !in st.recycled && 1 <= k <= cfg.nClients)
            && |st.clients| <= cfg.nClients
            && (forall j, k | j in st.clients && k in st.clients && j != k :: st.clients[j].sock != st.clients[k].sock)
  {
    RunInv(cfg, Empty, run);
    var st := Final(cfg, Empty, run);
    assert forall k | k in st.clients :: MemberOk(cfg, st, k);
    assert st.clients.Keys <= AllIds(cfg.nClients);
    PeerIds.SubsetSize(st.clients.Keys, AllIds(cfg.nClients));
  }
}
