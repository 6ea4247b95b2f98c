/** What one connection and one loss do to the switch, field by field and packet by packet, and what
    whole runs without recycling close. */
module SwitchEffects {
  import opened Prelude
  import opened SwitchClient
  import opened SwitchServer

  // ---- a connection

  /** One packet per eventfd behind what was there. */
  predicate ToldOf(before: seq<Packet>, after: seq<Packet>, id: int, fds: seq<Fd>) {
    && |after| == |before| + |fds| && after[..|before|] == before
    && forall v | 0 <= v < |fds| :: after[|before| + v] == Packet([id], Some(fds[v]))
  }

  /** The initial words first, the newcomer's own eventfds last. */
  predicate Greeted(stream: seq<Packet>, id: int, fds: seq<Fd>, shmFd: Fd) {
    var n := |fds|;
    && |stream| >= 1 + n && stream[0] == Packet([0, id, -1], Some(shmFd))
    && forall v | 0 <= v < n :: stream[|stream| - n + v] == Packet([id], Some(fds[v]))
  }

  /** The handshake went through: the newcomer is registered under its id; the others are told unless
      they know these eventfds from before. */
  predicate Registers(cfg: Config, st: State, st': State, sock: nat, id: int, fds: seq<Fd>, again: bool) {
    && id >= 0 && st'.clients == st.clients[id := Member(sock, fds)] && st'.order == st.order + [id]
    && st'.open == st.open[sock := Conn(id, Some(fds))]
    && st'.wires.Keys == st.wires.Keys + {sock} && Greeted(st'.wires[sock], id, fds, cfg.shmFd)
    && (forall k | k in st.clients ::
          var s := st.clients[k].sock;
          s in st.wires && s in st'.wires && if again then st'.wires[s] == st.wires[s] else ToldOf(st.wires[s], st'.wires[s], id, fds))
    && (forall s | s in st.wires && !Sock(st, s) :: s in st'.wires && st'.wires[s] == st.wires[s])
  }

  predicate Sock(st: State, s: nat) { exists k | k in st.clients :: st.clients[k].sock == s }

  /** It did not: only the connection itself and what was sent on it are new. */
  predicate TurnsAway(st: State, st': State, sock: nat, conn: Conn, packets: seq<Packet>) {
    && st'.clients == st.clients && st'.order == st.order
    && st'.open == st.open[sock := conn] && st'.wires == st.wires[sock := packets]
  }

  /** connectionMade, case by case.  A refused newcomer gets the single word -1. */
  predicate ConnectEffect(cfg: Config, st: State, st': State, sock: nat, id: int, created: Option<seq<Fd>>, sent: bool) {
    var again := id in st.recycled;
    var list := if again then st.recycled[id].fds else created;
    var minus := if sent then [Packet([-1], None)] else [];
    && st'.recycled == st.recycled - {id} && st'.closed == st.closed && st'.wiped == st.wiped
    && if id == -1 then TurnsAway(st, st', sock, Conn(-1, None), minus)
       else if list.None? && again then TurnsAway(st, st', sock, Conn(id, None), [])
       else if list.None? then TurnsAway(st, st', sock, Conn(if sent then -1 else id, None), minus)
       else if !sent then TurnsAway(st, st', sock, Conn(id, list), [])
       else Registers(cfg, st, st', sock, id, list.value, again)
  }

  lemma BatchTells(before: seq<Packet>, id: int, fds: seq<Fd>)
    ensures ToldOf(before, before + Batch(id, fds), id, fds)
  {
  }

  lemma JoinGreets(others: seq<Listing>, me: Listing, shmFd: Fd)
    ensures Greeted(JoinStream(others, me, shmFd), me.id, me.fds, shmFd)
  {
  }

  lemma RegisterIs(cfg: Config, st: State, sock: nat, id: nat, fds: seq<Fd>, again: bool)
    requires Inv(cfg, st) && sock !in st.open
    ensures Registers(cfg, st, Register(cfg, st, sock, id, fds, again), sock, id, fds, again)
  {
    var st' := Register(cfg, st, sock, id, fds, again);
    JoinGreets(Roster(cfg, st), Listing(id, fds), cfg.shmFd);
    forall k | k in st.clients
      ensures var s := st.clients[k].sock;
              s in st.wires && s in st'.wires && if again then st'.wires[s] == st.wires[s] else ToldOf(st.wires[s], st'.wires[s], id, fds)
    {
      assert MemberOk(cfg, st, k);
      var s := st.clients[k].sock;
      assert s in Sockets(st.clients);
      BatchTells(st.wires[s], id, fds);
    }
  }

  lemma ConnectIs(cfg: Config, st: State, step: Step)
    requires Inv(cfg, st) && Enabled(cfg, st, step) && step.Join?
    ensures ConnectEffect(cfg, st, Apply(cfg, st, step), step.sock, step.id, step.created, step.sent)
    ensures |st.clients| >= cfg.nClients && step.sent ==> Apply(cfg, st, step).wires[step.sock] == [Packet([-1], None)]
  {
    AllocatedId(cfg, st.clients.Keys, step.id);
    ForgetRecycled(cfg, st, step.id);
    var st1, again := st.(recycled := st.recycled - {step.id}), step.id in st.recycled;
    var list := if again then st.recycled[step.id].fds else step.created;
    if step.id != -1 && list.Some? && step.sent {
      RegisterIs(cfg, st1, step.sock, step.id, list.value, again);
      SameSocks(st, st1);
    }
  }

  lemma SameSocks(st: State, st1: State)
    requires st1.clients == st.clients
    ensures forall s :: Sock(st, s) <==> Sock(st1, s)
  {
  }

  // ---- a loss

  /** connectionLost: whoever is registered under the id goes.  With recycling the connection is kept
      and that is all; without, everybody left is told, and the eventfds of this connection are closed
      and its mailslot wiped, if it has any. */
  predicate LoseEffect(cfg: Config, st: State, st': State, sock: nat)
    requires sock in st.open
  {
    var conn := st.open[sock];
    && st'.clients.Keys == st.clients.Keys - {conn.id}
    && (forall k | k in st'.clients :: st'.clients[k] == st.clients[k])
    && st'.open == st.open - {sock} && st'.wires.Keys == st.wires.Keys - {sock}
    && (forall s | s in st'.wires ::
          st'.wires[s] == if !cfg.recycle && Sock(st', s) then st.wires[s] + [Packet([conn.id], None)] else st.wires[s])
    && (if cfg.recycle then st'.recycled == st.recycled[conn.id := conn] else st'.recycled == st.recycled)
    && (if cfg.recycle || conn.fds.None? then st'.closed == st.closed && st'.wiped == st.wiped
        else st'.closed == st.closed + conn.fds.value && st'.wiped == st.wiped + [conn.id])
  }

  lemma LoseIs(cfg: Config, st: State, sock: nat)
    requires Inv(cfg, st) && sock in st.open
    ensures LoseEffect(cfg, st, Lose(cfg, st, sock), sock)
  {
    var st' := Lose(cfg, st, sock);
    forall s ensures s in Sockets(st'.clients) <==> Sock(st', s) {
    }
  }

  // ---- what runs without recycling close

  /** The connections that leave in a run, in order. */
  function Gone(cfg: Config, st: State, run: seq<Step>): seq<Conn>
    requires ValidRun(cfg, st, run)
    decreases |run|
  {
    if run == [] then []
    else (if run[0].Leave? then [st.open[run[0].sock]] else []) + Gone(cfg, Apply(cfg, st, run[0]), run[1..])
  }

  function FdsOf(gone: seq<Conn>): seq<Fd> {
    if gone == [] then [] else (if gone[0].fds.Some? then gone[0].fds.value else []) + FdsOf(gone[1..])
  }

  function IdsOf(gone: seq<Conn>): seq<int> {
    if gone == [] then [] else (if gone[0].fds.Some? then [gone[0].id] else []) + IdsOf(gone[1..])
  }

  lemma OneStep(cfg: Config, st: State, step: Step)
    requires !cfg.recycle && Enabled(cfg, st, step)
    ensures var st' := Apply(cfg, st, step);
            var gone := if step.Leave? then [st.open[step.sock]] else [];
            Closes(st, gone, st')
  {
    if step.Leave? {
      OneGone(st.open[step.sock]);
    } else {
      JoinOpens(cfg, st, step);
    }
  }

  lemma OneGone(conn: Conn)
    ensures FdsOf([conn]) == (if conn.fds.Some? then conn.fds.value else [])
    ensures IdsOf([conn]) == (if conn.fds.Some? then [conn.id] else [])
  {
    assert [conn][1..] == [];
  }

  /** A connection closes nothing and brings its own eventfds or none. */
  lemma JoinOpens(cfg: Config, st: State, step: Step)
    requires Enabled(cfg, st, step) && step.Join?
    ensures var st' := Apply(cfg, st, step);
            && st'.closed == st.closed && st'.wiped == st.wiped && st'.recycled == st.recycled - {step.id}
            && step.sock in st'.open && st'.open == st.open[step.sock := st'.open[step.sock]]
            && (step.id !in st.recycled && st'.open[step.sock].fds.Some? ==> st'.open[step.sock].fds == step.created)
  {
    AllocatedId(cfg, st.clients.Keys, step.id);
    var Join(sock, id, created, sent) := step;
    var st1, again := st.(recycled := st.recycled - {id}), id in st.recycled;
    var list := if again then st.recycled[id].fds else created;
    if id != -1 && list.Some? && sent {
      assert Apply(cfg, st, step) == Register(cfg, st1, sock, id, list.value, again);
      RegisterOpens(cfg, st1, sock, id, list.value, again);
    } else {
      var st' := Apply(cfg, st, step);
      assert st' == Unregistered(st1, sock, st'.open[sock], st'.wires[sock]);
    }
  }

  lemma RegisterOpens(cfg: Config, st: State, sock: nat, id: nat, fds: seq<Fd>, again: bool)
    requires Ordered(st)
    ensures var st' := Register(cfg, st, sock, id, fds, again);
            && st'.closed == st.closed && st'.wiped == st.wiped && st'.recycled == st.recycled
            && st'.open == st.open[sock := Conn(id, Some(fds))]
  {
  }

  lemma {:induction false} FdsConcat(a: seq<Conn>, b: seq<Conn>)
    ensures FdsOf(a + b) == FdsOf(a) + FdsOf(b)
  {
    if a == [] {
      assert a + b == b;
    } else {
      assert (a + b)[1..] == a[1..] + b;
      FdsConcat(a[1..], b);
    }
  }

  lemma {:induction false} IdsConcat(a: seq<Conn>, b: seq<Conn>)
    ensures IdsOf(a + b) == IdsOf(a) + IdsOf(b)
  {
    if a == [] {
      assert a + b == b;
    } else {
      assert (a + b)[1..] == a[1..] + b;
      IdsConcat(a[1..], b);
    }
  }

  /** From `before` to `after` these connections were closed and wiped. */
  predicate Closes(before: State, gone: seq<Conn>, after: State) {
    after.closed == before.closed + FdsOf(gone) && after.wiped == before.wiped + IdsOf(gone)
  }

  lemma ClosesChain(a: State, b: State, c: State, first: seq<Conn>, rest: seq<Conn>)
    requires Closes(a, first, b) && Closes(b, rest, c)
    ensures Closes(a, first + rest, c)
  {
    FdsConcat(first, rest);
    IdsConcat(first, rest);
  }

  /** Over every run without recycling, what is closed are the eventfds of the connections that left,
      connection by connection, and what is wiped are their mailslots. */
  lemma {:induction false} ClosesTheGone(cfg: Config, st: State, run: seq<Step>)
    requires !cfg.recycle && ValidRun(cfg, st, run)
    ensures Closes(st, Gone(cfg, st, run), Final(cfg, st, run))
    decreases |run|
  {
    if run != [] {
      var st', first := Apply(cfg, st, run[0]), if run[0].Leave? then [st.open[run[0].sock]] else [];
      OneStep(cfg, st, run[0]);
      ClosesTheGone(cfg, st', run[1..]);
      ClosesChain(st, st', Final(cfg, st', run[1..]), first, Gone(cfg, st', run[1..]));
    }
  }

  predicate Different(fds: seq<Fd>) { forall i, j | 0 <= i < j < |fds| :: fds[i] != fds[j] }

  predicate Apart(a: seq<Fd>, b: seq<Fd>) { forall x | x in a :: x !in b }

  /** Eventfds have one owner: an open connection, or none once they are closed. */
  predicate Owned(st: State) {
    && Different(st.closed)
    && (forall s | s in st.open && st.open[s].fds.Some? :: Different(st.open[s].fds.value) && Apart(st.open[s].fds.value, st.closed))
    && (forall s, t | s in st.open && t in st.open && s != t && st.open[s].fds.Some? && st.open[t].fds.Some? ::
          Apart(st.open[s].fds.value, st.open[t].fds.value))
  }

  /** The operating system hands out eventfds that have not been handed out before. */
  predicate NewFds(st: State, step: Step) {
    step.Join? && step.created.Some? ==>
      && Different(step.created.value) && Apart(step.created.value, st.closed)
      && forall s | s in st.open && st.open[s].fds.Some? ::
           Apart(step.created.value, st.open[s].fds.value) && Apart(st.open[s].fds.value, step.created.value)
  }

  predicate NewThroughout(cfg: Config, st: State, run: seq<Step>)
    requires ValidRun(cfg, st, run)
    decreases |run|
  {
    run == [] || (NewFds(st, run[0]) && NewThroughout(cfg, Apply(cfg, st, run[0]), run[1..]))
  }

  lemma DifferentConcat(a: seq<Fd>, b: seq<Fd>)
    requires Different(a) && Different(b) && Apart(b, a)
    ensures Different(a + b)
  {
    forall i, j | 0 <= i < j < |a + b| ensures (a + b)[i] != (a + b)[j] {
      if i < |a| <= j {
        assert b[j - |a|] in b && a[i] in a;
      }
    }
  }

  lemma LeaveOwned(cfg: Config, st: State, sock: nat)
    requires !cfg.recycle && Owned(st) && st.recycled == map[] && sock in st.open
    ensures Owned(Lose(cfg, st, sock)) && Lose(cfg, st, sock).recycled == map[]
  {
    var conn, st' := st.open[sock], Lose(cfg, st, sock);
    if conn.fds.Some? {
      DifferentConcat(st.closed, conn.fds.value);
      forall s | s in st'.open && st'.open[s].fds.Some? ensures Apart(st'.open[s].fds.value, st.closed + conn.fds.value) {
        assert Apart(st.open[s].fds.value, conn.fds.value);
      }
    }
  }

  lemma JoinOwned(cfg: Config, st: State, step: Step)
    requires Owned(st) && st.recycled == map[] && Enabled(cfg, st, step) && step.Join? && NewFds(st, step)
    ensures Owned(Apply(cfg, st, step)) && Apply(cfg, st, step).recycled == map[]
  {
    JoinOpens(cfg, st, step);
    assert st.recycled - {step.id} == map[];
    OwnedBy(st, Apply(cfg, st, step), step);
  }

  lemma OwnedBy(st: State, st': State, step: Step)
    requires Owned(st) && step.Join? && NewFds(st, step) && step.sock !in st.open && st'.closed == st.closed
    requires step.sock in st'.open && st'.open == st.open[step.sock := st'.open[step.sock]]
    requires st'.open[step.sock].fds.Some? ==> st'.open[step.sock].fds == step.created
    ensures Owned(st')
  {
  }

  /** Without recycling no eventfd is closed twice, and none of a connection that is still open. */
  lemma {:induction false} ClosedOnce(cfg: Config, st: State, run: seq<Step>)
    requires !cfg.recycle && Owned(st) && st.recycled == map[] && ValidRun(cfg, st, run) && NewThroughout(cfg, st, run)
    ensures Owned(Final(cfg, st, run))
    decreases |run|
  {
    if run != [] {
      OwnedStep(cfg, st, run[0]);
      ClosedOnce(cfg, Apply(cfg, st, run[0]), run[1..]);
    }
  }

  lemma OwnedStep(cfg: Config, st: State, step: Step)
    requires !cfg.recycle && Owned(st) && st.recycled == map[] && Enabled(cfg, st, step) && NewFds(st, step)
    ensures Owned(Apply(cfg, st, step)) && Apply(cfg, st, step).recycled == map[]
  {
    match step
    case Leave(sock) => LeaveOwned(cfg, st, sock);
    case Join(_, _, _, _) => JoinOwned(cfg, st, step);
  }

  /** From start-up, in one statement. */
  lemma ClosesExactly(cfg: Config, run: seq<Step>)
    requires !cfg.recycle && ValidRun(cfg, Empty, run) && NewThroughout(cfg, Empty, run)
    ensures var end := Final(cfg, Empty, run);
            && end.closed == FdsOf(Gone(cfg, Empty, run)) && end.wiped == IdsOf(Gone(cfg, Empty, run))
            && Different(end.closed)
            && forall s | s in end.open && end.open[s].fds.Some? :: Apart(end.open[s].fds.value, end.closed)
  {
    ClosesTheGone(cfg, Empty, run);
    assert [] + FdsOf(Gone(cfg, Empty, run)) == FdsOf(Gone(cfg, Empty, run));
    assert [] + IdsOf(Gone(cfg, Empty, run)) == IdsOf(Gone(cfg, Empty, run));
    ClosedOnce(cfg, Empty, run);
  }
}
