/** Server, sockets and clients together: the directory agrees after every run. */
module DirectoryRuns {
  import opened Prelude
  import opened Directory
  import opened PeerIds

  datatype Server = Server(nVectors: nat, shmFd: Fd, curId: nat, peers: seq<Peer>)

  /** `wires[s]` is what the server has sent on socket `s` and its client has not yet read. */
  datatype State = State(server: Server, wires: map<nat, seq<Msg>>, clients: map<nat, Client>)

  datatype Step =
    | Connect(sock: nat, id: nat, vectors: seq<Notifier>)
    | ConnectFails(curId: nat)
    | Disconnect(i: nat)
    | Deliver(sock: nat)

  function Socks(peers: seq<Peer>): set<nat> { set i | 0 <= i < |peers| :: peers[i].sock }

  function Ids(peers: seq<Peer>): set<nat> { set i | 0 <= i < |peers| :: peers[i].id }

  /** One batch to each of these peers. */
  function Broadcast(wires: map<nat, seq<Msg>>, peers: seq<Peer>, batch: seq<Msg>): (w: map<nat, seq<Msg>>)
    requires Socks(peers) <= wires.Keys
    ensures w.Keys == wires.Keys
  {
    if peers == [] then wires
    else
      var init, sock := peers[..|peers| - 1], peers[|peers| - 1].sock;
      assert sock in Socks(peers);
      assert forall s | s in Socks(init) :: s in Socks(peers);
      var w := Broadcast(wires, init, batch);
      w[sock := w[sock] + batch]
  }

  lemma {:induction false} BroadcastAt(wires: map<nat, seq<Msg>>, peers: seq<Peer>, batch: seq<Msg>, sock: nat)
    requires Socks(peers) <= wires.Keys && sock in wires
    requires forall i, j | 0 <= i < j < |peers| :: peers[i].sock != peers[j].sock
    ensures Broadcast(wires, peers, batch)[sock] == wires[sock] + if sock in Socks(peers) then batch else []
  {
    if peers == [] {
      assert wires[sock] + [] == wires[sock];
    } else {
      var init, last := peers[..|peers| - 1], peers[|peers| - 1];
      assert forall s | s in Socks(init) :: s in Socks(peers);
      assert Socks(peers) == Socks(init) + {last.sock};
      assert last.sock !in Socks(init);
      BroadcastAt(wires, init, batch, sock);
    }
  }

  function Without<T>(s: seq<T>, i: nat): seq<T>
    requires i < |s|
  {
    s[..i] + s[i + 1..]
  }

  lemma SocksAppend(peers: seq<Peer>, peer: Peer)
    ensures Socks(peers + [peer]) == Socks(peers) + {peer.sock}
  {
    var all := peers + [peer];
    assert all[|peers|] == peer;
    forall i | 0 <= i < |peers| ensures peers[i].sock in Socks(all) {
      assert all[i] == peers[i];
    }
  }

  lemma DistinctAppend(peers: seq<Peer>, peer: Peer)
    requires Distinct(peers) && peer.id !in Ids(peers) && peer.sock !in Socks(peers)
    ensures Distinct(peers + [peer])
  {
    var all := peers + [peer];
    forall i, j | 0 <= i < j < |all| ensures all[i].id != all[j].id && all[i].sock != all[j].sock {
      assert all[i].id in Ids(peers) && all[i].sock in Socks(peers);
      if j < |peers| {
        assert all[i] == peers[i] && all[j] == peers[j];
      }
    }
  }

  lemma WithoutAt<T>(s: seq<T>, i: nat, k: nat)
    requires i < |s| && k < |s| - 1
    ensures Without(s, i)[k] == s[if k < i then k else k + 1]
  {
  }

  lemma WithoutKeeps(peers: seq<Peer>, i: nat)
    requires i < |peers| && Distinct(peers)
    ensures Distinct(Without(peers, i))
    ensures forall k | 0 <= k < |peers| - 1 :: Without(peers, i)[k] == peers[if k < i then k else k + 1]
  {
    var rest := Without(peers, i);
    forall k | 0 <= k < |rest| ensures rest[k] == peers[if k < i then k else k + 1] {
      WithoutAt(peers, i, k);
    }
  }

  lemma SocksWithout(peers: seq<Peer>, i: nat)
    requires i < |peers| && Distinct(peers)
    ensures Socks(Without(peers, i)) == Socks(peers) - {peers[i].sock}
  {
    var rest := Without(peers, i);
    WithoutKeeps(peers, i);
    forall s | s in Socks(peers) && s != peers[i].sock ensures s in Socks(rest) {
      var j :| 0 <= j < |peers| && peers[j].sock == s;
      assert rest[if j < i then j else j - 1].sock == s;
    }
  }

  predicate Enabled(st: State, step: Step) {
    match step
    case Connect(sock, id, vectors) =>
      && sock !in st.wires && Socks(st.server.peers) <= st.wires.Keys
      && |vectors| == st.server.nVectors
      && FirstFree(st.server.curId, Ids(st.server.peers), id)
    case ConnectFails(curId) => curId < IDS
    case Disconnect(i) => i < |st.server.peers| && Socks(st.server.peers) <= st.wires.Keys
    case Deliver(sock) => sock in st.wires && st.wires[sock] != [] && sock in st.clients
  }

  function Apply(st: State, step: Step): State
    requires Enabled(st, step)
  {
    var Server(nVectors, shmFd, curId, peers) := st.server;
    match step
    case Connect(sock, id, vectors) =>
      var peer := Peer(id, sock, vectors);
      State(Server(nVectors, shmFd, (id + 1) % IDS, peers + [peer]),
            Broadcast(st.wires, peers, Batch(id, WriteEnds(vectors)))[sock := Welcome(peers, peer, shmFd)],
            st.clients[sock := NewClient])
    case ConnectFails(cur) => st.(server := st.server.(curId := cur))
    case Disconnect(i) =>
      var gone := peers[i];
      assert forall k | 0 <= k < |Without(peers, i)| :: Without(peers, i)[k] in peers;
      State(st.server.(peers := Without(peers, i)),
            Broadcast(st.wires, Without(peers, i), [Msg(gone.id, None)]) - {gone.sock},
            st.clients - {gone.sock})
    case Deliver(sock) =>
      st.(wires := st.wires[sock := st.wires[sock][1..]],
          clients := st.clients[sock := Receive(st.clients[sock], st.wires[sock][0])])
  }

  /** A server just started; the command line admits any vector count up to the maximum. */
  predicate Init(st: State) {
    && st.server.nVectors <= MAX_VECTORS && st.server.curId < IDS
    && st.server.peers == [] && st.wires == map[] && st.clients == map[]
  }

  predicate ValidRun(st: State, run: seq<Step>)
    decreases |run|
  {
    run == [] || (Enabled(st, run[0]) && ValidRun(Apply(st, run[0]), run[1..]))
  }

  function Final(st: State, run: seq<Step>): State
    requires ValidRun(st, run)
    decreases |run|
  {
    if run == [] then st else Final(Apply(st, run[0]), run[1..])
  }

  // ---- what the batches and tables hold, vector by vector

  lemma {:induction false} TableOfOthers(peers: seq<Peer>, sock: nat)
    requires forall k | 0 <= k < |peers| :: peers[k].sock != sock
    ensures |Table(peers, sock)| == |peers|
    ensures forall k | 0 <= k < |peers| :: Table(peers, sock)[k] == Entry(peers[k].id, WriteEnds(peers[k].vectors))
  {
    if peers != [] {
      TableOfOthers(peers[..|peers| - 1], sock);
    }
  }

  lemma TableOfSelf(peer: Peer)
    ensures Table([peer], peer.sock) == []
  {
    assert [peer][..0] == [];
  }

  lemma TableSkips(before: seq<Peer>, peer: Peer, after: seq<Peer>)
    ensures Table(before + ([peer] + after), peer.sock) == Table(before, peer.sock) + Table(after, peer.sock)
  {
    TableConcat(before, [peer] + after, peer.sock);
    TableConcat([peer], after, peer.sock);
    TableOfSelf(peer);
  }

  lemma TableParts(before: seq<Peer>, peer: Peer, after: seq<Peer>, k: nat)
    requires forall i | 0 <= i < |before| :: before[i].sock != peer.sock
    requires forall i | 0 <= i < |after| :: after[i].sock != peer.sock
    ensures var table := Table(before + ([peer] + after), peer.sock);
            && |table| == |before| + |after|
            && (k < |before| ==> table[k] == Entry(before[k].id, WriteEnds(before[k].vectors)))
            && (k < |after| ==> table[|before| + k] == Entry(after[k].id, WriteEnds(after[k].vectors)))
  {
    TableSkips(before, peer, after);
    TableOfOthers(before, peer.sock);
    TableOfOthers(after, peer.sock);
  }

  lemma Parts(peers: seq<Peer>, i: nat)
    requires i < |peers|
    ensures peers == peers[..i] + ([peers[i]] + peers[i + 1..])
  {
  }

  /** Everybody but peer `i`, in the server's order. */
  lemma TableWithout(peers: seq<Peer>, i: nat, j: nat)
    requires i < |peers| && Distinct(peers)
    ensures |Table(peers, peers[i].sock)| == |peers| - 1
    ensures j < |peers| && j != i ==>
              Table(peers, peers[i].sock)[if j < i then j else j - 1] == Entry(peers[j].id, WriteEnds(peers[j].vectors))
  {
    Parts(peers, i);
    TableParts(peers[..i], peers[i], peers[i + 1..], if j <= i then j else j - i - 1);
  }

  /** The eventfds with which others ring this peer, and those it listens on. */
  predicate RingsBy(fds: seq<Fd>, vectors: seq<Notifier>) {
    |fds| == |vectors| && forall v | 0 <= v < |fds| :: fds[v] == vectors[v].wfd
  }

  predicate ListensBy(fds: seq<Fd>, vectors: seq<Notifier>) {
    |fds| == |vectors| && forall v | 0 <= v < |fds| :: fds[v] == vectors[v].rfd
  }

  /** A client that knows exactly the other peers, in the server's order, with their vectors in
      order, and its own. */
  predicate Complete(c: Client, peers: seq<Peer>, i: nat)
    requires i < |peers|
  {
    && c.phase.Running? && c.local.id == peers[i].id && ListensBy(c.local.vectors, peers[i].vectors)
    && |c.peers| == |peers| - 1
    && forall j | 0 <= j < |peers| && j != i ::
         var e := c.peers[if j < i then j else j - 1];
         e.id == peers[j].id && RingsBy(e.vectors, peers[j].vectors)
  }

  lemma CompleteWhenAgreed(c: Client, peers: seq<Peer>, i: nat)
    requires i < |peers| && Distinct(peers)
    requires c == Client(Running, Entry(peers[i].id, ReadEnds(peers[i].vectors)), Table(peers, peers[i].sock))
    ensures Complete(c, peers, i)
  {
    TableWithout(peers, i, i);
    forall j | 0 <= j < |peers| && j != i
      ensures c.peers[if j < i then j else j - 1] == Entry(peers[j].id, WriteEnds(peers[j].vectors))
    {
      TableWithout(peers, i, j);
    }
  }

  // ---- agreement

  predicate Shape(st: State) {
    var peers := st.server.peers;
    && 1 <= st.server.nVectors <= MAX_VECTORS && st.server.curId < IDS
    && Distinct(peers) && Vectored(peers, st.server.nVectors)
    && (forall i | 0 <= i < |peers| :: peers[i].id < IDS)
    && Socks(peers) == st.wires.Keys == st.clients.Keys
  }

  /** The client of peer `i`, once it has read everything sent to it, has its own vectors and
      exactly the other peers of the server, in the server's order, with their vectors. */
  predicate Agrees(st: State, i: nat)
    requires i < |st.server.peers| && st.server.peers[i].sock in st.wires && st.server.peers[i].sock in st.clients
  {
    var me := st.server.peers[i];
    Fold(st.clients[me.sock], st.wires[me.sock])
    == Client(Running, Entry(me.id, ReadEnds(me.vectors)), Table(st.server.peers, me.sock))
  }

  predicate Inv(st: State) {
    && Shape(st)
    && forall i | 0 <= i < |st.server.peers| :: Agreed(st, i)
  }

  predicate Agreed(st: State, i: nat)
    requires i < |st.server.peers|
  {
    st.server.peers[i].sock in st.wires && st.server.peers[i].sock in st.clients && Agrees(st, i)
  }

  lemma ConnectShape(st: State, sock: nat, id: nat, vectors: seq<Notifier>)
    requires Inv(st) && Enabled(st, Connect(sock, id, vectors))
    ensures Shape(Apply(st, Connect(sock, id, vectors)))
  {
    var peers := st.server.peers;
    FirstFreeUnique(st.server.curId, Ids(peers), id, id);
    DistinctAppend(peers, Peer(id, sock, vectors));
    SocksAppend(peers, Peer(id, sock, vectors));
  }

  /** A caught-up client stays right when a newcomer is advertised to it. */
  lemma FoldArrival(c: Client, wire: seq<Msg>, me: Peer, peers: seq<Peer>, peer: Peer)
    requires Fold(c, wire) == Client(Running, Entry(me.id, ReadEnds(me.vectors)), Table(peers, me.sock))
    requires peer.id !in Ids(peers) && peer.id != me.id && peer.sock != me.sock && 1 <= |peer.vectors| <= MAX_VECTORS
    ensures Fold(c, wire + Batch(peer.id, WriteEnds(peer.vectors)))
            == Client(Running, Entry(me.id, ReadEnds(me.vectors)), Table(peers + [peer], me.sock))
  {
    FoldConcat(c, wire, Batch(peer.id, WriteEnds(peer.vectors)));
    assert forall j | 0 <= j < |peers| :: peers[j].id in Ids(peers);
    TableUnknown(peers, me.sock, peer.id);
    FoldNewPeer(Fold(c, wire), peer.id, WriteEnds(peer.vectors));
    assert (peers + [peer])[..|peers|] == peers;
  }

  lemma ConnectAgrees(st: State, sock: nat, id: nat, vectors: seq<Notifier>, i: nat)
    requires Inv(st) && Enabled(st, Connect(sock, id, vectors)) && i < |st.server.peers|
    ensures Agreed(Apply(st, Connect(sock, id, vectors)), i)
  {
    var peers, me := st.server.peers, st.server.peers[i];
    assert Agreed(st, i);
    assert me.sock in Socks(peers) && me.id in Ids(peers);
    FirstFreeUnique(st.server.curId, Ids(peers), id, id);
    BroadcastAt(st.wires, peers, Batch(id, WriteEnds(vectors)), me.sock);
    FoldArrival(st.clients[me.sock], st.wires[me.sock], me, peers, Peer(id, sock, vectors));
  }

  lemma NewcomerAgrees(st: State, sock: nat, id: nat, vectors: seq<Notifier>)
    requires Inv(st) && Enabled(st, Connect(sock, id, vectors))
    ensures Agreed(Apply(st, Connect(sock, id, vectors)), |st.server.peers|)
  {
    var peers, peer := st.server.peers, Peer(id, sock, vectors);
    ConnectShape(st, sock, id, vectors);
    FoldWelcome(peers, peer, st.server.shmFd, st.server.nVectors);
    assert (peers + [peer])[..|peers|] == peers;
  }

  lemma ConnectInv(st: State, sock: nat, id: nat, vectors: seq<Notifier>)
    requires Inv(st) && Enabled(st, Connect(sock, id, vectors))
    ensures Inv(Apply(st, Connect(sock, id, vectors)))
  {
    var st' := Apply(st, Connect(sock, id, vectors));
    ConnectShape(st, sock, id, vectors);
    forall i | 0 <= i < |st'.server.peers| ensures Agreed(st', i) {
      if i < |st.server.peers| {
        ConnectAgrees(st, sock, id, vectors, i);
      } else {
        NewcomerAgrees(st, sock, id, vectors);
      }
    }
  }

  lemma DisconnectShape(st: State, i: nat)
    requires Inv(st) && Enabled(st, Disconnect(i))
    ensures Shape(Apply(st, Disconnect(i)))
  {
    var peers, rest := st.server.peers, Without(st.server.peers, i);
    WithoutKeeps(peers, i);
    SocksWithout(peers, i);
  }

  lemma DisconnectAgrees(st: State, i: nat, j: nat)
    requires Inv(st) && Enabled(st, Disconnect(i)) && j < |st.server.peers| && j != i
    ensures var me := st.server.peers[j];
            var st' := Apply(st, Disconnect(i));
            && me.sock in st'.wires && me.sock in st'.clients
            && Fold(st'.clients[me.sock], st'.wires[me.sock])
               == Client(Running, Entry(me.id, ReadEnds(me.vectors)), Table(st'.server.peers, me.sock))
  {
    var peers, me, gone := st.server.peers, st.server.peers[j], st.server.peers[i];
    var rest := Without(peers, i);
    var bye := [Msg(gone.id, None)];
    assert Agreed(st, j);
    WithoutKeeps(peers, i);
    SocksWithout(peers, i);
    assert me.sock in Socks(peers);
    BroadcastAt(st.wires, rest, bye, me.sock);
    var c := Fold(st.clients[me.sock], st.wires[me.sock]);
    FoldConcat(st.clients[me.sock], st.wires[me.sock], bye);
    assert bye[..0] == [];
    FoldDeparture(c, peers, i, j);
  }

  lemma DisconnectInv(st: State, i: nat)
    requires Inv(st) && Enabled(st, Disconnect(i))
    ensures Inv(Apply(st, Disconnect(i)))
  {
    var st' := Apply(st, Disconnect(i));
    DisconnectShape(st, i);
    forall k | 0 <= k < |st'.server.peers| ensures Agreed(st', k) {
      RemainingAgrees(st, i, k);
    }
  }

  lemma RemainingAgrees(st: State, i: nat, k: nat)
    requires Inv(st) && Enabled(st, Disconnect(i)) && k < |st.server.peers| - 1
    ensures Agreed(Apply(st, Disconnect(i)), k)
  {
    WithoutAt(st.server.peers, i, k);
    DisconnectAgrees(st, i, if k < i then k else k + 1);
  }

  lemma FoldHead(c: Client, wire: seq<Msg>)
    requires wire != []
    ensures Fold(Receive(c, wire[0]), wire[1..]) == Fold(c, wire)
  {
    assert [wire[0]] + wire[1..] == wire;
    FoldConcat(c, [wire[0]], wire[1..]);
    assert [wire[0]][..0] == [];
    assert Fold(c, [wire[0]]) == Receive(c, wire[0]);
  }

  lemma DeliverAgrees(st: State, sock: nat, i: nat)
    requires Enabled(st, Deliver(sock)) && i < |st.server.peers| && Agreed(st, i)
    ensures Agreed(Apply(st, Deliver(sock)), i)
  {
    FoldHead(st.clients[sock], st.wires[sock]);
  }

  lemma DeliverInv(st: State, sock: nat)
    requires Inv(st) && Enabled(st, Deliver(sock))
    ensures Inv(Apply(st, Deliver(sock)))
  {
    var st' := Apply(st, Deliver(sock));
    assert Shape(st');
    forall i | 0 <= i < |st'.server.peers| ensures Agreed(st', i) {
      DeliverAgrees(st, sock, i);
    }
  }

  lemma {:induction false} RunInv(st: State, run: seq<Step>)
    requires Inv(st) && ValidRun(st, run)
    ensures Inv(Final(st, run))
    decreases |run|
  {
    if run != [] {
      var st' := Apply(st, run[0]);
      match run[0] {
        case Connect(sock, id, vectors) => ConnectInv(st, sock, id, vectors);
        case ConnectFails(cur) =>
          assert forall i | 0 <= i < |st.server.peers| :: Agreed(st, i) ==> Agreed(st', i);
        case Disconnect(i) => DisconnectInv(st, i);
        case Deliver(sock) => DeliverInv(st, sock);
      }
      RunInv(st', run[1..]);
    }
  }

  /** Directory agreement: after any run of connects, failed connects, disconnects and deliveries,
      with ids reused at will, every client that has caught up holds exactly what the server has;
      one that has not will, once it reads what is already on its wire; and no client ever meets a
      message it cannot accept. */
  lemma DirectoryAgreement(init: State, run: seq<Step>, i: nat)
    requires Init(init) && 1 <= init.server.nVectors
    requires ValidRun(init, run) && i < |Final(init, run).server.peers|
    ensures var st := Final(init, run);
            var me := st.server.peers[i];
            && Agreed(st, i)
            && Complete(Fold(st.clients[me.sock], st.wires[me.sock]), st.server.peers, i)
            && !st.clients[me.sock].phase.Failed?
            && (st.wires[me.sock] == [] ==> Complete(st.clients[me.sock], st.server.peers, i))
  {
    assert Socks([]) == {};
    RunInv(init, run);
    var st := Final(init, run);
    assert Agreed(st, i);
    var me := st.server.peers[i];
    CompleteWhenAgreed(Fold(st.clients[me.sock], st.wires[me.sock]), st.server.peers, i);
    if st.clients[me.sock].phase.Failed? {
      FailedStays(st.clients[me.sock], st.wires[me.sock]);
    }
  }

  lemma {:induction false} FailedStays(c: Client, stream: seq<Msg>)
    requires c.phase.Failed?
    ensures Fold(c, stream) == c
  {
    if stream != [] {
      FailedStays(c, stream[..|stream| - 1]);
    }
  }

  // ---- no vectors, no agreement

  /** With no vectors at all, which the server also admits, nothing is ever sent about a newcomer:
      every join breaks the agreement of every client that was there before. */
  lemma NoVectorsNoAgreement(st: State, sock: nat, id: nat, i: nat)
    requires st.server.nVectors == 0 && Enabled(st, Connect(sock, id, [])) && Distinct(st.server.peers)
    requires i < |st.server.peers| && Agreed(st, i)
    ensures !Agreed(Apply(st, Connect(sock, id, [])), i)
  {
    var peers, me := st.server.peers, st.server.peers[i];
    var st' := Apply(st, Connect(sock, id, []));
    BroadcastAt(st.wires, peers, Batch(id, WriteEnds([])), me.sock);
    assert st'.wires[me.sock] == st.wires[me.sock];
    assert st'.server.peers[..|peers|] == peers;
    assert |Table(st'.server.peers, me.sock)| == |Table(peers, me.sock)| + 1;
  }

  /** The first client to connect agrees even so: there is nobody else to know. */
  lemma FirstAlone(init: State, sock: nat)
    requires Init(init) && init.server.nVectors == 0
    ensures var id := init.server.curId;
            && Enabled(init, Connect(sock, id, []))
            && var st := Apply(init, Connect(sock, id, []));
            && st.server.peers == [Peer(id, sock, [])] && st.server.curId == (id + 1) % IDS && st.server.nVectors == 0
            && st.wires.Keys == {sock} && Agreed(st, 0)
  {
    var id := init.server.curId;
    assert Candidate(id, 0) == id;
    assert Ids([]) == {} && Socks([]) == {};
    assert FirstFree(id, {}, id);
    FoldInitialInfo(id, init.server.shmFd);
    var peer := Peer(id, sock, []);
    assert Welcome([], peer, init.server.shmFd) == InitialInfo(id, init.server.shmFd);
    assert [peer][..0] == [];
  }

  /** From start-up two connects suffice. */
  lemma NoVectorsFromStart(init: State) returns (run: seq<Step>)
    requires Init(init) && init.server.nVectors == 0
    ensures ValidRun(init, run) && |Final(init, run).server.peers| == 2 && !Agreed(Final(init, run), 0)
  {
    var id := init.server.curId;
    var next := (id + 1) % IDS;
    FirstAlone(init, 0);
    var st := Apply(init, Connect(0, id, []));
    SecondEnabled(st, id, next);
    NoVectorsNoAgreement(st, 1, next, 0);
    RunStep(st, Connect(1, next, []), []);
    RunStep(init, Connect(0, id, []), [Connect(1, next, [])] + []);
    run := [Connect(0, id, [])] + ([Connect(1, next, [])] + []);
  }

  lemma RunStep(st: State, step: Step, rest: seq<Step>)
    requires Enabled(st, step) && ValidRun(Apply(st, step), rest)
    ensures ValidRun(st, [step] + rest) && Final(st, [step] + rest) == Final(Apply(st, step), rest)
  {
    assert ([step] + rest)[1..] == rest;
  }

  lemma SecondEnabled(st: State, id: nat, next: nat)
    requires st.server.peers == [Peer(id, 0, [])] && st.server.curId == next == (id + 1) % IDS && id < IDS
    requires st.server.nVectors == 0 && st.wires.Keys == {0}
    ensures Enabled(st, Connect(1, next, []))
  {
    var peers := st.server.peers;
    assert peers[0].id in Ids(peers) && peers[0].sock in Socks(peers);
    assert Ids(peers) == {id} && Socks(peers) == {0};
    assert Candidate(next, 0) == next;
    assert FirstFree(next, {id}, next);
  }

  ghost predicate AlwaysAgrees(init: State) {
    forall run, i: nat | ValidRun(init, run) && i < |Final(init, run).server.peers| :: Agreed(Final(init, run), i)
  }

  /** The exact condition on the command line: the directory agrees after every run if and only if
      there is at least one vector. */
  lemma AgreementIffVectors(init: State)
    requires Init(init)
    ensures AlwaysAgrees(init) <==> 1 <= init.server.nVectors
  {
    if 1 <= init.server.nVectors {
      forall run, i: nat | ValidRun(init, run) && i < |Final(init, run).server.peers| ensures Agreed(Final(init, run), i) {
        DirectoryAgreement(init, run, i);
      }
    } else {
      var run := NoVectorsFromStart(init);
    }
  }
}
