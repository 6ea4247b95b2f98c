/** The peer directory of the reference ivshmem server, replicated by its clients.

    The server keeps the connected peers and their event notifiers in a list and streams
    (number, optional fd) messages to every client; a client folds its stream into a table. */
module Directory {
  import opened Prelude
  import PeerIds

  type Fd = nat

  const MAX_VECTORS := 64
  const PROTOCOL_VERSION := 0
  const IDS := PeerIds.ID_COUNT

  datatype Notifier = Notifier(rfd: Fd, wfd: Fd)

  datatype Peer = Peer(id: nat, sock: nat, vectors: seq<Notifier>)

  /** One message on a socket: a number and perhaps a file descriptor. */
  datatype Msg = Msg(num: int, fd: Option<Fd>)

  // ---- the client's table

  datatype Entry = Entry(id: int, vectors: seq<Fd>)

  datatype Phase = AwaitVersion | AwaitId | AwaitShm | Running | Failed

  datatype Client = Client(phase: Phase, local: Entry, peers: seq<Entry>)

  const NewClient := Client(AwaitVersion, Entry(-1, []), [])

  /** The position of a peer in the list, or the length of the list. */
  function Find(peers: seq<Entry>, id: int): (k: nat)
    ensures k <= |peers|
    ensures forall i | 0 <= i < k :: peers[i].id != id
    ensures k < |peers| ==> peers[k].id == id
  {
    if peers == [] then 0
    else if peers[0].id == id then 0
    else 1 + Find(peers[1..], id)
  }

  lemma FindAt(peers: seq<Entry>, id: int, k: nat)
    requires k < |peers| && peers[k].id == id && forall i | 0 <= i < k :: peers[i].id != id
    ensures Find(peers, id) == k
  {
  }

  function AddVector(e: Entry, fd: Fd): Entry { e.(vectors := e.vectors + [fd]) }

  /** A message after the connection is set up: a vector of a peer, or a peer that has left. */
  function Handle(c: Client, m: Msg): Client {
    var k := Find(c.peers, m.num);
    if m.fd.None? then
      if m.num == c.local.id || k == |c.peers| then c.(phase := Failed)
      else c.(peers := c.peers[..k] + c.peers[k + 1..])
    else if m.num == c.local.id then
      if |c.local.vectors| >= MAX_VECTORS then c.(phase := Failed) else c.(local := AddVector(c.local, m.fd.value))
    else if k == |c.peers| then c.(peers := c.peers + [Entry(m.num, [m.fd.value])])
    else if |c.peers[k].vectors| >= MAX_VECTORS then c.(phase := Failed)
    else c.(peers := c.peers[k := AddVector(c.peers[k], m.fd.value)])
  }

  function Receive(c: Client, m: Msg): Client {
    match c.phase
    case AwaitVersion => c.(phase := if m == Msg(PROTOCOL_VERSION, None) then AwaitId else Failed)
    case AwaitId =>
      if m.num < 0 || m.fd.Some? then c.(phase := Failed)
      else c.(phase := AwaitShm, local := c.local.(id := m.num))
    case AwaitShm => c.(phase := if m.num == -1 && m.fd.Some? then Running else Failed)
    case Running => Handle(c, m)
    case Failed => c
  }

  /** The client after a whole stream. */
  function Fold(c: Client, stream: seq<Msg>): Client {
    if stream == [] then c else Receive(Fold(c, stream[..|stream| - 1]), stream[|stream| - 1])
  }

  lemma {:induction false} FoldConcat(c: Client, a: seq<Msg>, b: seq<Msg>)
    ensures Fold(c, a + b) == Fold(Fold(c, a), b)
  {
    if b == [] {
      assert a + b == a;
    } else {
      assert (a + b)[..|a + b| - 1] == a + b[..|b| - 1];
      FoldConcat(c, a, b[..|b| - 1]);
    }
  }

  // ---- what the server sends

  function Batch(id: int, fds: seq<Fd>): seq<Msg> { seq(|fds|, i requires 0 <= i < |fds| => Msg(id, Some(fds[i]))) }

  function WriteEnds(vectors: seq<Notifier>): seq<Fd> {
    seq(|vectors|, i requires 0 <= i < |vectors| => vectors[i].wfd)
  }

  function ReadEnds(vectors: seq<Notifier>): seq<Fd> {
    seq(|vectors|, i requires 0 <= i < |vectors| => vectors[i].rfd)
  }

  function InitialInfo(id: nat, shmFd: Fd): seq<Msg> {
    [Msg(PROTOCOL_VERSION, None), Msg(id, None), Msg(-1, Some(shmFd))]
  }

  function AdvertiseAll(peers: seq<Peer>): seq<Msg> {
    if peers == [] then []
    else AdvertiseAll(peers[..|peers| - 1])
         + Batch(peers[|peers| - 1].id, WriteEnds(peers[|peers| - 1].vectors))
  }

  /** The stream a new peer starts with. */
  function Welcome(peers: seq<Peer>, peer: Peer, shmFd: Fd): seq<Msg> {
    InitialInfo(peer.id, shmFd) + AdvertiseAll(peers) + Batch(peer.id, ReadEnds(peer.vectors))
  }

  // ---- folding what the server sends

  /** The table a client on socket `sock` should have: everybody else, in the server's order. */
  function Table(peers: seq<Peer>, sock: nat): seq<Entry> {
    if peers == [] then []
    else
      var last := peers[|peers| - 1];
      Table(peers[..|peers| - 1], sock)
      + if last.sock == sock then [] else [Entry(last.id, WriteEnds(last.vectors))]
  }

  predicate Distinct(peers: seq<Peer>) {
    && (forall i, j | 0 <= i < j < |peers| :: peers[i].id != peers[j].id)
    && (forall i, j | 0 <= i < j < |peers| :: peers[i].sock != peers[j].sock)
  }

  predicate Unknown(peers: seq<Entry>, id: int) { forall i | 0 <= i < |peers| :: peers[i].id != id }

  /** A batch for a peer that the client does not know adds it with its vectors in order. */
  lemma {:induction false} FoldNewPeer(c: Client, id: int, fds: seq<Fd>)
    requires c.phase.Running? && id != c.local.id && Unknown(c.peers, id)
    requires 1 <= |fds| <= MAX_VECTORS
    ensures Fold(c, Batch(id, fds)) == c.(peers := c.peers + [Entry(id, fds)])
    decreases |fds|
  {
    var init := fds[..|fds| - 1];
    var batch := Batch(id, fds);
    assert batch[..|batch| - 1] == Batch(id, init);
    if init == [] {
      assert Batch(id, init) == [];
      assert fds == [fds[0]];
    } else {
      FoldNewPeer(c, id, init);
      var peers := c.peers + [Entry(id, init)];
      FindAt(peers, id, |c.peers|);
      assert init + [fds[|fds| - 1]] == fds;
    }
  }

  lemma {:induction false} FoldOwnVectors(c: Client, fds: seq<Fd>)
    requires c.phase.Running? && |c.local.vectors| + |fds| <= MAX_VECTORS
    ensures Fold(c, Batch(c.local.id, fds)) == c.(local := c.local.(vectors := c.local.vectors + fds))
    decreases |fds|
  {
    var batch := Batch(c.local.id, fds);
    if fds == [] {
      assert c.local.vectors + fds == c.local.vectors;
    } else {
      var init := fds[..|fds| - 1];
      assert batch[..|batch| - 1] == Batch(c.local.id, init);
      FoldOwnVectors(c, init);
      assert c.local.vectors + init + [fds[|fds| - 1]] == c.local.vectors + fds;
    }
  }

  lemma {:induction false} TableUnknown(peers: seq<Peer>, sock: nat, id: int)
    requires forall i | 0 <= i < |peers| :: peers[i].id != id
    ensures Unknown(Table(peers, sock), id)
  {
    if peers != [] {
      TableUnknown(peers[..|peers| - 1], sock, id);
    }
  }

  predicate Vectored(peers: seq<Peer>, n: nat) { forall i | 0 <= i < |peers| :: |peers[i].vectors| == n }

  lemma {:induction false} FoldAdvertiseAll(c: Client, peers: seq<Peer>, sock: nat, n: nat)
    requires c.phase.Running? && c.peers == [] && Distinct(peers) && Vectored(peers, n) && 1 <= n <= MAX_VECTORS
    requires forall i | 0 <= i < |peers| :: peers[i].id != c.local.id && peers[i].sock != sock
    ensures Fold(c, AdvertiseAll(peers)) == c.(peers := Table(peers, sock))
    decreases |peers|
  {
    if peers != [] {
      var init, last := peers[..|peers| - 1], peers[|peers| - 1];
      FoldAdvertiseAll(c, init, sock, n);
      TableUnknown(init, sock, last.id);
      FoldConcat(c, AdvertiseAll(init), Batch(last.id, WriteEnds(last.vectors)));
      FoldNewPeer(c.(peers := Table(init, sock)), last.id, WriteEnds(last.vectors));
    }
  }

  /** The welcome stream gives a new client exactly the others and its own vectors. */
  lemma FoldWelcome(peers: seq<Peer>, peer: Peer, shmFd: Fd, n: nat)
    requires Distinct(peers + [peer]) && Vectored(peers + [peer], n) && 1 <= n <= MAX_VECTORS
    ensures Fold(NewClient, Welcome(peers, peer, shmFd))
            == Client(Running, Entry(peer.id, ReadEnds(peer.vectors)), Table(peers, peer.sock))
  {
    var all := peers + [peer];
    assert forall i | 0 <= i < |peers| :: all[i] == peers[i];
    assert all[|peers|] == peer;
    var info := InitialInfo(peer.id, shmFd);
    var started := Client(Running, Entry(peer.id, []), []);
    FoldInitialInfo(peer.id, shmFd);
    FoldAdvertiseAll(started, peers, peer.sock, n);
    FoldConcat(NewClient, info, AdvertiseAll(peers));
    FoldConcat(NewClient, info + AdvertiseAll(peers), Batch(peer.id, ReadEnds(peer.vectors)));
    FoldOwnVectors(started.(peers := Table(peers, peer.sock)), ReadEnds(peer.vectors));
    assert [] + ReadEnds(peer.vectors) == ReadEnds(peer.vectors);
  }

  lemma FoldInitialInfo(id: nat, shmFd: Fd)
    ensures Fold(NewClient, InitialInfo(id, shmFd)) == Client(Running, Entry(id, []), [])
  {
    var info := InitialInfo(id, shmFd);
    assert info[..2][..1] == info[..1] && info[..1][..0] == [];
    assert Fold(NewClient, info[..1]) == NewClient.(phase := AwaitId);
    assert Fold(NewClient, info[..2]) == Client(AwaitShm, Entry(id, []), []);
  }

  // ---- a peer leaving

  lemma {:induction false} TableConcat(a: seq<Peer>, b: seq<Peer>, sock: nat)
    ensures Table(a + b, sock) == Table(a, sock) + Table(b, sock)
  {
    if b == [] {
      assert a + b == a;
    } else {
      assert (a + b)[..|a + b| - 1] == a + b[..|b| - 1];
      TableConcat(a, b[..|b| - 1], sock);
    }
  }

  /** Deleting by id at client `j` is deleting that peer from the server's list. */
  lemma FoldDeparture(c: Client, peers: seq<Peer>, i: nat, j: nat)
    requires c.phase.Running? && i < |peers| && j < |peers| && i != j && Distinct(peers)
    requires peers[j].id == c.local.id && c.peers == Table(peers, peers[j].sock)
    ensures Receive(c, Msg(peers[i].id, None)) == c.(peers := Table(peers[..i] + peers[i + 1..], peers[j].sock))
  {
    var sock, gone := peers[j].sock, Entry(peers[i].id, WriteEnds(peers[i].vectors));
    TableSplit(peers, i, sock);
    TableUnknown(peers[..i], sock, gone.id);
    HandleDeparture(c, Table(peers[..i], sock), gone, Table(peers[i + 1..], sock));
  }

  lemma TableSplit(peers: seq<Peer>, i: nat, sock: nat)
    requires i < |peers| && peers[i].sock != sock
    ensures var gone := Entry(peers[i].id, WriteEnds(peers[i].vectors));
            Table(peers, sock) == Table(peers[..i], sock) + ([gone] + Table(peers[i + 1..], sock))
    ensures Table(peers[..i] + peers[i + 1..], sock) == Table(peers[..i], sock) + Table(peers[i + 1..], sock)
  {
    var before, one, after := peers[..i], [peers[i]], peers[i + 1..];
    assert peers == before + (one + after);
    TableConcat(before, one + after, sock);
    TableConcat(one, after, sock);
    TableConcat(before, after, sock);
    assert one[..0] == [];
  }

  lemma HandleDeparture(c: Client, before: seq<Entry>, gone: Entry, after: seq<Entry>)
    requires c.phase.Running? && c.local.id != gone.id
    requires c.peers == before + ([gone] + after) && Unknown(before, gone.id)
    ensures Receive(c, Msg(gone.id, None)) == c.(peers := before + after)
  {
    FindAt(c.peers, gone.id, |before|);
    assert c.peers[..|before|] + c.peers[|before| + 1..] == before + after;
  }
}
