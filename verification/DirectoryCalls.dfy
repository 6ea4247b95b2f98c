/** The reference server and client as they are written: lists edited in place, nested send
    loops, staged creation of notifiers and its undoing. */
module DirectoryCalls {
  import opened Prelude
  import opened Directory
  import opened PeerIds
  import opened DirectoryRuns

  function NotifierSet(vectors: seq<Notifier>): set<Notifier> { set i | 0 <= i < |vectors| :: vectors[i] }

  predicate DisjointVectors(a: seq<Notifier>, b: seq<Notifier>) {
    forall i, j | 0 <= i < |a| && 0 <= j < |b| :: a[i] != b[j]
  }

  /** The notifiers are live and pairwise different, so each can be cleaned up once. */
  predicate Owned(vectors: seq<Notifier>, live: set<Notifier>) {
    && (forall i | 0 <= i < |vectors| :: vectors[i] in live)
    && (forall i, j | 0 <= i < j < |vectors| :: vectors[i] != vectors[j])
  }

  predicate Ownership(peers: seq<Peer>, n: nat, live: set<Notifier>) {
    && (forall i | 0 <= i < |peers| :: |peers[i].vectors| == n && Owned(peers[i].vectors, live))
    && (forall i, j | 0 <= i < j < |peers| :: DisjointVectors(peers[i].vectors, peers[j].vectors))
  }

  lemma OwnershipGrows(peers: seq<Peer>, n: nat, live: set<Notifier>, peer: Peer)
    requires Ownership(peers, n, live) && |peer.vectors| == n
    requires forall k | 0 <= k < n :: peer.vectors[k] !in live
    requires Owned(peer.vectors, live + NotifierSet(peer.vectors))
    ensures Ownership(peers + [peer], n, live + NotifierSet(peer.vectors))
  {
    var all := peers + [peer];
    forall i | 0 <= i < |peers|
      ensures Owned(all[i].vectors, live + NotifierSet(peer.vectors)) && DisjointVectors(all[i].vectors, peer.vectors)
    {
      assert Owned(peers[i].vectors, live);
    }
  }

  lemma OwnershipShrinks(peers: seq<Peer>, n: nat, live: set<Notifier>, i: nat)
    requires Ownership(peers, n, live) && i < |peers| && Distinct(peers)
    ensures Ownership(Without(peers, i), n, live - NotifierSet(peers[i].vectors))
  {
    var rest, gone := Without(peers, i), peers[i].vectors;
    WithoutKeeps(peers, i);
    forall k | 0 <= k < |rest| ensures |rest[k].vectors| == n && Owned(rest[k].vectors, live - NotifierSet(gone)) {
      var j := if k < i then k else k + 1;
      assert Owned(peers[j].vectors, live);
      assert DisjointVectors(peers[if j < i then j else i].vectors, peers[if j < i then i else j].vectors);
    }
  }

  predicate ServerOk(peers: seq<Peer>, socks: set<nat>, n: nat, live: set<Notifier>) {
    Distinct(peers) && Socks(peers) == socks && Ownership(peers, n, live)
  }

  lemma JoinKeeps(peers: seq<Peer>, socks: set<nat>, n: nat, live: set<Notifier>, peer: Peer)
    requires ServerOk(peers, socks, n, live) && peer.id !in Ids(peers) && peer.sock !in socks
    requires |peer.vectors| == n && Owned(peer.vectors, live + NotifierSet(peer.vectors))
    requires forall k | 0 <= k < n :: peer.vectors[k] !in live
    ensures ServerOk(peers + [peer], socks + {peer.sock}, n, live + NotifierSet(peer.vectors))
  {
    DistinctAppend(peers, peer);
    SocksAppend(peers, peer);
    OwnershipGrows(peers, n, live, peer);
  }

  lemma LeaveKeeps(peers: seq<Peer>, socks: set<nat>, n: nat, live: set<Notifier>, i: nat)
    requires ServerOk(peers, socks, n, live) && i < |peers|
    ensures ServerOk(Without(peers, i), socks - {peers[i].sock}, n, live - NotifierSet(peers[i].vectors))
    ensures Owned(peers[i].vectors, live)
  {
    WithoutKeeps(peers, i);
    SocksWithout(peers, i);
    OwnershipShrinks(peers, n, live, i);
  }

  /** `after` is `before` and then one message per vector with what others ring it by. */
  predicate ToldOf(before: seq<Msg>, after: seq<Msg>, peer: Peer) {
    && |after| == |before| + |peer.vectors| && after[..|before|] == before
    && forall v | 0 <= v < |peer.vectors| :: after[|before| + v] == Msg(peer.id, Some(peer.vectors[v].wfd))
  }

  /** The first three messages of a stream and its last ones, which carry what the newcomer
      listens on. */
  predicate Greeted(stream: seq<Msg>, peer: Peer, shmFd: Fd) {
    var n := |peer.vectors|;
    && |stream| >= 3 + n
    && stream[0] == Msg(0, None) && stream[1] == Msg(peer.id, None) && stream[2] == Msg(-1, Some(shmFd))
    && forall v | 0 <= v < n :: stream[|stream| - n + v] == Msg(peer.id, Some(peer.vectors[v].rfd))
  }

  lemma WelcomeGreets(peers: seq<Peer>, peer: Peer, shmFd: Fd)
    ensures Greeted(Welcome(peers, peer, shmFd), peer, shmFd)
  {
    var info, others, own := InitialInfo(peer.id, shmFd), AdvertiseAll(peers), Batch(peer.id, ReadEnds(peer.vectors));
    assert Welcome(peers, peer, shmFd) == info + (others + own);
    assert info + (others + own) == (info + others) + own;
  }

  lemma BroadcastTells(wires: map<nat, seq<Msg>>, peers: seq<Peer>, peer: Peer, i: nat)
    requires Distinct(peers) && Socks(peers) <= wires.Keys && i < |peers|
    ensures peers[i].sock in wires
    ensures ToldOf(wires[peers[i].sock], Broadcast(wires, peers, Batch(peer.id, WriteEnds(peer.vectors)))[peers[i].sock], peer)
  {
    assert peers[i].sock in Socks(peers);
    BroadcastAt(wires, peers, Batch(peer.id, WriteEnds(peer.vectors)), peers[i].sock);
  }

  class IvshmemServer {
    const nVectors: nat
    const shmFd: Fd
    var curId: nat
    var peers: seq<Peer>
    var wires: map<nat, seq<Msg>>   // what has been sent on each open socket
    var live: set<Notifier>         // notifiers created and not cleaned up

    constructor (n: nat, shm: Fd)
      ensures nVectors == n && shmFd == shm && curId == 0 && peers == [] && wires == map[] && live == {}
    {
      nVectors, shmFd := n, shm;
      curId, peers, wires, live := 0, [], map[], {};
    }

    predicate Valid()
      reads this
    {
      curId < IDS && ServerOk(peers, wires.Keys, nVectors, live)
    }

    /** ivshmem_server_search_peer */
    method SearchPeer(id: int) returns (k: Option<nat>)
      ensures k.Some? ==> k.value < |peers| && peers[k.value].id == id && forall i | 0 <= i < k.value :: peers[i].id != id
      ensures k.None? <==> forall i | 0 <= i < |peers| :: peers[i].id != id
    {
      for i := 0 to |peers|
        invariant forall j | 0 <= j < i :: peers[j].id != id
      {
        if peers[i].id == id {
          return Some(i);
        }
      }
      return None;
    }

    /** The search for an unused id.  It fails only when the 65535 ids from cur_id on are taken. */
    method AllocateId() returns (id: Option<nat>)
      requires curId < IDS
      modifies this`curId
      ensures curId < IDS
      ensures id.Some? ==> FirstFree(old(curId), Ids(peers), id.value) && curId == (id.value + 1) % IDS
      ensures id.None? <==> Window(old(curId), TRIES) <= Ids(peers)
    {
      var i := 0;
      while i < TRIES
        invariant 0 <= i <= TRIES
        invariant curId == Candidate(old(curId), i)
        invariant forall j | 0 <= j < i :: Candidate(old(curId), j) in Ids(peers)
      {
        var found := SearchPeer(curId);
        if found.None? {
          assert curId !in Ids(peers);
          assert FirstFree(old(curId), Ids(peers), curId);
          assert curId in Window(old(curId), TRIES);
          id := Some(curId);
          curId := (curId + 1) % IDS;
          return;
        }
        assert peers[found.value].id in Ids(peers);
        curId := (curId + 1) % IDS;
        i := i + 1;
      }
      id := None;
    }

    /** One batch of (id, fd) messages on one socket. */
    method SendBatch(sock: nat, id: int, fds: seq<Fd>)
      requires sock in wires
      modifies this`wires
      ensures wires == old(wires)[sock := old(wires)[sock] + Batch(id, fds)]
    {
      ghost var sent := wires[sock];
      assert sent + Batch(id, fds[..0]) == sent;
      for i := 0 to |fds|
        invariant wires == old(wires)[sock := sent + Batch(id, fds[..i])]
      {
        wires := wires[sock := wires[sock] + [Msg(id, Some(fds[i]))]];
        assert sent + Batch(id, fds[..i + 1]) == sent + Batch(id, fds[..i]) + [Msg(id, Some(fds[i]))];
      }
      assert fds[..|fds|] == fds;
    }

    /** event_notifier_cleanup must not be called twice. */
    method CleanUp(n: Notifier)
      requires n in live
      modifies this`live
      ensures live == old(live) - {n}
    {
      live := live - {n};
    }

    /** Creates one notifier per vector, or undoes the ones created. */
    method CreateVectors(created: seq<Option<Notifier>>) returns (vectors: Option<seq<Notifier>>)
      requires |created| == nVectors
      requires forall i | 0 <= i < nVectors && created[i].Some? :: created[i].value !in live
      requires forall i, j | 0 <= i < j < nVectors && created[i].Some? && created[j].Some? :: created[i] != created[j]
      modifies this`live
      ensures vectors.None? ==> live == old(live) && exists i | 0 <= i < nVectors :: created[i].None?
      ensures vectors.Some? ==>
                && |vectors.value| == nVectors
                && (forall i | 0 <= i < nVectors :: created[i] == Some(vectors.value[i]))
                && live == old(live) + NotifierSet(vectors.value)
                && Owned(vectors.value, live)
    {
      var done: seq<Notifier> := [];
      for i := 0 to nVectors
        invariant |done| == i && forall j | 0 <= j < i :: created[j] == Some(done[j])
        invariant live == old(live) + NotifierSet(done)
      {
        if created[i].None? {
          CleanUpFirst(done, i, old(live));
          return None;
        }
        done := done + [created[i].value];
        live := live + {created[i].value};
      }
      vectors := Some(done);
    }

    /** The unwinding loop of a failed connection. */
    method CleanUpFirst(vectors: seq<Notifier>, n: nat, ghost before: set<Notifier>)
      requires n == |vectors| && live == before + NotifierSet(vectors)
      requires forall i | 0 <= i < n :: vectors[i] !in before
      requires forall i, j | 0 <= i < j < n :: vectors[i] != vectors[j]
      modifies this`live
      ensures live == before
    {
      var i := n;
      while i > 0
        invariant 0 <= i <= n
        invariant live == before + set j | 0 <= j < i :: vectors[j]
      {
        i := i - 1;
        CleanUp(vectors[i]);
      }
    }

    /** ivshmem_server_handle_new_conn.  `accepted` is the socket from accept(), `created` the
        outcome of creating each eventfd, `informed` whether the initial info could be sent.
        Success is exactly what the directory calls a connect; every failure leaves the peers,
        the sockets and the notifiers as they were. */
    method HandleNewConn(accepted: Option<nat>, created: seq<Option<Notifier>>, informed: bool) returns (ok: bool)
      requires Valid() && (accepted.Some? ==> accepted.value !in wires)
      requires |created| == nVectors
      requires forall i | 0 <= i < nVectors && created[i].Some? :: created[i].value !in live
      requires forall i, j | 0 <= i < j < nVectors && created[i].Some? && created[j].Some? :: created[i] != created[j]
      modifies this
      ensures Valid()
      ensures ok <==>
                && accepted.Some? && !(Window(old(curId), TRIES) <= Ids(old(peers)))
                && (forall i | 0 <= i < nVectors :: created[i].Some?) && informed
      ensures !ok ==> peers == old(peers) && wires == old(wires) && live == old(live)
      ensures ok ==>
                && 0 < |peers| && var peer := peers[|peers| - 1];
                && peers == old(peers) + [peer] && peer.sock == accepted.value
                && FirstFree(old(curId), Ids(old(peers)), peer.id) && curId == (peer.id + 1) % IDS
                && |peer.vectors| == nVectors && (forall i | 0 <= i < nVectors :: created[i] == Some(peer.vectors[i]))
                && live == old(live) + NotifierSet(peer.vectors)
                && wires == Broadcast(old(wires), old(peers), Batch(peer.id, WriteEnds(peer.vectors)))
                            [peer.sock := Welcome(old(peers), peer, shmFd)]
      ensures ok ==>
                var peer := peers[|peers| - 1];
                && peer.sock in wires && Greeted(wires[peer.sock], peer, shmFd)
                && forall i | 0 <= i < |old(peers)| ::
                     && old(peers)[i].sock in old(wires) && old(peers)[i].sock in wires
                     && ToldOf(old(wires)[old(peers)[i].sock], wires[old(peers)[i].sock], peer)
    {
      if accepted.None? {
        return false;
      }
      var sock := accepted.value;
      var id := AllocateId();
      if id.None? {
        return false;
      }
      var vectors := CreateVectors(created);
      if vectors.None? {
        return false;
      }
      if !informed {
        CleanUpFirst(vectors.value, nVectors, old(live));
        return false;
      }
      FirstFreeUnique(old(curId), Ids(peers), id.value, id.value);
      var peer := Peer(id.value, sock, vectors.value);
      Enlist(peer, old(live));
      ok := true;
    }

    /** What the broadcast and the welcome hold, message by message. */
    lemma Told(peer: Peer)
      requires Distinct(peers) && Socks(peers) == wires.Keys && peer.sock !in wires
      ensures var after := Broadcast(wires, peers, Batch(peer.id, WriteEnds(peer.vectors)))[peer.sock := Welcome(peers, peer, shmFd)];
              && Greeted(after[peer.sock], peer, shmFd)
              && forall i | 0 <= i < |peers| ::
                   peers[i].sock in wires && ToldOf(wires[peers[i].sock], after[peers[i].sock], peer)
    {
      WelcomeGreets(peers, peer, shmFd);
      forall i | 0 <= i < |peers|
        ensures peers[i].sock in wires
        ensures ToldOf(wires[peers[i].sock], Broadcast(wires, peers, Batch(peer.id, WriteEnds(peer.vectors)))[peers[i].sock], peer)
      {
        BroadcastTells(wires, peers, peer, i);
      }
    }

    /** The last stage of a connection: nothing can fail any more. */
    method Enlist(peer: Peer, ghost before: set<Notifier>)
      requires curId < IDS && ServerOk(peers, wires.Keys, nVectors, before) && live == before + NotifierSet(peer.vectors)
      requires peer.id !in Ids(peers) && peer.sock !in wires && |peer.vectors| == nVectors && Owned(peer.vectors, live)
      requires forall k | 0 <= k < nVectors :: peer.vectors[k] !in before
      modifies this`peers, this`wires
      ensures Valid() && peers == old(peers) + [peer]
      ensures wires == Broadcast(old(wires), old(peers), Batch(peer.id, WriteEnds(peer.vectors)))
                       [peer.sock := Welcome(old(peers), peer, shmFd)]
      ensures peer.sock in wires && Greeted(wires[peer.sock], peer, shmFd)
      ensures forall i | 0 <= i < |old(peers)| ::
                && old(peers)[i].sock in old(wires) && old(peers)[i].sock in wires
                && ToldOf(old(wires)[old(peers)[i].sock], wires[old(peers)[i].sock], peer)
    {
      Told(peer);
      JoinKeeps(peers, wires.Keys, nVectors, before, peer);
      Admit(peer);
    }

    /** Everybody is told, then the newcomer joins the list. */
    method Admit(peer: Peer)
      requires Socks(peers) <= wires.Keys && peer.sock !in wires
      modifies this`peers, this`wires
      ensures peers == old(peers) + [peer]
      ensures wires == Broadcast(old(wires), old(peers), Batch(peer.id, WriteEnds(peer.vectors)))
                       [peer.sock := Welcome(old(peers), peer, shmFd)]
    {
      AdvertiseToOthers(peer);
      AdvertiseOthersTo(peer);
      peers := peers + [peer];
    }

    /** Initial info, then the newcomer to each of the others. */
    method AdvertiseToOthers(peer: Peer)
      requires Socks(peers) <= wires.Keys && peer.sock !in wires
      modifies this`wires
      ensures wires == Broadcast(old(wires), peers, Batch(peer.id, WriteEnds(peer.vectors)))
                       [peer.sock := InitialInfo(peer.id, shmFd)]
    {
      var batch, info := Batch(peer.id, WriteEnds(peer.vectors)), InitialInfo(peer.id, shmFd);
      wires := wires[peer.sock := info];
      for k := 0 to |peers|
        invariant Socks(peers[..k]) <= old(wires).Keys
        invariant wires == Broadcast(old(wires), peers[..k], batch)[peer.sock := info]
      {
        SocksPrefix(peers, k + 1);
        assert peers[k].sock in Socks(peers);
        assert peers[..k + 1][..k] == peers[..k];
        SendBatch(peers[k].sock, peer.id, WriteEnds(peer.vectors));
      }
      assert peers[..|peers|] == peers;
    }

    /** The others to the newcomer, then the newcomer to itself. */
    method AdvertiseOthersTo(peer: Peer)
      requires peer.sock in wires && wires[peer.sock] == InitialInfo(peer.id, shmFd)
      modifies this`wires
      ensures wires == old(wires)[peer.sock := Welcome(peers, peer, shmFd)]
    {
      var sock := peer.sock;
      ghost var info := wires[sock];
      assert info + [] == info;
      for k := 0 to |peers|
        invariant wires == old(wires)[sock := info + AdvertiseAll(peers[..k])]
      {
        assert peers[..k + 1][..k] == peers[..k];
        SendBatch(sock, peers[k].id, WriteEnds(peers[k].vectors));
        assert info + AdvertiseAll(peers[..k]) + Batch(peers[k].id, WriteEnds(peers[k].vectors))
            == info + AdvertiseAll(peers[..k + 1]);
      }
      assert peers[..|peers|] == peers;
      SendBatch(sock, peer.id, ReadEnds(peer.vectors));
    }

    /** ivshmem_server_free_peer: the others are told, and each notifier is cleaned up once. */
    method FreePeer(i: nat)
      requires Valid() && i < |peers|
      modifies this
      ensures Valid() && curId == old(curId)
      ensures peers == Without(old(peers), i)
      ensures Socks(peers) <= old(wires).Keys
      ensures wires == Broadcast(old(wires), peers, [Msg(old(peers)[i].id, None)]) - {old(peers)[i].sock}
      ensures live == old(live) - NotifierSet(old(peers)[i].vectors)
      ensures wires.Keys == old(wires).Keys - {old(peers)[i].sock}
      ensures forall s | s in wires ::
                wires[s] == old(wires)[s] + if s in Socks(peers) then [Msg(old(peers)[i].id, None)] else []
    {
      ghost var rest, id := Without(peers, i), peers[i].id;
      WithoutKeeps(peers, i);
      SocksWithout(peers, i);
      forall s | s in wires
        ensures Broadcast(wires, rest, [Msg(id, None)])[s] == wires[s] + if s in Socks(rest) then [Msg(id, None)] else []
      {
        BroadcastAt(wires, rest, [Msg(id, None)], s);
      }
      LeaveKeeps(peers, wires.Keys, nVectors, live, i);
      Remove(i);
    }

    method Remove(i: nat)
      requires i < |peers| && Socks(Without(peers, i)) <= wires.Keys && peers[i].sock !in Socks(Without(peers, i))
      requires Owned(peers[i].vectors, live)
      modifies this
      ensures curId == old(curId) && peers == Without(old(peers), i)
      ensures Socks(peers) <= old(wires).Keys
      ensures wires == Broadcast(old(wires), peers, [Msg(old(peers)[i].id, None)]) - {old(peers)[i].sock}
      ensures live == old(live) - NotifierSet(old(peers)[i].vectors)
    {
      var gone := peers[i];
      peers := peers[..i] + peers[i + 1..];
      TellOthers(gone);
      CleanUpAll(gone.vectors);
    }

    method TellOthers(gone: Peer)
      requires Socks(peers) <= wires.Keys && gone.sock !in Socks(peers)
      modifies this`wires
      ensures wires == Broadcast(old(wires), peers, [Msg(gone.id, None)]) - {gone.sock}
    {
      wires := wires - {gone.sock};
      for k := 0 to |peers|
        invariant Socks(peers[..k]) <= old(wires).Keys
        invariant wires == Broadcast(old(wires), peers[..k], [Msg(gone.id, None)]) - {gone.sock}
      {
        SocksPrefix(peers, k + 1);
        assert peers[k].sock in Socks(peers);
        assert peers[..k + 1][..k] == peers[..k];
        wires := wires[peers[k].sock := wires[peers[k].sock] + [Msg(gone.id, None)]];
      }
      assert peers[..|peers|] == peers;
    }

    method CleanUpAll(vectors: seq<Notifier>)
      requires Owned(vectors, live)
      modifies this`live
      ensures live == old(live) - NotifierSet(vectors)
    {
      for v := 0 to |vectors|
        invariant live == old(live) - NotifierSet(vectors[..v])
      {
        CleanUp(vectors[v]);
        assert vectors[..v + 1] == vectors[..v] + [vectors[v]];
      }
      assert vectors[..|vectors|] == vectors;
    }
  }

  lemma SocksPrefix(peers: seq<Peer>, k: nat)
    requires k <= |peers|
    ensures Socks(peers[..k]) <= Socks(peers)
  {
  }

  predicate FirstAt(peers: seq<Entry>, id: int, k: nat)
    requires k < |peers|
  {
    peers[k].id == id && forall i | 0 <= i < k :: peers[i].id != id
  }

  class IvshmemClient {
    var phase: Phase
    var local: Entry
    var peers: seq<Entry>

    constructor ()
      ensures View() == NewClient
    {
      phase, local, peers := AwaitVersion, Entry(-1, []), [];
    }

    function View(): Client
      reads this
    {
      Client(phase, local, peers)
    }

    /** The three messages ivshmem_client_connect reads before it listens. */
    method Connect(version: Msg, id: Msg, shm: Msg) returns (ok: bool)
      requires phase.AwaitVersion?
      modifies this
      ensures View() == Receive(Receive(Receive(old(View()), version), id), shm)
      ensures ok <==> phase.Running?
      ensures ok <==> version == Msg(0, None) && id.num >= 0 && id.fd == None && shm.num == -1 && shm.fd.Some?
      ensures ok ==> local.id == id.num && local.vectors == old(local.vectors) && peers == old(peers)
    {
      phase := Failed;
      if version.num != PROTOCOL_VERSION || version.fd.Some? {
        return false;
      }
      if id.num < 0 || id.fd.Some? {
        return false;
      }
      local := local.(id := id.num);
      if shm.fd.None? || shm.num != -1 {
        return false;
      }
      phase := Running;
      ok := true;
    }

    /** The list part of ivshmem_client_search_peer. */
    method SearchPeer(id: int) returns (k: nat)
      ensures k == Find(peers, id)
    {
      k := 0;
      while k < |peers| && peers[k].id != id
        invariant 0 <= k <= |peers|
        invariant forall i | 0 <= i < k :: peers[i].id != id
      {
        k := k + 1;
      }
      if k < |peers| {
        FindAt(peers, id, k);
      }
    }

    /** ivshmem_client_handle_server_msg, in place; a false result ends the client. */
    method HandleServerMsg(m: Msg) returns (ok: bool)
      requires phase.Running?
      modifies this
      ensures View() == Handle(old(View()), m)
      ensures ok <==> phase.Running?
      ensures m.fd == None && (m.num == local.id || forall i | 0 <= i < |old(peers)| :: old(peers)[i].id != m.num) ==> !ok
      ensures forall k | 0 <= k < |old(peers)| && FirstAt(old(peers), m.num, k) && m.num != local.id ::
                && (m.fd == None ==> ok && peers == old(peers)[..k] + old(peers)[k + 1..] && local == old(local))
                && (m.fd != None ==>
                      if |old(peers)[k].vectors| < 64
                      then ok && local == old(local)
                           && peers == old(peers)[k := Entry(m.num, old(peers)[k].vectors + [m.fd.value])]
                      else !ok)
      ensures m.fd != None && m.num == local.id ==>
                if |old(local).vectors| < 64
                then ok && peers == old(peers) && local == Entry(m.num, old(local).vectors + [m.fd.value])
                else !ok
      ensures m.fd != None && m.num != local.id && (forall i | 0 <= i < |old(peers)| :: old(peers)[i].id != m.num) ==>
                ok && local == old(local) && peers == old(peers) + [Entry(m.num, [m.fd.value])]
    {
      var k := SearchPeer(m.num);
      if m.fd.None? {
        if m.num == local.id || k == |peers| {
          phase := Failed;
          return false;
        }
        peers := peers[..k] + peers[k + 1..];
        return true;
      }
      if m.num == local.id {
        if |local.vectors| >= MAX_VECTORS {
          phase := Failed;
          return false;
        }
        local := AddVector(local, m.fd.value);
        return true;
      }
      if k == |peers| {
        peers := peers + [Entry(m.num, [])];
      }
      if |peers[k].vectors| >= MAX_VECTORS {
        phase := Failed;
        return false;
      }
      peers := peers[k := AddVector(peers[k], m.fd.value)];
      ok := true;
      assert [] + [m.fd.value] == [m.fd.value];
    }
  }
}
