/** The Python switch and its client as they run: dictionaries edited in place, nested send
    loops, one callback at a time. */
module SwitchCalls {
  import opened Prelude
  import opened SwitchClient
  import opened SwitchServer
  import opened SwitchEffects

  predicate DistinctSockets(clients: map<nat, Member>) {
    forall j, k | j in clients && k in clients && j != k :: clients[j].sock != clients[k].sock
  }

  /** The sockets of the clients, in order. */
  function SocketList(clients: map<nat, Member>, order: seq<nat>): seq<nat>
    requires forall i | 0 <= i < |order| :: order[i] in clients
  {
    seq(|order|, i requires 0 <= i < |order| => clients[order[i]].sock)
  }

  /** The same packets on one socket after the other. */
  function SendEach(wires: map<nat, seq<Packet>>, socks: seq<nat>, packets: seq<Packet>): (w: map<nat, seq<Packet>>)
    ensures w.Keys == wires.Keys
  {
    if socks == [] then wires
    else
      var last := socks[|socks| - 1];
      var w := SendEach(wires, socks[..|socks| - 1], packets);
      if last in w then w[last := w[last] + packets] else w
  }

  lemma SendEachNext(wires: map<nat, seq<Packet>>, socks: seq<nat>, packets: seq<Packet>, i: nat)
    requires i < |socks| && socks[i] in wires
    ensures var w := SendEach(wires, socks[..i], packets);
            SendEach(wires, socks[..i + 1], packets) == w[socks[i] := w[socks[i]] + packets]
  {
    assert socks[..i + 1][..i] == socks[..i];
  }

  lemma {:induction false} SendEachAt(wires: map<nat, seq<Packet>>, socks: seq<nat>, packets: seq<Packet>, s: nat)
    requires s in wires
    requires forall i, j | 0 <= i < j < |socks| :: socks[i] != socks[j]
    ensures SendEach(wires, socks, packets)[s] == if s in socks then wires[s] + packets else wires[s]
  {
    if socks != [] {
      var init, last := socks[..|socks| - 1], socks[|socks| - 1];
      SendEachAt(wires, init, packets, s);
      assert socks == init + [last] && last !in init;
    }
  }

  /** Serving the sockets one by one reaches each of them once. */
  lemma SendEachIsBroadcast(wires: map<nat, seq<Packet>>, st: State, packets: seq<Packet>)
    requires Ordered(st) && Sockets(st.clients) <= wires.Keys && DistinctSockets(st.clients)
    ensures var socks := SocketList(st.clients, st.order);
            && (forall s | s in socks :: s in wires)
            && SendEach(wires, socks, packets) == Broadcast(wires, Sockets(st.clients), packets)
  {
    var socks := SocketList(st.clients, st.order);
    SocketListIs(st);
    forall s | s in wires ensures SendEach(wires, socks, packets)[s] == Broadcast(wires, Sockets(st.clients), packets)[s] {
      SendEachAt(wires, socks, packets, s);
    }
  }

  lemma SocketListIs(st: State)
    requires Ordered(st)
    ensures forall s :: s in SocketList(st.clients, st.order) <==> s in Sockets(st.clients)
  {
    var socks := SocketList(st.clients, st.order);
    forall k | k in st.clients ensures st.clients[k].sock in socks {
      var i :| 0 <= i < |st.order| && st.order[i] == k;
      assert socks[i] == st.clients[k].sock;
    }
  }

  lemma MembersOk(cfg: Config, st: State)
    requires Inv(cfg, st)
    ensures DistinctSockets(st.clients) && Sockets(st.clients) <= st.open.Keys
  {
    forall k | k in st.clients ensures MemberOk(cfg, st, k) {
    }
  }

  class Switch {
    const cfg: Config
    var clients: map<nat, Member>
    var order: seq<nat>
    var recycled: map<int, Conn>
    var open: map<nat, Conn>
    var wires: map<nat, seq<Packet>>
    var closed: seq<Fd>
    var wiped: seq<int>

    constructor (config: Config)
      ensures cfg == config && Value() == Empty && Valid()
    {
      cfg := config;
      clients, order, recycled, open, wires := map[], [], map[], map[], map[];
      closed, wiped := [], [];
    }

    function Value(): State
      reads this
    {
      State(clients, order, recycled, open, wires, closed, wiped)
    }

    predicate Valid()
      reads this
    {
      Inv(cfg, Value())
    }

    /** create_new_peer_id; `choice` is what random.choice would pick. */
    method CreateNewPeerId(choice: nat) returns (id: int)
      requires choice in Available(cfg, clients.Keys) || |clients| >= cfg.nClients || !cfg.smart
      ensures Allocates(cfg, clients.Keys, id)
    {
      if |clients| >= cfg.nClients {
        return -1;
      }
      IdAvailable(cfg, clients.Keys);
      var available := Available(cfg, clients.Keys);
      if cfg.smart {
        id := choice;
      } else if |clients| == 0 {
        id := 1;
        assert clients.Keys == {};
      } else {
        id := Lowest(available, 1, cfg.nClients);
      }
    }

    /** The packets of one eventfd list, on one socket. */
    method SendBatch(sock: nat, id: int, fds: seq<Fd>)
      requires sock in wires
      modifies this`wires
      ensures wires == old(wires)[sock := old(wires)[sock] + Batch(id, fds)]
    {
      ghost var sent := wires[sock];
      assert sent + Batch(id, fds[..0]) == sent;
      for i := 0 to |fds|
        invariant wires == old(wires)[sock := sent + Batch(id, fds[..i])]
      {
        wires := wires[sock := wires[sock] + [Packet([id], Some(fds[i]))]];
        BatchSnoc(id, fds, i);
        assert sent + Batch(id, fds[..i + 1]) == sent + Batch(id, fds[..i]) + [Packet([id], Some(fds[i]))];
      }
      assert fds[..|fds|] == fds;
    }

    /** The newcomer's list to every client, one socket after the other. */
    method AdvertiseToOthers(id: nat, fds: seq<Fd>)
      requires Ordered(Value()) && Sockets(clients) <= wires.Keys && DistinctSockets(clients)
      modifies this`wires
      ensures wires == Broadcast(old(wires), Sockets(clients), Batch(id, fds))
    {
      SendEachIsBroadcast(wires, Value(), Batch(id, fds));
      SendBatchToEach(SocketList(clients, order), id, fds);
    }

    method SendBatchToEach(socks: seq<nat>, id: int, fds: seq<Fd>)
      requires forall i | 0 <= i < |socks| :: socks[i] in wires
      modifies this`wires
      ensures wires == SendEach(old(wires), socks, Batch(id, fds))
    {
      for i := 0 to |socks|
        invariant wires == SendEach(old(wires), socks[..i], Batch(id, fds))
      {
        SendEachNext(old(wires), socks, Batch(id, fds), i);
        SendBatch(socks[i], id, fds);
      }
      assert socks[..|socks|] == socks;
    }

    /** Every client's list to the newcomer. */
    method AdvertiseClientsTo(sock: nat)
      requires Ordered(Value()) && sock in wires
      modifies this`wires
      ensures wires == old(wires)[sock := old(wires)[sock] + Stream(Listings(clients, order))]
    {
      ghost var hello, lists := wires[sock], Listings(clients, order);
      assert hello + [] == hello;
      for i := 0 to |order|
        invariant wires == old(wires)[sock := hello + Stream(lists[..i])]
      {
        SendBatch(sock, order[i], clients[order[i]].fds);
        StreamNext(hello, lists, i);
      }
      assert lists[..|order|] == lists;
    }

    /** Every client's list to the newcomer, then the server's, then its own. */
    method AdvertiseOthersTo(sock: nat, id: nat, fds: seq<Fd>)
      requires Ordered(Value()) && sock in wires && wires[sock] == [Hello(id, cfg.shmFd)]
      modifies this`wires
      ensures wires == old(wires)[sock := JoinStream(Roster(cfg, old(Value())), Listing(id, fds), cfg.shmFd)]
    {
      ghost var hello, roster := wires[sock], Roster(cfg, Value());
      assert roster[..|order|] == Listings(clients, order) && roster[..|order| + 1] == roster;
      AdvertiseClientsTo(sock);
      SendBatch(sock, ServerId(cfg), cfg.serverFds);
      StreamNext(hello, roster, |order|);
      SendBatch(sock, id, fds);
    }

    /** The initial information and all that follows it. */
    method Welcome(sock: nat, id: nat, fds: seq<Fd>)
      requires Ordered(Value())
      modifies this`wires
      ensures wires == old(wires)[sock := JoinStream(Roster(cfg, old(Value())), Listing(id, fds), cfg.shmFd)]
    {
      wires := wires[sock := [Hello(id, cfg.shmFd)]];
      AdvertiseOthersTo(sock, id, fds);
    }

    method Enroll(sock: nat, id: nat, fds: seq<Fd>, again: bool)
      requires Ordered(Value()) && Sockets(clients) <= wires.Keys && DistinctSockets(clients) && sock !in wires
      modifies this
      ensures Value() == Register(cfg, old(Value()), sock, id, fds, again)
    {
      if !again {
        AdvertiseToOthers(id, fds);
      }
      Welcome(sock, id, fds);
      clients, order := clients[id := Member(sock, fds)], order + [id];
      open := open[sock := Conn(id, Some(fds))];
    }

    method Dismiss(sock: nat, conn: Conn, packets: seq<Packet>)
      modifies this`open, this`wires
      ensures Value() == Unregistered(old(Value()), sock, conn, packets)
    {
      open, wires := open[sock := conn], wires[sock := packets];
    }

    /** connectionMade */
    method ConnectionMade(sock: nat, id: int, created: Option<seq<Fd>>, sent: bool)
      requires Valid() && Enabled(cfg, Value(), Join(sock, id, created, sent))
      modifies this
      ensures Valid() && Value() == Connect(cfg, old(Value()), sock, id, created, sent)
      ensures ConnectEffect(cfg, old(Value()), Value(), sock, id, created, sent)
      ensures |old(clients)| >= cfg.nClients && sent ==> sock in wires && wires[sock] == [Packet([-1], None)]
    {
      ConnectIs(cfg, Value(), Join(sock, id, created, sent));
      Proceed(sock, id, created, sent);
    }

    method Proceed(sock: nat, id: int, created: Option<seq<Fd>>, sent: bool)
      requires Valid() && Enabled(cfg, Value(), Join(sock, id, created, sent))
      modifies this
      ensures Valid() && Value() == Connect(cfg, old(Value()), sock, id, created, sent)
    {
      AllocatedId(cfg, clients.Keys, id);
      MembersOk(cfg, Value());
      JoinInv(cfg, Value(), Join(sock, id, created, sent));
      var again := id in recycled;
      var fds := created;
      if again {
        fds := recycled[id].fds;
      }
      recycled := recycled - {id};
      if id == -1 {
        Dismiss(sock, Conn(-1, None), Refusal(sent));
      } else if fds.None? {
        Dismiss(sock, Conn(if sent && !again then -1 else id, None), Refusal(sent && !again));
      } else if !sent {
        Dismiss(sock, Conn(id, fds), []);
      } else {
        Enroll(sock, id, fds.value, again);
      }
    }

    /** connectionLost */
    method ConnectionLost(sock: nat)
      requires Valid() && sock in open
      modifies this
      ensures Valid() && Value() == Lose(cfg, old(Value()), sock)
      ensures LoseEffect(cfg, old(Value()), Value(), sock)
    {
      LoseIs(cfg, Value(), sock);
      MembersOk(cfg, Value());
      LeaveInv(cfg, Value(), sock);
      var conn := open[sock];
      clients := Without(clients, conn.id);
      order := Remove(order, conn.id);
      open, wires := open - {sock}, wires - {sock};
      MembersOk(cfg, Lose(cfg, old(Value()), sock));
      if cfg.recycle {
        recycled := recycled[conn.id := conn];
      } else {
        TellOthers(conn.id);
        CleanUp(conn);
      }
    }

    method TellOthers(id: int)
      requires Ordered(Value()) && Sockets(clients) <= wires.Keys && DistinctSockets(clients)
      modifies this`wires
      ensures wires == Broadcast(old(wires), Sockets(clients), [Packet([id], None)])
    {
      SendEachIsBroadcast(wires, Value(), [Packet([id], None)]);
      SendNoticeToEach(SocketList(clients, order), id);
    }

    method SendNoticeToEach(socks: seq<nat>, id: int)
      requires forall i | 0 <= i < |socks| :: socks[i] in wires
      modifies this`wires
      ensures wires == SendEach(old(wires), socks, [Packet([id], None)])
    {
      for i := 0 to |socks|
        invariant wires == SendEach(old(wires), socks[..i], [Packet([id], None)])
      {
        SendEachNext(old(wires), socks, [Packet([id], None)], i);
        wires := wires[socks[i] := wires[socks[i]] + [Packet([id], None)]];
      }
      assert socks[..|socks|] == socks;
    }

    /** The eventfds of a lost connection are closed one by one, then its mailslot is wiped. */
    method CleanUp(conn: Conn)
      modifies this`closed, this`wiped
      ensures closed == if conn.fds.None? then old(closed) else old(closed) + conn.fds.value
      ensures wiped == if conn.fds.None? then old(wiped) else old(wiped) + [conn.id]
    {
      if conn.fds.None? {
        return;
      }
      for i := 0 to |conn.fds.value|
        invariant closed == old(closed) + conn.fds.value[..i] && wiped == old(wiped)
      {
        closed := closed + [conn.fds.value[i]];
        assert conn.fds.value[..i + 1] == conn.fds.value[..i] + [conn.fds.value[i]];
      }
      assert conn.fds.value[..|conn.fds.value|] == conn.fds.value;
      wiped := wiped + [conn.id];
    }
  }

  lemma StreamNext(hello: seq<Packet>, lists: seq<Listing>, i: nat)
    requires i < |lists|
    ensures hello + Stream(lists[..i]) + Batch(lists[i].id, lists[i].fds) == hello + Stream(lists[..i + 1])
  {
    assert lists[..i + 1][..i] == lists[..i];
  }

  lemma NotifiersNext(fds: map<nat, seq<Fd>>, notifiers: map<nat, seq<Fd>>, peer: nat)
    requires peer in fds && peer !in notifiers
    ensures AllNotifiers(fds, notifiers[peer := fds[peer]]) == AllNotifiers(fds, notifiers)
  {
  }

  lemma NotifiersDone(fds: map<nat, seq<Fd>>, notifiers: map<nat, seq<Fd>>)
    requires fds.Keys <= notifiers.Keys
    ensures AllNotifiers(fds, notifiers) == notifiers
  {
  }

  method AnyOf<T(==)>(ids: set<T>) returns (id: T)
    requires ids != {}
    ensures id in ids
  {
    id :| id in ids;
  }

  class SwitchPeer {
    var id: Option<nat>
    var firstpass: bool
    var globals: Globals
    var prev: Option<nat>
    var fds: map<nat, seq<Fd>>
    var notifiers: map<nat, seq<Fd>>
    var names: set<nat>
    var armed: seq<Fd>
    var failed: bool
    var latestFd: Option<Fd>

    constructor ()
      ensures Value() == NewClient && latestFd == None
    {
      id, firstpass, globals, prev := None, true, Globals(0, 0), None;
      fds, notifiers, names, armed, failed, latestFd := map[], map[], {}, [], false, None;
    }

    function Value(): Client
      reads this
    {
      Client(id, firstpass, globals, prev, fds, notifiers, names, armed, failed)
    }

    /** fileDescriptorReceived; the last one must have been consumed. */
    method FileDescriptorReceived(fd: Fd)
      modifies this
      ensures old(latestFd).None? ==> latestFd == Some(fd) && Value() == old(Value())
      ensures old(latestFd).Some? ==> Value() == Fail(old(Value())) && latestFd == old(latestFd)
    {
      if latestFd.Some? {
        failed := true;
      } else {
        latestFd := Some(fd);
      }
    }

    /** One delivery: the fd, if there is one, always comes before its words. */
    method Deliver(mailbox: Globals, p: Packet)
      requires latestFd.None?
      modifies this
      ensures Value() == Receive(old(Value()), mailbox, p) && latestFd.None?
    {
      if p.fd.Some? {
        FileDescriptorReceived(p.fd.value);
      }
      DataReceived(mailbox, p.words);
    }

    /** dataReceived */
    method DataReceived(mailbox: Globals, words: seq<int>)
      modifies this
      ensures Value() == Receive(old(Value()), mailbox, Packet(words, old(latestFd))) && latestFd.None?
    {
      var fd := latestFd;
      latestFd := None;
      if failed {
        return;
      }
      if id.None? && firstpass {
        RetrieveInitialInfo(mailbox, words, fd);
      } else if |words| != 1 || words[0] < 0 {
        failed := true;
      } else if fd.None? {
        if words[0] !in names {
          failed := true;
        } else {
          notifiers, names, fds := notifiers - {words[0]}, names - {words[0]}, fds - {words[0]};
        }
      } else {
        Store(words[0], fd.value);
      }
    }

    /** retrieve_initial_info */
    method RetrieveInitialInfo(mailbox: Globals, words: seq<int>, fd: Option<Fd>)
      modifies this
      ensures Value() == Start(old(Value()), mailbox, Packet(words, fd)) && latestFd == old(latestFd)
    {
      if |words| != 3 || words[0] != PROTOCOL_VERSION || words[1] < 1 || words[2] != -1 || fd.None? || fd.value == 0 {
        failed := true;
      } else {
        id, globals := Some(words[1]), mailbox;
      }
    }

    /** Saves one eventfd and finishes up after the last one of a batch. */
    method Store(peer: nat, fd: Fd)
      modifies this
      ensures Value() == Learn(old(Value()), peer, fd) && latestFd == old(latestFd)
    {
      var serverId := globals.serverId;
      if id == Some(peer) && serverId == 0 {
        if prev.None? {
          failed := true;
          return;
        }
        serverId := prev.value;
      }
      if peer in fds && (|fds[peer]| > serverId || (|fds[peer]| == globals.nEvents && id == Some(peer))) {
        failed := true;
        return;
      }
      globals, prev := globals.(serverId := serverId), Some(peer);
      if peer in fds && |fds[peer]| != globals.nEvents {
        fds := fds[peer := fds[peer] + [fd]];
      } else {
        fds := fds[peer := [fd]];
      }
      if (firstpass && id != Some(peer)) || |fds[peer]| < globals.nEvents {
        return;
      }
      FinishUp();
    }

    /** The housekeeping after the last eventfd of a batch. */
    method FinishUp()
      requires firstpass ==> id.Some? && id.value in fds
      modifies this
      ensures Value() == Finish(old(Value())) && latestFd == old(latestFd)
    {
      MakeNotifiers();
      if firstpass {
        names := fds.Keys;
        Arm(notifiers[id.value]);
      }
      firstpass := false;
    }

    /** Notifiers for every list that has none. */
    method MakeNotifiers()
      modifies this`notifiers
      ensures notifiers == AllNotifiers(fds, old(notifiers))
    {
      var todo := fds.Keys;
      while todo != {}
        invariant todo <= fds.Keys <= notifiers.Keys + todo
        invariant AllNotifiers(fds, notifiers) == AllNotifiers(fds, old(notifiers))
        decreases todo
      {
        var peer := AnyOf(todo);
        if peer !in notifiers {
          NotifiersNext(fds, notifiers, peer);
          notifiers := notifiers[peer := fds[peer]];
        }
        todo := todo - {peer};
      }
      NotifiersDone(fds, notifiers);
    }

    method Arm(list: seq<Fd>)
      modifies this`armed
      ensures armed == list
    {
      armed := [];
      for i := 0 to |list|
        invariant armed == list[..i]
      {
        armed := armed + [list[i]];
      }
    }
  }
}
