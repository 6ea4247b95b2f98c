/** The Python client of the switch: it turns a stream of (peer id, fd) packets into lists of
    event notifiers, and starts work when the last packet of its first pass is in. */
module SwitchClient {
  import opened Prelude

  type Fd = nat

  /** One delivery on a socket: some 8-byte words and perhaps a file descriptor. */
  datatype Packet = Packet(words: seq<int>, fd: Option<Fd>)

  const PROTOCOL_VERSION := 0

  /** What the client reads from the mailbox globals. */
  datatype Globals = Globals(nEvents: nat, serverId: nat)

  datatype Client = Client(
    id: Option<nat>, firstpass: bool, globals: Globals, prev: Option<nat>,
    fds: map<nat, seq<Fd>>,        // id2fd_list
    notifiers: map<nat, seq<Fd>>,  // id2EN_list, each notifier standing for its fd
    names: set<nat>,               // keys of id2nodename
    armed: seq<Fd>,                // notifiers this client listens on, in vector order
    failed: bool)                  // an exception has ended the connection

  const NewClient := Client(None, true, Globals(0, 0), None, map[], map[], {}, [], false)

  function Fail(c: Client): Client { c.(failed := true) }

  /** retrieve_initial_info; `mailbox` is what the mailbox behind the fd holds. */
  function Start(c: Client, mailbox: Globals, p: Packet): Client {
    if |p.words| != 3 || p.words[0] != PROTOCOL_VERSION || p.words[1] < 1 || p.words[2] != -1 then Fail(c)
    else if p.fd.None? || p.fd.value == 0 then Fail(c)
    else c.(id := Some(p.words[1]), globals := mailbox)
  }

  /** A peer has left.  Its name is looked up first, and may be missing. */
  function Forget(c: Client, peer: nat): Client {
    if peer !in c.names then Fail(c)
    else c.(notifiers := c.notifiers - {peer}, names := c.names - {peer}, fds := c.fds - {peer})
  }

  /** The fd list of a peer with one more fd, or nothing if an assertion fails. */
  function Extended(c: Client, serverId: nat, peer: nat, fd: Fd): Option<seq<Fd>> {
    if peer !in c.fds then Some([fd])
    else if |c.fds[peer]| > serverId then None
    else if |c.fds[peer]| == c.globals.nEvents then if Some(peer) == c.id then None else Some([fd])
    else Some(c.fds[peer] + [fd])
  }

  /** Notifiers for every list that has none yet. */
  function AllNotifiers(fds: map<nat, seq<Fd>>, notifiers: map<nat, seq<Fd>>): map<nat, seq<Fd>> {
    map k | k in fds.Keys + notifiers.Keys :: if k in notifiers then notifiers[k] else fds[k]
  }

  function Finish(c: Client): Client
    requires c.firstpass ==> c.id.Some?
  {
    var notifiers := AllNotifiers(c.fds, c.notifiers);
    if c.firstpass && c.id.value in notifiers then
      c.(notifiers := notifiers, names := c.fds.Keys, armed := notifiers[c.id.value], firstpass := false)
    else c.(notifiers := notifiers, firstpass := false)
  }

  function Store(c: Client, globals: Globals, peer: nat, list: seq<Fd>): Client {
    c.(globals := globals, prev := Some(peer), fds := c.fds[peer := list])
  }

  /** One eventfd of a peer, of the server or of ourselves. */
  function Learn(c: Client, peer: nat, fd: Fd): Client {
    var mine := c.id == Some(peer);
    if mine && c.globals.serverId == 0 && c.prev.None? then Fail(c)
    else
      var serverId := if mine && c.globals.serverId == 0 then c.prev.value else c.globals.serverId;
      match Extended(c, serverId, peer, fd)
      case None => Fail(c)
      case Some(list) =>
        var c' := Store(c, c.globals.(serverId := serverId), peer, list);
        if (c.firstpass && !mine) || |list| < c.globals.nEvents then c' else Finish(c')
  }

  /** dataReceived */
  function Receive(c: Client, mailbox: Globals, p: Packet): Client {
    if c.failed then c
    else if c.id.None? && c.firstpass then Start(c, mailbox, p)
    else if |p.words| != 1 || p.words[0] < 0 then Fail(c)
    else if p.fd.None? then Forget(c, p.words[0])
    else Learn(c, p.words[0], p.fd.value)
  }

  function Fold(c: Client, mailbox: Globals, stream: seq<Packet>): Client {
    if stream == [] then c else Receive(Fold(c, mailbox, stream[..|stream| - 1]), mailbox, stream[|stream| - 1])
  }

  lemma FoldSnoc(c: Client, mailbox: Globals, stream: seq<Packet>, p: Packet)
    ensures Fold(c, mailbox, stream + [p]) == Receive(Fold(c, mailbox, stream), mailbox, p)
  {
    assert (stream + [p])[..|stream|] == stream;
  }

  lemma {:induction false} FoldConcat(c: Client, mailbox: Globals, a: seq<Packet>, b: seq<Packet>)
    ensures Fold(c, mailbox, a + b) == Fold(Fold(c, mailbox, a), mailbox, b)
  {
    if b == [] {
      assert a + b == a;
    } else {
      assert (a + b)[..|a + b| - 1] == a + b[..|b| - 1];
      FoldConcat(c, mailbox, a, b[..|b| - 1]);
    }
  }

  // ---- before the first pass ends

  /** While the first pass lasts there are no notifiers and nothing is armed. */
  predicate Idle(c: Client) { c.firstpass ==> c.notifiers == map[] && c.armed == [] }

  lemma ReceiveIdle(c: Client, mailbox: Globals, p: Packet)
    requires Idle(c)
    ensures Idle(Receive(c, mailbox, p)) && (Receive(c, mailbox, p).firstpass ==> c.firstpass)
  {
  }

  /** If the first pass is still on after a stream, it was on, and nothing was armed, after
      every part of it. */
  lemma {:induction false} FirstPassPrefix(c: Client, mailbox: Globals, stream: seq<Packet>, k: nat)
    requires Idle(c) && k <= |stream| && Fold(c, mailbox, stream).firstpass
    ensures var c' := Fold(c, mailbox, stream[..k]); c'.firstpass && Idle(c')
    decreases |stream|
  {
    var init := stream[..if |stream| == 0 then 0 else |stream| - 1];
    FoldIdle(c, mailbox, stream);
    if k == |stream| {
      assert stream[..k] == stream;
    } else {
      FoldIdle(c, mailbox, init);
      ReceiveIdle(Fold(c, mailbox, init), mailbox, stream[|stream| - 1]);
      FirstPassPrefix(c, mailbox, init, k);
      assert init[..k] == stream[..k];
    }
  }

  lemma {:induction false} FoldIdle(c: Client, mailbox: Globals, stream: seq<Packet>)
    requires Idle(c)
    ensures Idle(Fold(c, mailbox, stream))
    decreases |stream|
  {
    if stream != [] {
      FoldIdle(c, mailbox, stream[..|stream| - 1]);
      ReceiveIdle(Fold(c, mailbox, stream[..|stream| - 1]), mailbox, stream[|stream| - 1]);
    }
  }

  // ---- whole batches

  function Batch(id: int, fds: seq<Fd>): seq<Packet> {
    seq(|fds|, i requires 0 <= i < |fds| => Packet([id], Some(fds[i])))
  }

  lemma BatchSnoc(id: int, fds: seq<Fd>, k: nat)
    requires k < |fds|
    ensures Batch(id, fds[..k + 1]) == Batch(id, fds[..k]) + [Packet([id], Some(fds[k]))]
    ensures fds[..k + 1] == fds[..k] + [fds[k]]
  {
  }

  predicate Layout(g: Globals) { g.serverId > 0 && g.nEvents == g.serverId + 1 }

  predicate Listening(c: Client) { !c.failed && c.id.Some? && Layout(c.globals) }

  /** A list growing towards its full length, with no notifiers made. */
  function Growing(c: Client, peer: nat, fds: seq<Fd>): Client {
    if fds == [] then c else Store(c, c.globals, peer, fds)
  }

  lemma GrowOne(c: Client, peer: nat, fds: seq<Fd>, fd: Fd)
    requires Listening(c) && peer !in c.fds && |fds| < c.globals.serverId + 1
    requires (c.firstpass && c.id != Some(peer)) || |fds| < c.globals.serverId
    ensures Learn(Growing(c, peer, fds), peer, fd) == Growing(c, peer, fds + [fd])
  {
    assert c.fds[peer := fds][peer := fds + [fd]] == c.fds[peer := fds + [fd]];
    assert [] + [fd] == [fd];
  }

  /** A prefix of a batch grows the peer's list, and does nothing else. */
  lemma {:induction false} FoldGrowing(c: Client, mailbox: Globals, peer: nat, fds: seq<Fd>, k: nat)
    requires Listening(c) && peer !in c.fds && k <= |fds|
    requires k <= c.globals.serverId || (k == c.globals.nEvents && c.firstpass && c.id != Some(peer))
    ensures Fold(c, mailbox, Batch(peer, fds[..k])) == Growing(c, peer, fds[..k])
    decreases k
  {
    if k > 0 {
      FoldGrowing(c, mailbox, peer, fds, k - 1);
      BatchSnoc(peer, fds, k - 1);
      FoldSnoc(c, mailbox, Batch(peer, fds[..k - 1]), Packet([peer], Some(fds[k - 1])));
      GrowOne(c, peer, fds[..k - 1], fds[k - 1]);
    }
  }

  /** During the first pass a whole batch of somebody else only fills its list. */
  lemma OtherBatch(c: Client, mailbox: Globals, peer: nat, fds: seq<Fd>)
    requires Listening(c) && c.firstpass && c.id != Some(peer) && peer !in c.fds && |fds| == c.globals.nEvents
    ensures Fold(c, mailbox, Batch(peer, fds)) == Store(c, c.globals, peer, fds)
  {
    assert fds[..|fds|] == fds;
    FoldGrowing(c, mailbox, peer, fds, |fds|);
  }

  lemma LastOfBatch(c: Client, mailbox: Globals, peer: nat, fds: seq<Fd>)
    requires Listening(c) && peer !in c.fds && |fds| == c.globals.nEvents && (c.firstpass ==> c.id == Some(peer))
    ensures Fold(c, mailbox, Batch(peer, fds[..c.globals.serverId])) == Store(c, c.globals, peer, fds[..c.globals.serverId])
    ensures Fold(c, mailbox, Batch(peer, fds)) == Finish(Store(c, c.globals, peer, fds))
  {
    var k := c.globals.serverId;
    FoldGrowing(c, mailbox, peer, fds, k);
    BatchSnoc(peer, fds, k);
    assert fds[..k + 1] == fds;
    FoldSnoc(c, mailbox, Batch(peer, fds[..k]), Packet([peer], Some(fds[k])));
    assert c.fds[peer := fds[..k]][peer := fds] == c.fds[peer := fds];
  }

  /** Afterwards a new peer's batch gives it notifiers and leaves the others alone. */
  lemma NewPeerBatch(c: Client, mailbox: Globals, peer: nat, fds: seq<Fd>)
    requires Listening(c) && !c.firstpass && peer !in c.fds && |fds| == c.globals.nEvents && c.notifiers == c.fds
    ensures var c' := Fold(c, mailbox, Batch(peer, fds));
            && c' == c.(fds := c.fds[peer := fds], notifiers := c.fds[peer := fds], prev := Some(peer))
  {
    LastOfBatch(c, mailbox, peer, fds);
    assert AllNotifiers(c.fds[peer := fds], c.notifiers) == c.fds[peer := fds];
  }

  // ---- the first pass

  datatype Listing = Listing(id: nat, fds: seq<Fd>)

  /** Several batches, one after the other. */
  function Stream(batches: seq<Listing>): seq<Packet> {
    if batches == [] then []
    else Stream(batches[..|batches| - 1]) + Batch(batches[|batches| - 1].id, batches[|batches| - 1].fds)
  }

  predicate Distinct(batches: seq<Listing>) { forall i, j | 0 <= i < j < |batches| :: batches[i].id != batches[j].id }

  predicate Complete(batches: seq<Listing>, n: nat) { forall i | 0 <= i < |batches| :: |batches[i].fds| == n }

  function TableOf(batches: seq<Listing>): map<nat, seq<Fd>> {
    if batches == [] then map[]
    else TableOf(batches[..|batches| - 1])[batches[|batches| - 1].id := batches[|batches| - 1].fds]
  }

  lemma {:induction false} TableKeys(batches: seq<Listing>, id: nat)
    requires forall i | 0 <= i < |batches| :: batches[i].id != id
    ensures id !in TableOf(batches)
  {
    if batches != [] {
      TableKeys(batches[..|batches| - 1], id);
    }
  }

  /** With distinct ids the table holds every batch. */
  lemma {:induction false} TableHolds(batches: seq<Listing>, i: nat)
    requires Distinct(batches) && i < |batches|
    ensures batches[i].id in TableOf(batches) && TableOf(batches)[batches[i].id] == batches[i].fds
  {
    if i < |batches| - 1 {
      TableHolds(batches[..|batches| - 1], i);
    }
  }

  /** A client that has its id and waits for its first pass. */
  function Fresh(id: nat, g: Globals): Client { NewClient.(id := Some(id), globals := g) }

  lemma {:induction false} FoldOthers(id: nat, g: Globals, batches: seq<Listing>) returns (prev: Option<nat>)
    requires Layout(g) && Distinct(batches) && Complete(batches, g.nEvents)
    requires forall i | 0 <= i < |batches| :: batches[i].id != id
    ensures Fold(Fresh(id, g), g, Stream(batches)) == Fresh(id, g).(fds := TableOf(batches), prev := prev)
    decreases |batches|
  {
    prev := None;
    if batches != [] {
      var init, last := batches[..|batches| - 1], batches[|batches| - 1];
      prev := FoldOthers(id, g, init);
      TableKeys(init, last.id);
      FoldConcat(Fresh(id, g), g, Stream(init), Batch(last.id, last.fds));
      OtherBatch(Fresh(id, g).(fds := TableOf(init), prev := prev), g, last.id, last.fds);
      prev := Some(last.id);
    }
  }

  function Hello(id: int, shmFd: Fd): Packet { Packet([PROTOCOL_VERSION, id, -1], Some(shmFd)) }

  /** What a server sends a newcomer; the last of `others` is the server itself unless silent. */
  function JoinStream(others: seq<Listing>, me: Listing, shmFd: Fd): seq<Packet> {
    [Hello(me.id, shmFd)] + Stream(others) + Batch(me.id, me.fds)
  }

  predicate Joinable(others: seq<Listing>, me: Listing, shmFd: Fd, g: Globals) {
    && Layout(g) && shmFd > 0 && me.id >= 1
    && Distinct(others) && Complete(others, g.nEvents) && |me.fds| == g.nEvents
    && forall i | 0 <= i < |others| :: others[i].id != me.id
  }

  /** The client at the end of its first pass. */
  function Ready(others: seq<Listing>, me: Listing, g: Globals): Client {
    var table := TableOf(others)[me.id := me.fds];
    Client(Some(me.id), false, g, Some(me.id), table, table, table.Keys, me.fds, false)
  }

  lemma FoldHello(id: nat, shmFd: Fd, g: Globals, rest: seq<Packet>)
    requires shmFd > 0 && id >= 1
    ensures Fold(NewClient, g, [Hello(id, shmFd)] + rest) == Fold(Fresh(id, g), g, rest)
  {
    FoldConcat(NewClient, g, [Hello(id, shmFd)], rest);
    assert [Hello(id, shmFd)][..0] == [];
  }

  /** Still in the first pass: no notifier exists and nothing is armed. */
  predicate Waiting(c: Client) { c.firstpass && c.notifiers == map[] && c.armed == [] }

  /** The join stream ends the first pass exactly at its last packet: before it nothing has a
      notifier and nothing is armed, after it every list has its notifiers in order. */
  lemma FirstPass(others: seq<Listing>, me: Listing, shmFd: Fd, g: Globals)
    requires Joinable(others, me, shmFd, g)
    ensures Fold(NewClient, g, JoinStream(others, me, shmFd)) == Ready(others, me, g)
    ensures forall k | 0 <= k < |JoinStream(others, me, shmFd)| :: Waiting(Fold(NewClient, g, JoinStream(others, me, shmFd)[..k]))
  {
    var head := [Hello(me.id, shmFd)] + Stream(others);
    var prev := FoldHead(others, me, shmFd, g);
    var c := Fresh(me.id, g).(fds := TableOf(others), prev := prev);
    OwnBatch(c, g, me);
    FoldConcat(NewClient, g, head, Batch(me.id, me.fds));
    forall k | 0 <= k < |head + Batch(me.id, me.fds)| ensures Waiting(Fold(NewClient, g, (head + Batch(me.id, me.fds))[..k])) {
      WaitingBefore(head, c, me, g, k);
    }
  }

  lemma FoldHead(others: seq<Listing>, me: Listing, shmFd: Fd, g: Globals) returns (prev: Option<nat>)
    requires Joinable(others, me, shmFd, g)
    ensures Fold(NewClient, g, [Hello(me.id, shmFd)] + Stream(others)) == Fresh(me.id, g).(fds := TableOf(others), prev := prev)
    ensures me.id !in TableOf(others)
  {
    FoldHello(me.id, shmFd, g, Stream(others));
    prev := FoldOthers(me.id, g, others);
    TableKeys(others, me.id);
  }

  lemma OwnBatch(c: Client, mailbox: Globals, me: Listing)
    requires Listening(c) && Waiting(c) && c.id == Some(me.id) && me.id !in c.fds && |me.fds| == c.globals.nEvents
    ensures Fold(c, mailbox, Batch(me.id, me.fds[..|me.fds| - 1])).firstpass
    ensures var table := c.fds[me.id := me.fds];
            Fold(c, mailbox, Batch(me.id, me.fds))
            == c.(firstpass := false, prev := Some(me.id), fds := table, notifiers := table, names := table.Keys, armed := me.fds)
  {
    LastOfBatch(c, mailbox, me.id, me.fds);
    var table := c.fds[me.id := me.fds];
    assert AllNotifiers(table, map[]) == table;
  }

  lemma ButLast(head: seq<Packet>, me: Listing, k: nat)
    requires k < |head| + |me.fds| && me.fds != []
    ensures (head + Batch(me.id, me.fds[..|me.fds| - 1]))[..k] == (head + Batch(me.id, me.fds))[..k]
  {
  }

  lemma WaitingBefore(head: seq<Packet>, c: Client, me: Listing, g: Globals, k: nat)
    requires Fold(NewClient, g, head) == c && k < |head| + |me.fds|
    requires Listening(c) && Waiting(c) && c.id == Some(me.id) && me.id !in c.fds && |me.fds| == c.globals.nEvents
    ensures Waiting(Fold(NewClient, g, (head + Batch(me.id, me.fds))[..k]))
  {
    var init := head + Batch(me.id, me.fds[..|me.fds| - 1]);
    FoldConcat(NewClient, g, head, Batch(me.id, me.fds[..|me.fds| - 1]));
    OwnBatch(c, g, me);
    FirstPassPrefix(NewClient, g, init, k);
    ButLast(head, me, k);
  }

  /** responder_EN: the notifier that tells `dest` about a message from `src`. */
  function ResponderNotifier(c: Client, dest: nat, src: int): Option<Fd> {
    if dest in c.notifiers && 0 <= src < |c.notifiers[dest]| then Some(c.notifiers[dest][src]) else None
  }

  /** After the first pass every source up to the server has a notifier at every destination. */
  lemma EveryoneReachable(others: seq<Listing>, me: Listing, shmFd: Fd, g: Globals, i: nat, src: nat)
    requires Joinable(others, me, shmFd, g) && i <= |others| && src <= g.serverId
    ensures var dest := if i < |others| then others[i] else me;
            ResponderNotifier(Fold(NewClient, g, JoinStream(others, me, shmFd)), dest.id, src) == Some(dest.fds[src])
  {
    FirstPass(others, me, shmFd, g);
    if i < |others| {
      TableHolds(others, i);
    }
  }

  // ---- what a running client does with later packets

  /** A departure is handled exactly when the name of the peer has been looked up before. */
  lemma DepartureHandledIffNamed(c: Client, mailbox: Globals, peer: nat)
    requires Listening(c)
    ensures var c' := Receive(c, mailbox, Packet([peer], None));
            && (!c'.failed <==> peer in c.names)
            && (!c'.failed ==> peer !in c'.fds && peer !in c'.notifiers && c'.fds == c.fds - {peer} && c'.notifiers == c.notifiers - {peer})
  {
  }

  /** A peer that joined later has no name yet, so its departure ends this client. */
  lemma LateJoinerDeparts(others: seq<Listing>, me: Listing, shmFd: Fd, g: Globals, late: Listing)
    requires Joinable(others, me, shmFd, g) && |late.fds| == g.nEvents && late.id != me.id
    requires forall i | 0 <= i < |others| :: others[i].id != late.id
    ensures Fold(NewClient, g, JoinStream(others, me, shmFd) + Batch(late.id, late.fds) + [Packet([late.id], None)]).failed
  {
    var join, batch := JoinStream(others, me, shmFd), Batch(late.id, late.fds);
    FirstPass(others, me, shmFd, g);
    TableKeys(others, late.id);
    FoldConcat(NewClient, g, join, batch);
    NewPeerBatch(Ready(others, me, g), g, late.id, late.fds);
    FoldSnoc(NewClient, g, join + batch, Packet([late.id], None));
  }

  /** Advertising a peer twice without a departure between ends the client: the branch meant for
      it sits behind an assertion that a full list fails. */
  lemma SecondBatchFails(c: Client, mailbox: Globals, peer: nat, fd: Fd)
    requires Listening(c) && peer in c.fds && |c.fds[peer]| == c.globals.nEvents
    ensures Receive(c, mailbox, Packet([peer], Some(fd))).failed
  {
  }

  // ---- what a client accepts at all

  /** The first delivery must be the three initial words with the mailbox, and nothing else will do. */
  lemma HelloAcceptedIff(mailbox: Globals, p: Packet)
    ensures var c := Receive(NewClient, mailbox, p);
            && (!c.failed <==> |p.words| == 3 && p.words[0] == 0 && p.words[1] >= 1 && p.words[2] == -1 && p.fd.Some? && p.fd.value > 0)
            && (!c.failed ==> c == NewClient.(id := Some(p.words[1]), globals := mailbox))
  {
  }

  /** Later deliveries must be one word that is not negative. */
  lemma BadWordsFail(c: Client, mailbox: Globals, p: Packet)
    requires c.id.Some? && (|p.words| != 1 || p.words[0] < 0)
    ensures Receive(c, mailbox, p).failed
  {
  }

  /** Where the globals name no server, it is the peer whose eventfd came just before our own first. */
  lemma ServerInferred(c: Client, mailbox: Globals, server: nat, fd: Fd)
    requires !c.failed && c.id.Some? && c.globals.serverId == 0 && c.prev == Some(server) && c.id.value !in c.fds
    ensures var c' := Receive(c, mailbox, Packet([c.id.value], Some(fd)));
            !c'.failed && c'.globals.serverId == server && c'.fds == c.fds[c.id.value := [fd]]
  {
  }
}
