/** What a Python client makes of what the Python server has sent it. */
module SwitchViews {
  import opened Prelude
  import opened SwitchClient
  import opened SwitchServer

  function MailboxOf(cfg: Config): Globals { Globals(EventCount(cfg), ServerId(cfg)) }

  /** A client once it has received everything sent to it. */
  function ClientOn(cfg: Config, st: State, sock: nat): Client
    requires sock in st.wires
  {
    Fold(NewClient, MailboxOf(cfg), st.wires[sock])
  }

  predicate Speaking(cfg: Config) { |cfg.serverFds| == EventCount(cfg) && cfg.shmFd > 0 }

  /** A client in service knows these lists, and has their notifiers. */
  predicate Serving(c: Client, cfg: Config, me: nat) {
    && Listening(c) && c.globals == MailboxOf(cfg) && !c.firstpass && c.id == Some(me) && c.notifiers == c.fds
    && (ServerId(cfg) in c.fds && c.fds[ServerId(cfg)] == cfg.serverFds)
  }

  lemma RosterDistinct(cfg: Config, st: State, me: nat)
    requires Inv(cfg, st) && Speaking(cfg) && me !in st.clients && 1 <= me <= cfg.nClients
    ensures var others := Roster(cfg, st);
            Distinct(others) && Complete(others, EventCount(cfg)) && forall i | 0 <= i < |others| :: others[i].id != me
  {
    forall i | 0 <= i < |st.order| ensures 1 <= st.order[i] <= cfg.nClients && |st.clients[st.order[i]].fds| == EventCount(cfg) {
      assert MemberOk(cfg, st, st.order[i]);
    }
  }

  /** The table after the join stream: the registered clients, the server and nobody else. */
  lemma RosterTable(cfg: Config, st: State, p: nat)
    requires Inv(cfg, st) && Distinct(Roster(cfg, st))
    ensures var table := TableOf(Roster(cfg, st));
            && (p in table <==> p == ServerId(cfg) || p in st.clients)
            && (p == ServerId(cfg) ==> table[p] == cfg.serverFds)
            && (p != ServerId(cfg) && p in table ==> table[p] == st.clients[p].fds)
  {
    var others := Roster(cfg, st);
    if p == ServerId(cfg) {
      TableHolds(others, |st.order|);
    } else if p in st.clients {
      var i :| 0 <= i < |st.order| && st.order[i] == p;
      TableHolds(others, i);
    } else {
      TableKeys(others, p);
    }
  }

  /** The newcomer's client, from the first-pass theorem. */
  lemma WelcomedAs(cfg: Config, st: State, me: Listing, c: Client)
    requires Inv(cfg, st) && Speaking(cfg) && me.id !in st.clients && 1 <= me.id <= cfg.nClients && |me.fds| == EventCount(cfg)
    requires c == Fold(NewClient, MailboxOf(cfg), JoinStream(Roster(cfg, st), me, cfg.shmFd))
    ensures Serving(c, cfg, me.id) && c.names == c.fds.Keys
    ensures forall p: nat | p != ServerId(cfg) ::
              && (p in c.fds <==> p == me.id || p in st.clients)
              && (p in c.fds ==> c.fds[p] == if p == me.id then me.fds else st.clients[p].fds)
  {
    RosterDistinct(cfg, st, me.id);
    FirstPass(Roster(cfg, st), me, cfg.shmFd, MailboxOf(cfg));
    RosterTable(cfg, st, ServerId(cfg));
    forall p: nat | p != ServerId(cfg)
      ensures (p in c.fds <==> p == me.id || p in st.clients)
              && (p in c.fds ==> c.fds[p] == if p == me.id then me.fds else st.clients[p].fds)
    {
      RosterTable(cfg, st, p);
    }
  }
}
