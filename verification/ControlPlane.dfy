/** A managing server and its clients exchanging control messages over lossless FIFO channels.

    The system runs on texts: each delivery is one call of the request handler on the text at the
    head of a channel, and the reply is the text that goes into the opposite channel. */
module ControlPlane {
  import opened Prelude
  import opened Text
  import opened Csv
  import opened Requests
  import opened RequestTags
  import opened RequestKinds

  const FABRIC_SID := 27

  /** One client: its own process and state, the server's proxy for it, and the two channels. */
  datatype Peer = Peer(proc: Proc, resp: Responder, proxy: Responder, up: seq<string>, down: seq<string>, requested: bool)

  datatype State = State(serverId: nat, server: Proc, peers: map<nat, Peer>)

  datatype Step = Join(c: nat) | Ask(c: nat) | Request(c: nat) | ToServer(c: nat) | ToClient(c: nat)

  function NewProxy(c: nat, serverId: nat): Responder {
    Responder(Switch(true, FABRIC_SID, serverId * 100), "Switch", FABRIC_SID, c * 100, false,
              map["CID0" := "0", "SID0" := "0", "C-Class" := "Driverless QEMU"])
  }

  function NewPeer(c: nat, serverId: nat, hello: string): Peer {
    Peer(Proc(1, map[], 0), Responder(Endpoint, "Debugger", 0, 0, false, map[]), NewProxy(c, serverId), [], [hello], false)
  }

  function Replies(reply: Option<string>): seq<string> { match reply case Some(text) => [text] case None => [] }

  /** The client sends a message of its own accord. */
  function Initiate(p: Peer, proc: Proc, text: string): Peer {
    var out := Send(proc, p.resp, text);
    p.(proc := out.proc, up := p.up + Replies(out.reply))
  }

  function ServerOutcome(server: Proc, p: Peer): Outcome
    requires p.up != []
  {
    Handle(server, p.proxy, p.up[0])
  }

  function AfterServer(server: Proc, p: Peer): Peer
    requires p.up != []
  {
    var out := ServerOutcome(server, p);
    p.(proxy := out.resp, up := p.up[1..], down := p.down + Replies(out.reply))
  }

  function AfterClient(p: Peer): Peer
    requires p.down != []
  {
    var out := Handle(p.proc, p.resp, p.down[0]);
    p.(proc := out.proc, resp := out.resp, down := p.down[1..], up := p.up + Replies(out.reply))
  }

  predicate Enabled(st: State, step: Step) {
    match step
    case Join(c) => c !in st.peers && 1 <= c < st.serverId
    case Ask(c) => c in st.peers
    case Request(c) => c in st.peers
    case ToServer(c) => c in st.peers && st.peers[c].up != []
    case ToClient(c) => c in st.peers && st.peers[c].down != []
  }

  function Apply(st: State, step: Step): State
    requires Enabled(st, step)
  {
    match step
    case Join(c) =>
      var out := Send(st.server, NewProxy(c, st.serverId), PEER_ATTRIBUTE);
      st.(server := out.proc, peers := st.peers[c := NewPeer(c, st.serverId, out.reply.value)])
    case Ask(c) => st.(peers := st.peers[c := Initiate(st.peers[c], st.peers[c].proc, PEER_ATTRIBUTE)])
    case Request(c) =>
      var p := st.peers[c];
      st.(peers := st.peers[c := Initiate(p, p.proc.(tracker := 0), RFC_TEXT).(requested := true)])
    case ToServer(c) =>
      st.(server := ServerOutcome(st.server, st.peers[c]).proc, peers := st.peers[c := AfterServer(st.server, st.peers[c])])
    case ToClient(c) => st.(peers := st.peers[c := AfterClient(st.peers[c])])
  }

  predicate Init(st: State) { st.server == Proc(1, map[], 0) && st.peers == map[] }

  predicate ValidRun(st: State, run: seq<Step>)
    decreases |run|
  {
    run == [] || (Enabled(st, run[0]) && ValidRun(Apply(st, run[0]), run[1..]))
  }

  function Final(st: State, run: seq<Step>): State
    requires ValidRun(st, run)
    decreases |run|
  {
    if run == [] then st else Final(Apply(st, run[0]), run[1..])
  }

  predicate Quiet(st: State) { forall c | c in st.peers :: st.peers[c].up == [] && st.peers[c].down == [] }

  // ---- what the texts in flight mean

  function Kinds(q: seq<string>): seq<Kind> { seq(|q|, i requires 0 <= i < |q| => KindOf(q[i])) }

  lemma KindsPush(q: seq<string>, text: string)
    ensures Kinds(q + [text]) == Kinds(q) + [KindOf(text)]
  {
  }

  lemma KindsPop(q: seq<string>)
    requires q != []
    ensures Kinds(q)[0] == KindOf(q[0]) && Kinds(q[1..]) == Kinds(q)[1..]
  {
  }

  /** The part of a peer's state that matters, with texts replaced by their kinds. */
  datatype View = View(
    up: seq<Kind>, down: seq<Kind>, configured: bool, sid: int, cid: int, attrs: Dict, requested: bool)

  function ViewOf(p: Peer): View {
    View(Kinds(p.up), Kinds(p.down), p.resp.configured, p.resp.sid0, p.resp.cid0, p.proxy.peerattrs, p.requested)
  }

  predicate ParticipantsOk(p: Peer, c: nat, serverId: nat) {
    && p.proxy.role == Switch(true, FABRIC_SID, serverId * 100) && p.proxy.cClass == "Switch"
    && p.proxy.sid0 == FABRIC_SID && p.proxy.cid0 == c * 100
    && p.resp.role.Endpoint? && p.resp.cClass == "Debugger"
  }

  function SwitchAttributes(serverId: nat): Dict { AttributesOf("Switch", FABRIC_SID, serverId * 100) }

  /** What the server does with the message at the head of a channel. */
  function ServerView(v: View, c: nat, serverId: nat, nextTag: nat): View
    requires v.up != []
  {
    var v' := v.(up := v.up[1..]);
    match v.up[0]
    case Rfc => v'.(down := v.down + [Configure(FABRIC_SID, c * 100, Show(nextTag))])
    case Acked(_) => v'.(down := v.down + [AskAttributes])
    case AskAttributes => v'.(down := v.down + [Attributes(SwitchAttributes(serverId))])
    case Attributes(kv) => v'.(attrs := kv)
    case _ => v'
  }

  function ServerTags(tags: set<string>, k: Kind, nextTag: nat): set<string> {
    match k
    case Rfc => tags + {Show(nextTag)}
    case Acked(tag) => tags - {tag}
    case _ => tags
  }

  function ClientView(v: View): View
    requires v.down != []
  {
    var v' := v.(down := v.down[1..]);
    match v.down[0]
    case Configure(sid, cid, tag) => v'.(sid := sid, cid := cid, configured := true, up := v.up + [Acked(tag)])
    case AskAttributes => v'.(up := v.up + [Attributes(AttributesOf("Debugger", v.sid, v.cid))])
    case _ => v'
  }

  predicate UpKind(k: Kind) { k.Rfc? || k.Acked? || k.AskAttributes? || k.Attributes? }

  predicate DownKind(k: Kind, c: nat) {
    (k.Configure? && k.sid == FABRIC_SID && k.cid == c * 100 && Token(k.tag)) || k.AskAttributes? || k.Attributes?
  }

  // ---- the handlers, seen through the kinds

  /** The server's side of one delivery, on the texts, is the step on kinds. */
  predicate ServerStepOk(server: Proc, p: Peer, c: nat, serverId: nat)
    requires p.up != []
  {
    var server', p' := ServerOutcome(server, p).proc, AfterServer(server, p);
    && ViewOf(p') == ServerView(ViewOf(p), c, serverId, server.nextTag)
    && server'.tagged.Keys == ServerTags(server.tagged.Keys, KindOf(p.up[0]), server.nextTag)
    && ParticipantsOk(p', c, serverId)
  }

  lemma ServerRefines(server: Proc, p: Peer, c: nat, serverId: nat)
    requires TagInv(server) && ParticipantsOk(p, c, serverId) && p.up != []
    requires UpKind(KindOf(p.up[0])) && (KindOf(p.up[0]).Acked? ==> KindOf(p.up[0]).tag in server.tagged)
    ensures ServerStepOk(server, p, c, serverId)
  {
    match KindOf(p.up[0])
    case Rfc => RfcRefines(server, p, c, serverId);
    case Acked(_) => AckedRefines(server, p, c, serverId);
    case AskAttributes => AskRefines(server, p, c, serverId);
    case Attributes(_) => AttributesRefine(server, p, c, serverId);
  }

  lemma RfcRefines(server: Proc, p: Peer, c: nat, serverId: nat)
    requires ParticipantsOk(p, c, serverId) && p.up != [] && KindOf(p.up[0]).Rfc?
    ensures ServerStepOk(server, p, c, serverId)
  {
    KindsPop(p.up);
    ServerOnRfc(server, p, c, serverId);
  }

  lemma AckedRefines(server: Proc, p: Peer, c: nat, serverId: nat)
    requires ParticipantsOk(p, c, serverId) && p.up != []
    requires TagInv(server) && KindOf(p.up[0]).Acked? && KindOf(p.up[0]).tag in server.tagged
    ensures ServerStepOk(server, p, c, serverId)
  {
    KindsPop(p.up);
    ServerOnAcked(server, p);
  }

  lemma AskRefines(server: Proc, p: Peer, c: nat, serverId: nat)
    requires ParticipantsOk(p, c, serverId) && p.up != [] && KindOf(p.up[0]).AskAttributes?
    ensures ServerStepOk(server, p, c, serverId)
  {
    KindsPop(p.up);
    ServerOnAsk(server, p, serverId);
  }

  lemma AttributesRefine(server: Proc, p: Peer, c: nat, serverId: nat)
    requires ParticipantsOk(p, c, serverId) && p.up != [] && KindOf(p.up[0]).Attributes?
    ensures ServerStepOk(server, p, c, serverId)
  {
    KindsPop(p.up);
    ServerOnAttributes(server, p);
  }

  lemma ServerOnAttributes(server: Proc, p: Peer)
    requires p.up != [] && KindOf(p.up[0]).Attributes?
    ensures var out := ServerOutcome(server, p);
            && out.resp == p.proxy.(peerattrs := KindOf(p.up[0]).kv) && out.proc.tagged == server.tagged
            && p.down + Replies(out.reply) == p.down
  {
    var proc := HandleAttributes(server, p.proxy, p.up[0]);
  }

  lemma ServerOnRfc(server: Proc, p: Peer, c: nat, serverId: nat)
    requires ParticipantsOk(p, c, serverId) && p.up != [] && KindOf(p.up[0]) == Rfc
    ensures var out := ServerOutcome(server, p);
            && out.resp == p.proxy && out.reply.Some?
            && Kinds(p.down + Replies(out.reply)) == Kinds(p.down) + [Configure(FABRIC_SID, c * 100, Show(server.nextTag))]
            && out.proc.tagged.Keys == server.tagged.Keys + {Show(server.nextTag)}
  {
    var proc := HandleRfc(server, p.proxy, p.up[0]);
    var tag := Show(server.nextTag);
    ShowToken(server.nextTag);
    ConfigureKind(FABRIC_SID, serverId * 100, FABRIC_SID, c * 100, tag, proc.tracker + 1);
    KindsPush(p.down, ServerOutcome(server, p).reply.value);
  }

  lemma ServerOnAcked(server: Proc, p: Peer)
    requires TagInv(server) && p.up != [] && KindOf(p.up[0]).Acked? && KindOf(p.up[0]).tag in server.tagged
    ensures var out := ServerOutcome(server, p);
            && out.resp == p.proxy && out.reply.Some?
            && Kinds(p.down + Replies(out.reply)) == Kinds(p.down) + [AskAttributes]
            && out.proc.tagged.Keys == server.tagged.Keys - {KindOf(p.up[0]).tag}
  {
    var proc := HandleAcked(server, p.proxy, p.up[0]);
    AskKind(proc.tracker + 1);
    KindsPush(p.down, ServerOutcome(server, p).reply.value);
  }

  lemma ServerOnAsk(server: Proc, p: Peer, serverId: nat)
    requires p.up != [] && KindOf(p.up[0]) == AskAttributes
    requires p.proxy.role == Switch(true, FABRIC_SID, serverId * 100) && p.proxy.cClass == "Switch"
    ensures var out := ServerOutcome(server, p);
            && out.resp == p.proxy && out.reply.Some?
            && Kinds(p.down + Replies(out.reply)) == Kinds(p.down) + [Attributes(SwitchAttributes(serverId))]
            && out.proc.tagged == server.tagged
  {
    var proc := HandleAsk(server, p.proxy, p.up[0]);
    ClassTokens();
    AttributesKind("Switch", FABRIC_SID, serverId * 100, proc.tracker + 1);
    KindsPush(p.down, ServerOutcome(server, p).reply.value);
  }

  lemma ClassTokens()
    ensures Token("Switch") && Token("Debugger")
  {
  }

  lemma ClientRefines(p: Peer, c: nat, serverId: nat)
    requires ParticipantsOk(p, c, serverId) && p.down != [] && DownKind(KindOf(p.down[0]), c)
    ensures ViewOf(AfterClient(p)) == ClientView(ViewOf(p)) && ParticipantsOk(AfterClient(p), c, serverId)
  {
    KindsPop(p.down);
    match KindOf(p.down[0])
    case Configure(_, _, _) => ClientOnConfigure(p);
    case AskAttributes => ClientOnAsk(p);
    case Attributes(_) =>
      var proc := HandleAttributes(p.proc, p.resp, p.down[0]);
      assert p.up + [] == p.up;
  }

  lemma ClientOnConfigure(p: Peer)
    requires p.down != [] && KindOf(p.down[0]).Configure? && Token(KindOf(p.down[0]).tag) && p.resp.role.Endpoint?
    ensures var k := KindOf(p.down[0]);
            var out := Handle(p.proc, p.resp, p.down[0]);
            && out.resp == p.resp.(sid0 := k.sid, cid0 := k.cid, configured := true)
            && Kinds(p.up + Replies(out.reply)) == Kinds(p.up) + [Acked(k.tag)]
  {
    var proc := HandleConfigure(p.proc, p.resp, p.down[0]);
    AckedKind(KindOf(p.down[0]).tag, proc.tracker + 1);
    KindsPush(p.up, Handle(p.proc, p.resp, p.down[0]).reply.value);
  }

  lemma ClientOnAsk(p: Peer)
    requires p.down != [] && KindOf(p.down[0]) == AskAttributes && p.resp.role.Endpoint? && p.resp.cClass == "Debugger"
    ensures var out := Handle(p.proc, p.resp, p.down[0]);
            && out.resp == p.resp
            && Kinds(p.up + Replies(out.reply)) == Kinds(p.up) + [Attributes(AttributesOf("Debugger", p.resp.sid0, p.resp.cid0))]
  {
    var proc := HandleAsk(p.proc, p.resp, p.down[0]);
    ClassTokens();
    AttributesKind("Debugger", p.resp.sid0, p.resp.cid0, proc.tracker + 1);
    KindsPush(p.up, Handle(p.proc, p.resp, p.down[0]).reply.value);
  }

  /** Messages a client starts on its own. */
  lemma InitiateRefines(p: Peer, proc: Proc, text: string, k: Kind)
    requires KindOf(Suffixed(text, proc.tracker + 1)) == k
    ensures ViewOf(Initiate(p, proc, text)) == ViewOf(p).(up := ViewOf(p).up + [k])
  {
    KindsPush(p.up, Suffixed(text, proc.tracker + 1));
  }
}
