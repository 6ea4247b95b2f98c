/** Configuration converges: when the control plane falls quiet, every client that asked is
    configured, the server knows its attributes, and no tag is left outstanding. */
module Convergence {
  import opened Prelude
  import opened Text
  import opened Csv
  import opened Requests
  import opened RequestTags
  import opened RequestKinds
  import opened ControlPlane

  // ---- what a channel carries

  predicate Carries(k: Kind, tag: string) { (k.Configure? || k.Acked?) && k.tag == tag }

  function One(b: bool): nat { if b then 1 else 0 }

  /** How many messages in a channel carry a tag. */
  function TagCount(q: seq<Kind>, tag: string): nat {
    if q == [] then 0 else TagCount(q[..|q| - 1], tag) + One(Carries(q[|q| - 1], tag))
  }

  lemma CountPush(q: seq<Kind>, k: Kind, tag: string)
    ensures TagCount(q + [k], tag) == TagCount(q, tag) + One(Carries(k, tag))
  {
    assert (q + [k])[..|q|] == q;
  }

  lemma {:induction false} CountPop(q: seq<Kind>, tag: string)
    requires q != []
    ensures TagCount(q, tag) == One(Carries(q[0], tag)) + TagCount(q[1..], tag)
  {
    if |q| > 1 {
      var init, last := q[..|q| - 1], q[|q| - 1];
      CountPop(init, tag);
      assert q[1..] == init[1..] + [last];
      CountPush(init[1..], last, tag);
    } else {
      assert q[..0] == [] && q[1..] == [];
    }
  }

  function Noted(attrs: Dict, k: Kind): Dict { match k case Attributes(kv) => kv case _ => attrs }

  /** The attributes the server will hold once it has read everything in the channel. */
  function FinalAttrs(q: seq<Kind>, attrs: Dict): Dict {
    if q == [] then attrs else Noted(FinalAttrs(q[..|q| - 1], attrs), q[|q| - 1])
  }

  lemma FinalPush(q: seq<Kind>, attrs: Dict, k: Kind)
    ensures FinalAttrs(q + [k], attrs) == Noted(FinalAttrs(q, attrs), k)
  {
    assert (q + [k])[..|q|] == q;
  }

  lemma {:induction false} FinalPop(q: seq<Kind>, attrs: Dict)
    requires q != []
    ensures FinalAttrs(q, attrs) == FinalAttrs(q[1..], Noted(attrs, q[0]))
  {
    if |q| > 1 {
      var init, last := q[..|q| - 1], q[|q| - 1];
      FinalPop(init, attrs);
      assert q[1..] == init[1..] + [last];
      FinalPush(init[1..], Noted(attrs, q[0]), last);
    } else {
      assert q[..0] == [] && q[1..] == [];
    }
  }

  // ---- membership, as channels move

  lemma InPush<T>(q: seq<T>, x: T, k: T)
    requires x in q || x == k
    ensures x in q + [k]
  {
    assert (q + [k])[|q|] == k;
  }

  lemma InPop<T>(q: seq<T>, x: T)
    requires x in q && x != q[0]
    ensures x in q[1..]
  {
  }

  predicate HasAcked(q: seq<Kind>) { exists k | k in q :: k.Acked? }

  predicate HasConfigure(q: seq<Kind>) { exists k | k in q :: k.Configure? }

  lemma AckedPush(q: seq<Kind>, k: Kind)
    ensures HasAcked(q) || k.Acked? ==> HasAcked(q + [k])
  {
    if HasAcked(q) {
      var x :| x in q && x.Acked?;
      InPush(q, x, k);
    } else if k.Acked? {
      InPush(q, k, k);
    }
  }

  lemma AckedPop(q: seq<Kind>)
    requires HasAcked(q) && !q[0].Acked?
    ensures HasAcked(q[1..])
  {
    var x :| x in q && x.Acked?;
    InPop(q, x);
  }

  lemma ConfigurePush(q: seq<Kind>, k: Kind)
    ensures HasConfigure(q) || k.Configure? ==> HasConfigure(q + [k])
  {
    if HasConfigure(q) {
      var x :| x in q && x.Configure?;
      InPush(q, x, k);
    } else if k.Configure? {
      InPush(q, k, k);
    }
  }

  lemma ConfigurePop(q: seq<Kind>)
    requires HasConfigure(q) && !q[0].Configure?
    ensures HasConfigure(q[1..])
  {
    var x :| x in q && x.Configure?;
    InPop(q, x);
  }

  // ---- one peer

  predicate ChannelsOk(v: View, c: nat) {
    && (forall k | k in v.up :: UpKind(k))
    && (forall k | k in v.down :: DownKind(k, c))
  }

  function Good(c: nat): Dict { AttributesOf("Debugger", FABRIC_SID, c * 100) }

  /** A configured client's final attributes are at the server, in the channel behind any older
      ones, or about to be asked for. */
  predicate Settling(v: View, c: nat) {
    FinalAttrs(v.up, v.attrs) == Good(c) || HasAcked(v.up) || AskAttributes in v.down
  }

  predicate Configured(v: View, c: nat) {
    v.configured ==> v.sid == FABRIC_SID && v.cid == c * 100 && Settling(v, c)
  }

  /** A client that asked is configured, or its request or its configuration is on the way. */
  predicate Answered(v: View) { v.requested ==> v.configured || Rfc in v.up || HasConfigure(v.down) }

  predicate ViewOk(v: View, c: nat) { ChannelsOk(v, c) && Configured(v, c) && Answered(v) }

  function Carried(v: View, tag: string): nat { TagCount(v.up, tag) + TagCount(v.down, tag) }

  lemma ServerChannels(v: View, c: nat, serverId: nat, nextTag: nat)
    requires ChannelsOk(v, c) && v.up != []
    ensures ChannelsOk(ServerView(v, c, serverId, nextTag), c)
  {
    ShowToken(nextTag);
  }

  lemma ServerConfigured(v: View, c: nat, serverId: nat, nextTag: nat)
    requires Configured(v, c) && v.up != []
    ensures Configured(ServerView(v, c, serverId, nextTag), c)
  {
    var v' := ServerView(v, c, serverId, nextTag);
    FinalPop(v.up, v.attrs);
    if HasAcked(v.up) && !v.up[0].Acked? {
      AckedPop(v.up);
    }
    if |v'.down| > |v.down| && (AskAttributes in v.down || v.up[0].Acked?) {
      InPush(v.down, AskAttributes, v'.down[|v.down|]);
    }
  }

  lemma ServerAnswered(v: View, c: nat, serverId: nat, nextTag: nat)
    requires Answered(v) && v.up != []
    ensures Answered(ServerView(v, c, serverId, nextTag))
  {
    var v' := ServerView(v, c, serverId, nextTag);
    if Rfc in v.up && v.up[0] != Rfc {
      InPop(v.up, Rfc);
    }
    if |v'.down| > |v.down| {
      ConfigurePush(v.down, v'.down[|v.down|]);
    }
  }

  lemma ServerCarried(v: View, c: nat, serverId: nat, nextTag: nat, tag: string)
    requires v.up != [] && UpKind(v.up[0])
    ensures Carried(v, tag) + One(v.up[0].Rfc? && Show(nextTag) == tag)
            == Carried(ServerView(v, c, serverId, nextTag), tag) + One(v.up[0].Acked? && v.up[0].tag == tag)
  {
    CountPop(v.up, tag);
    var v' := ServerView(v, c, serverId, nextTag);
    if |v'.down| > |v.down| {
      CountPush(v.down, v'.down[|v.down|], tag);
    }
  }

  lemma ClientChannels(v: View, c: nat)
    requires ChannelsOk(v, c) && v.down != []
    ensures ChannelsOk(ClientView(v), c)
  {
  }

  lemma ClientConfigured(v: View, c: nat)
    requires Configured(v, c) && v.down != [] && DownKind(v.down[0], c)
    ensures Configured(ClientView(v), c)
  {
    var v' := ClientView(v);
    if |v'.up| > |v.up| {
      FinalPush(v.up, v.attrs, v'.up[|v.up|]);
      AckedPush(v.up, v'.up[|v.up|]);
    }
    if AskAttributes in v.down && v.down[0] != AskAttributes {
      InPop(v.down, AskAttributes);
    }
  }

  lemma ClientAnswered(v: View, c: nat)
    requires Answered(v) && v.down != []
    ensures Answered(ClientView(v))
  {
    var v' := ClientView(v);
    if |v'.up| > |v.up| && Rfc in v.up {
      InPush(v.up, Rfc, v'.up[|v.up|]);
    }
    if HasConfigure(v.down) && !v.down[0].Configure? {
      ConfigurePop(v.down);
    }
  }

  lemma ClientCarried(v: View, c: nat, tag: string)
    requires v.down != [] && DownKind(v.down[0], c)
    ensures Carried(ClientView(v), tag) == Carried(v, tag)
  {
    CountPop(v.down, tag);
    var v' := ClientView(v);
    if |v'.up| > |v.up| {
      CountPush(v.up, v'.up[|v.up|], tag);
    }
  }

  lemma InitiateOk(v: View, c: nat, k: Kind, requested: bool)
    requires ViewOk(v, c) && (k.Rfc? || k.AskAttributes?) && (requested ==> k.Rfc? || v.requested)
    ensures ViewOk(v.(up := v.up + [k], requested := requested), c)
  {
    FinalPush(v.up, v.attrs, k);
    AckedPush(v.up, k);
    if Rfc in v.up || k.Rfc? {
      InPush(v.up, Rfc, k);
    }
  }

  // ---- all peers

  function Views(peers: map<nat, Peer>): map<nat, View> { map c | c in peers :: ViewOf(peers[c]) }

  function Load(views: map<nat, View>, c: nat, tag: string): nat { if c in views then Carried(views[c], tag) else 0 }

  /** Every outstanding tag is carried by exactly one message of one peer. */
  ghost predicate TagsCarried(views: map<nat, View>, tags: set<string>) {
    && (forall c, t :: Load(views, c, t) <= 1)
    && (forall c, t :: Load(views, c, t) > 0 ==> t in tags)
    && (forall c, d, t :: Load(views, c, t) > 0 && Load(views, d, t) > 0 ==> c == d)
    && (forall t | t in tags :: exists c :: Load(views, c, t) > 0)
  }

  ghost predicate Inv(st: State) {
    && TagInv(st.server)
    && (forall c | c in st.peers :: 1 <= c && ParticipantsOk(st.peers[c], c, st.serverId) && ViewOk(ViewOf(st.peers[c]), c))
    && TagsCarried(Views(st.peers), st.server.tagged.Keys)
  }

  /** One peer's view changes; one tag may be issued to it and one consumed by it. */
  lemma CarriedStep(views: map<nat, View>, views': map<nat, View>, tags: set<string>, tags': set<string>, c: nat, issued: Option<string>, consumed: Option<string>)
    requires TagsCarried(views, tags) && !(issued.Some? && consumed.Some?)
    requires forall d, t | d != c :: Load(views', d, t) == Load(views, d, t)
    requires forall t :: Load(views, c, t) + One(issued == Some(t)) == Load(views', c, t) + One(consumed == Some(t))
    requires issued.Some? ==> issued.value !in tags
    requires tags' == tags + (if issued.Some? then {issued.value} else {}) - (if consumed.Some? then {consumed.value} else {})
    ensures TagsCarried(views', tags')
  {
    forall t | t in tags' ensures exists d :: Load(views', d, t) > 0 {
      if issued == Some(t) {
        assert Load(views', c, t) > 0;
      } else {
        var d :| Load(views, d, t) > 0;
        assert Load(views', d, t) > 0;
      }
    }
    forall d, t ensures Load(views', d, t) <= 1 && (Load(views', d, t) > 0 ==> t in tags') {
      assert Load(views, d, t) <= 1;
      assert Load(views, c, t) <= 1;
    }
  }

  // ---- every step keeps the invariant

  lemma ViewsUpdate(peers: map<nat, Peer>, c: nat, p: Peer)
    ensures Views(peers[c := p]) == Views(peers)[c := ViewOf(p)]
  {
  }

  predicate PeerOk(p: Peer, c: nat, serverId: nat) { 1 <= c && ParticipantsOk(p, c, serverId) && ViewOk(ViewOf(p), c) }

  /** A step that moves no tag between the table and the channels of peer `c`. */
  lemma PlainStep(st: State, c: nat, p: Peer)
    requires Inv(st) && PeerOk(p, c, st.serverId)
    requires forall t :: Load(Views(st.peers), c, t) == Carried(ViewOf(p), t)
    ensures Inv(st.(peers := st.peers[c := p]))
  {
    var views := Views(st.peers);
    ViewsUpdate(st.peers, c, p);
    CarriedStep(views, views[c := ViewOf(p)], st.server.tagged.Keys, st.server.tagged.Keys, c, None, None);
  }

  lemma JoinView(c: nat, serverId: nat, tracker: int)
    requires 1 <= c
    ensures var p := NewPeer(c, serverId, Suffixed(PEER_ATTRIBUTE, tracker));
            PeerOk(p, c, serverId) && ViewOf(p).up == [] && ViewOf(p).down == [AskAttributes]
  {
    AskKind(tracker);
  }

  lemma JoinInv(st: State, c: nat)
    requires Inv(st) && Enabled(st, Join(c))
    ensures Inv(Apply(st, Join(c)))
  {
    var tracker := st.server.tracker + 1;
    var p := NewPeer(c, st.serverId, Suffixed(PEER_ATTRIBUTE, tracker));
    JoinView(c, st.serverId, tracker);
    forall t ensures Carried(ViewOf(p), t) == 0 {
      CountPush([], AskAttributes, t);
    }
    PlainStep(st, c, p);
  }

  lemma InitiateView(p: Peer, c: nat, serverId: nat, proc: Proc, text: string, k: Kind, requested: bool)
    requires PeerOk(p, c, serverId) && KindOf(Suffixed(text, proc.tracker + 1)) == k
    requires (k.Rfc? || k.AskAttributes?) && (requested ==> k.Rfc? || p.requested)
    ensures var p' := Initiate(p, proc, text).(requested := requested);
            PeerOk(p', c, serverId) && forall t :: Carried(ViewOf(p'), t) == Carried(ViewOf(p), t)
  {
    var v, p' := ViewOf(p), Initiate(p, proc, text).(requested := requested);
    InitiateRefines(p, proc, text, k);
    InitiateOk(v, c, k, requested);
    assert ViewOf(p') == v.(up := v.up + [k], requested := requested);
    InitiateCarried(v, k, requested);
  }

  lemma InitiateCarried(v: View, k: Kind, requested: bool)
    requires k.Rfc? || k.AskAttributes?
    ensures forall t :: Carried(v.(up := v.up + [k], requested := requested), t) == Carried(v, t)
  {
    forall t ensures Carried(v.(up := v.up + [k], requested := requested), t) == Carried(v, t) {
      CountPush(v.up, k, t);
    }
  }

  lemma InitiateInv(st: State, c: nat, proc: Proc, text: string, k: Kind, requested: bool)
    requires Inv(st) && c in st.peers && KindOf(Suffixed(text, proc.tracker + 1)) == k
    requires (k.Rfc? || k.AskAttributes?) && (requested ==> k.Rfc? || st.peers[c].requested)
    ensures Inv(st.(peers := st.peers[c := Initiate(st.peers[c], proc, text).(requested := requested)]))
  {
    InitiateView(st.peers[c], c, st.serverId, proc, text, k, requested);
    PlainStep(st, c, Initiate(st.peers[c], proc, text).(requested := requested));
  }

  lemma AskInv(st: State, c: nat)
    requires Inv(st) && Enabled(st, Ask(c))
    ensures Inv(Apply(st, Ask(c)))
  {
    var p := st.peers[c];
    AskKind(p.proc.tracker + 1);
    InitiateInv(st, c, p.proc, PEER_ATTRIBUTE, AskAttributes, p.requested);
  }

  lemma RequestInv(st: State, c: nat)
    requires Inv(st) && Enabled(st, Request(c))
    ensures Inv(Apply(st, Request(c)))
  {
    RfcKind(1);
    InitiateInv(st, c, st.peers[c].proc.(tracker := 0), RFC_TEXT, Rfc, true);
  }

  lemma ToClientInv(st: State, c: nat)
    requires Inv(st) && Enabled(st, ToClient(c))
    ensures Inv(Apply(st, ToClient(c)))
  {
    var p := st.peers[c];
    var v := ViewOf(p);
    assert v.down[0] in v.down;
    ClientRefines(p, c, st.serverId);
    ClientChannels(v, c);
    ClientConfigured(v, c);
    ClientAnswered(v, c);
    forall t ensures Load(Views(st.peers), c, t) == Carried(ClientView(v), t) {
      ClientCarried(v, c, t);
    }
    PlainStep(st, c, AfterClient(p));
  }

  /** An acknowledgment at the head of a channel is for a tag that is still outstanding. */
  lemma HeadIsOutstanding(views: map<nat, View>, tags: set<string>, c: nat)
    requires TagsCarried(views, tags) && c in views && views[c].up != [] && views[c].up[0].Acked?
    ensures views[c].up[0].tag in tags
  {
    var tag := views[c].up[0].tag;
    CountPop(views[c].up, tag);
    assert Load(views, c, tag) > 0;
  }

  function Issued(k: Kind, nextTag: nat): Option<string> { if k.Rfc? then Some(Show(nextTag)) else None }

  function Consumed(k: Kind): Option<string> { if k.Acked? then Some(k.tag) else None }

  lemma ServerCarries(views: map<nat, View>, tags: set<string>, c: nat, serverId: nat, nextTag: nat)
    requires TagsCarried(views, tags) && c in views && views[c].up != [] && UpKind(views[c].up[0])
    requires Show(nextTag) !in tags
    ensures TagsCarried(views[c := ServerView(views[c], c, serverId, nextTag)], ServerTags(tags, views[c].up[0], nextTag))
  {
    var v, k := views[c], views[c].up[0];
    var views' := views[c := ServerView(v, c, serverId, nextTag)];
    forall t ensures Load(views, c, t) + One(Issued(k, nextTag) == Some(t)) == Load(views', c, t) + One(Consumed(k) == Some(t)) {
      ServerCarried(v, c, serverId, nextTag, t);
    }
    CarriedStep(views, views', tags, ServerTags(tags, k, nextTag), c, Issued(k, nextTag), Consumed(k));
  }

  lemma ServerViewOk(v: View, c: nat, serverId: nat, nextTag: nat)
    requires ViewOk(v, c) && v.up != []
    ensures ViewOk(ServerView(v, c, serverId, nextTag), c)
  {
    ServerChannels(v, c, serverId, nextTag);
    ServerConfigured(v, c, serverId, nextTag);
    ServerAnswered(v, c, serverId, nextTag);
  }

  lemma ToServerInv(st: State, c: nat)
    requires Inv(st) && Enabled(st, ToServer(c))
    ensures Inv(Apply(st, ToServer(c)))
  {
    var p, views := st.peers[c], Views(st.peers);
    var v := ViewOf(p);
    assert v.up[0] in v.up;
    if v.up[0].Acked? {
      HeadIsOutstanding(views, st.server.tagged.Keys, c);
    }
    ServerRefines(st.server, p, c, st.serverId);
    ServerViewOk(v, c, st.serverId, st.server.nextTag);
    HandleTags(st.server, p.proxy, p.up[0]);
    NextTagIsNew(st.server);
    ServerCarries(views, st.server.tagged.Keys, c, st.serverId, st.server.nextTag);
    TaggedStep(st, ServerOutcome(st.server, p).proc, c, AfterServer(st.server, p));
  }

  lemma TaggedStep(st: State, server: Proc, c: nat, p: Peer)
    requires Inv(st) && TagInv(server) && PeerOk(p, c, st.serverId)
    requires TagsCarried(Views(st.peers)[c := ViewOf(p)], server.tagged.Keys)
    ensures Inv(st.(server := server, peers := st.peers[c := p]))
  {
    ViewsUpdate(st.peers, c, p);
  }

  lemma StepInv(st: State, step: Step)
    requires Inv(st) && Enabled(st, step)
    ensures Inv(Apply(st, step))
  {
    match step
    case Join(c) => JoinInv(st, c);
    case Ask(c) => AskInv(st, c);
    case Request(c) => RequestInv(st, c);
    case ToServer(c) => ToServerInv(st, c);
    case ToClient(c) => ToClientInv(st, c);
  }

  lemma {:induction false} RunInv(st: State, run: seq<Step>)
    requires Inv(st) && ValidRun(st, run)
    ensures Inv(Final(st, run))
    decreases |run|
  {
    if run != [] {
      StepInv(st, run[0]);
      RunInv(Apply(st, run[0]), run[1..]);
    }
  }

  lemma InitInv(st: State)
    requires Init(st)
    ensures Inv(st)
  {
    assert Views(st.peers) == map[];
  }

  // ---- when the system is quiet

  lemma QuietTags(views: map<nat, View>, tags: set<string>)
    requires TagsCarried(views, tags) && forall c | c in views :: views[c].up == [] && views[c].down == []
    ensures tags == {}
  {
  }

  lemma QuietView(v: View, c: nat)
    requires ViewOk(v, c) && v.up == [] && v.down == [] && v.requested
    ensures v.configured && v.sid == FABRIC_SID && v.cid == c * 100 && v.attrs == Good(c)
  {
  }

  /** What a client that asked ends up with, and what the server knows about it. */
  predicate Settled(p: Peer, c: nat) {
    && p.resp.configured && p.resp.sid0 == FABRIC_SID && p.resp.cid0 == c * 100
    && p.proxy.peerattrs == map["C-Class" := "Debugger", "SID0" := Show(FABRIC_SID), "CID0" := Show(c * 100)]
  }

  lemma DictOfThree(p: Pair, q: Pair, r: Pair)
    ensures DictOf(map[], [p, q, r]) == map[p.key := p.value, q.key := q.value, r.key := r.value]
  {
    var kv := map[p.key := p.value];
    assert [p, q, r][1..] == [q, r] && [q, r][1..] == [r] && [r][1..] == [];
    assert DictOf(map[], [p, q, r]) == DictOf(kv, [q, r]);
    assert DictOf(kv, [q, r]) == DictOf(kv[q.key := q.value], [r]);
  }

  lemma GoodIs(c: nat)
    ensures Good(c) == map["C-Class" := "Debugger", "SID0" := Show(FABRIC_SID), "CID0" := Show(c * 100)]
  {
    DictOfThree(Pair("C-Class", "Debugger"), Pair("SID0", Show(FABRIC_SID)), Pair("CID0", Show(c * 100)));
  }

  predicate AllSettled(st: State) { forall c | c in st.peers && st.peers[c].requested :: Settled(st.peers[c], c) }

  lemma QuietSettled(st: State)
    requires Inv(st) && Quiet(st)
    ensures st.server.tagged == map[] && AllSettled(st)
  {
    QuietTags(Views(st.peers), st.server.tagged.Keys);
    forall c | c in st.peers && st.peers[c].requested ensures Settled(st.peers[c], c) {
      QuietView(ViewOf(st.peers[c]), c);
      GoodIs(c);
    }
  }

  /** Any interleaving of joins, attribute requests and Link RFCs that goes quiet leaves no tag
      outstanding and every requester settled; no two requesters share an address. */
  lemma Converges(st: State, run: seq<Step>)
    requires Init(st) && ValidRun(st, run) && Quiet(Final(st, run))
    ensures var end := Final(st, run);
            && end.server.tagged == map[] && AllSettled(end)
            && (forall c, d | c in end.peers && d in end.peers && end.peers[c].requested && end.peers[d].requested && c != d ::
                  end.peers[c].resp.cid0 != end.peers[d].resp.cid0)
  {
    InitInv(st);
    RunInv(st, run);
    QuietSettled(Final(st, run));
  }
}
