/** What requests and replies lead to: chains of replies are short, tags are used once. */
module RequestFacts {
  import opened Prelude
  import opened Text
  import opened Csv
  import opened Requests

  // ---- what our own messages dispatch to

  lemma NoBangNoToken(s: string)
    requires '!' !in s
    ensures !HasToken(s)
  {
    forall i | 0 <= i < |s| ensures !TokenAt(s, i) {
      assert s[i] in s;
      NotToken(s, i);
    }
  }

  lemma DispatchStandalone(args: seq<string>)
    ensures Dispatch(["Standalone", "Acknowledgment"] + args) == Call(StandaloneAck, args)
  {
    var e := ["Standalone", "Acknowledgment"] + args;
    assert Underscored(e[0]) == "Standalone" && Underscored(e[1]) == "Acknowledgment";
    assert "" + "_" + "Standalone" == "_Standalone";
    assert "_Standalone" + "_" + "Acknowledgment" == "_Standalone_Acknowledgment";
    assert Lookup("_Standalone") == None;
    assert e[2..] == args;
    assert Dispatch(e, 1, "_Standalone") == Call(StandaloneAck, args);
  }

  lemma DispatchCtlWrite(args: seq<string>)
    ensures Dispatch(["CTL-Write"] + args) == Call(CtlWrite, args)
  {
    var e := ["CTL-Write"] + args;
    assert Underscored(e[0]) == "CTL_Write";
    assert "" + "_" + "CTL_Write" == "_CTL_Write";
    assert e[1..] == args;
  }

  lemma DispatchLink(second: string, args: seq<string>)
    requires second == "RFC" || second == "CTL"
    ensures Dispatch(["Link", second] + args) == Call(if second == "RFC" then LinkRfc else LinkCtl, args)
  {
    var e := ["Link", second] + args;
    assert Underscored(e[0]) == "Link" && Underscored(e[1]) == second;
    assert "" + "_" + "Link" == "_Link";
    assert "_Link" + "_" + "RFC" == "_Link_RFC" && "_Link" + "_" + "CTL" == "_Link_CTL";
    assert Lookup("_Link") == None;
    assert e[2..] == args;
    assert Dispatch(e, 1, "_Link") == Call(if second == "RFC" then LinkRfc else LinkCtl, args);
  }

  lemma DispatchPong()
    ensures Dispatch(["pong"]) == Call(Inert, ["pong"])
  {
    assert Underscored("pong") == "pong";
    assert "" + "_" + "pong" == "_pong";
    assert Lookup("_pong") == None;
  }

  /** A word that can start a message. */
  predicate Word(w: string) { w != "" && NoSpace(w) && '!' !in w }

  lemma Assoc(a: string, b: string, c: string)
    ensures a + b + c == a + (b + c)
  {
  }

  /** A start without '!' stays at the start of the payload of a suffixed message. */
  lemma PayloadAfter(head: string, body: string, tracker: int) returns (tail: string)
    requires '!' !in head
    ensures SplitToken(Suffixed(head + body, tracker))[0] == head + tail
  {
    var rest := body + TOKEN + Show(tracker);
    Assoc(head, body, TOKEN);
    Assoc(head, body + TOKEN, Show(tracker));
    PayloadStartsWith(head, rest);
    tail := SplitToken(head + rest)[0][|head|..];
  }

  /** The first words of a message are the first words of its payload, whatever follows. */
  lemma FirstWord(w: string, body: string, tracker: int) returns (tail: string)
    requires Word(w)
    ensures Words(SplitToken(Suffixed(w + " " + body, tracker))[0]) == [w] + Words(tail)
  {
    tail := PayloadAfter(w + " ", body, tracker);
    WordsCons(w, tail);
  }

  lemma FirstTwoWords(v: string, w: string, body: string, tracker: int) returns (tail: string)
    requires Word(v) && Word(w)
    ensures Words(SplitToken(Suffixed(v + " " + (w + " " + body), tracker))[0]) == [v, w] + Words(tail)
  {
    var head := v + " " + (w + " ");
    Assoc(v + " ", w + " ", body);
    tail := PayloadAfter(head, body, tracker);
    Assoc(v + " ", w + " ", tail);
    WordsCons(v, w + " " + tail);
    WordsCons(w, tail);
  }

  lemma FirstThreeWords(u: string, v: string, w: string, body: string, tracker: int) returns (tail: string)
    requires Word(u) && Word(v) && Word(w)
    ensures Words(SplitToken(Suffixed(u + " " + (v + " " + (w + " " + body)), tracker))[0]) == [u, v] + ([w] + Words(tail))
  {
    ThreeWords(u, v, w, body);
    tail := PayloadAfter(u + " " + (v + " ") + (w + " "), body, tracker);
    ThreeWords(u, v, w, tail);
    ThreeWordsSplit(u, v, w, tail);
  }

  lemma ThreeWordsSplit(u: string, v: string, w: string, tail: string)
    requires Word(u) && Word(v) && Word(w)
    ensures Words(u + " " + (v + " " + (w + " " + tail))) == [u, v] + ([w] + Words(tail))
  {
    WordsCons(u, v + " " + (w + " " + tail));
    TwoWordsSplit(v, w, tail);
    assert [u] + ([v] + ([w] + Words(tail))) == [u, v] + ([w] + Words(tail));
  }

  lemma TwoWordsSplit(v: string, w: string, tail: string)
    requires Word(v) && Word(w)
    ensures Words(v + " " + (w + " " + tail)) == [v] + ([w] + Words(tail))
  {
    WordsCons(v, w + " " + tail);
    WordsCons(w, tail);
  }

  lemma ThreeWords(u: string, v: string, w: string, body: string)
    ensures u + " " + (v + " ") + (w + " ") + body == u + " " + (v + " " + (w + " " + body))
  {
    Assoc(u + " ", v + " ", w + " " + body);
    Assoc(u + " " + (v + " "), w + " ", body);
  }

  /** A message of exactly these words, once suffixed. */
  lemma ThreeWordCall(u: string, v: string, w: string, tracker: int)
    requires Word(u) && Word(v) && Word(w)
    ensures CallOf(Suffixed(u + " " + (v + " " + w), tracker)) == Dispatch([u, v] + [w])
  {
    var s := u + " " + (v + " " + w);
    NoBangNoToken(s);
    TrackerRoundTrip(s, tracker);
    WordsCons(u, v + " " + w);
    WordsCons(v, w);
    WordsOne(w);
    assert [u] + ([v] + [w]) == [u, v] + [w];
  }

  lemma OneWordCall(w: string, tracker: int)
    requires Word(w)
    ensures CallOf(Suffixed(w, tracker)) == Dispatch([w])
  {
    NoBangNoToken(w);
    TrackerRoundTrip(w, tracker);
    WordsOne(w);
  }

  lemma PeerAttributeCall(tracker: int)
    ensures CallOf(Suffixed(PEER_ATTRIBUTE, tracker)) == Call(LinkCtl, ["Peer-Attribute"])
  {
    ThreeWordCall("Link", "CTL", "Peer-Attribute", tracker);
    DispatchLink("CTL", ["Peer-Attribute"]);
  }

  // ---- no message storms

  /** How many more replies a message can cause. */
  function Rank(text: string): nat {
    var call := CallOf(text);
    match call.handler
    case LinkRfc => 5
    case CtlWrite => 4
    case StandaloneAck => 3
    case LinkCtl => if call.args == ["Peer-Attribute"] then 2 else 1
    case Ping => 2
    case Inert => 0
  }

  /** Every outstanding tag is followed by the Peer-Attribute request and nothing else. */
  predicate TagsOk(proc: Proc) { EntriesOk(proc.tagged) }

  predicate EntriesOk(tagged: Dict) { forall t | t in tagged :: TagOk(tagged[t]) }

  predicate TagOk(entry: string) { AfterAck(entry) == Follow(PEER_ATTRIBUTE) }

  /** What is remembered with a tag is what was asked for. */
  lemma AfterAckRoundTrip(stamp: string, request: string)
    requires '|' !in stamp && '|' !in request && Clean(request) && request != ""
    ensures AfterAck(stamp + "|" + PrintPair(Pair("AfterACK", request))) == Follow(request)
  {
    var p := Pair("AfterACK", request);
    var after := PrintPair(p);
    SplitTwo(stamp, '|', after);
    PairTrim(p);
    StripTrim(after);
    CsvRoundTrip([p]);
    assert [p][1..] == [];
  }

  lemma RankOfPeerAttribute(tracker: int)
    ensures Rank(Suffixed(PEER_ATTRIBUTE, tracker)) == 2
  {
    PeerAttributeCall(tracker);
  }

  /** A known acknowledgment uses up its tag and asks for the attributes. */
  lemma KnownAck(proc: Proc, resp: Responder, args: seq<string>)
    requires TagsOk(proc) && args != [] && "Tag" in Csv2Dict(args[0]) && Csv2Dict(args[0])["Tag"] in proc.tagged
    ensures OnStandaloneAck(proc, resp, args)
            == Send(proc.(tagged := proc.tagged - {Csv2Dict(args[0])["Tag"]}), resp, PEER_ATTRIBUTE)
  {
    assert TagOk(proc.tagged[Csv2Dict(args[0])["Tag"]]);
  }

  lemma RankOfAck(cClass: string, sid: int, cid: int, tracker: int)
    ensures Rank(Suffixed(LinkAckText(cClass, sid, cid), tracker)) == 1
  {
    var tail := FirstThreeWords("Link", "CTL", "ACK", PrintCsv(AttributePairs(cClass, sid, cid)), tracker);
    var args := ["ACK"] + Words(tail);
    DispatchLink("CTL", args);
    assert args[0] != "Peer-Attribute";
  }

  lemma RankOfStandaloneAck(tag: string, tracker: int)
    ensures Rank(Suffixed(StandaloneAckText(tag), tracker)) == 3
  {
    var tail := FirstTwoWords("Standalone", "Acknowledgment", PrintCsv([Pair("Tag", tag), Pair("Reason", "OK")]), tracker);
    DispatchStandalone(Words(tail));
  }

  lemma RankOfConfiguration(pfmSid: int, pfmCid: int, sid: int, cid: int, more: string, tracker: int)
    ensures Rank(Suffixed(ConfigurationText(pfmSid, pfmCid, sid, cid) + more, tracker)) == 4
  {
    var csv := PrintCsv(ConfigurationPairs(pfmSid, pfmCid, sid, cid));
    assert ConfigurationText(pfmSid, pfmCid, sid, cid) + more == "CTL-Write" + " " + (csv + more);
    var tail := FirstWord("CTL-Write", csv + more, tracker);
    DispatchCtlWrite(Words(tail));
  }

  lemma RankOfPong(tracker: int)
    ensures Rank(Suffixed("pong", tracker)) == 0
  {
    OneWordCall("pong", tracker);
    DispatchPong();
  }

  /** For every request whatsoever, a handler sends at most one reply and that reply is of
      strictly lower rank. */
  lemma ReplyRanksLower(proc: Proc, resp: Responder, request: string)
    requires TagsOk(proc)
    ensures Lowers(Handle(proc, resp, request).reply, Rank(request))
  {
    match Tracked(proc, SplitToken(request))
    case None =>
    case Some(proc') =>
      var call := CallOf(request);
      RunRanksLower(proc', resp, request, call);
  }

  predicate Lowers(reply: Option<string>, rank: nat) { reply.Some? ==> Rank(reply.value) < rank }

  lemma RunRanksLower(proc: Proc, resp: Responder, request: string, call: Call)
    requires TagsOk(proc) && call == CallOf(request)
    ensures Lowers(Run(proc, resp, call).reply, Rank(request))
  {
    match call.handler
    case StandaloneAck => AckRanksLower(proc, resp, call.args);
    case CtlWrite => WriteRanksLower(proc, resp, call.args);
    case LinkRfc => RfcRanksLower(proc, resp, call.args);
    case LinkCtl => CtlRanksLower(proc, resp, call.args);
    case Ping => RankOfPong(proc.tracker + 1);
    case Inert =>
  }

  lemma AckRanksLower(proc: Proc, resp: Responder, args: seq<string>)
    requires TagsOk(proc)
    ensures Lowers(OnStandaloneAck(proc, resp, args).reply, 3)
  {
    if args != [] && "Tag" in Csv2Dict(args[0]) && Csv2Dict(args[0])["Tag"] in proc.tagged {
      KnownAck(proc, resp, args);
      RankOfPeerAttribute(proc.tracker + 1);
    }
  }

  lemma WriteRanksLower(proc: Proc, resp: Responder, args: seq<string>)
    ensures Lowers(OnCtlWrite(proc, resp, args).reply, 4)
  {
    if OnCtlWrite(proc, resp, args).reply.Some? {
      RankOfStandaloneAck(Csv2Dict(args[0])["Tag"], proc.tracker + 1);
    }
  }

  lemma RfcRanksLower(proc: Proc, resp: Responder, args: seq<string>)
    ensures Lowers(OnLinkRfc(proc, resp, args).reply, 5)
  {
    if resp.role.Switch? {
      var more := ",Tag=" + Show(proc.nextTag);
      var text := ConfigurationText(resp.role.sid, resp.role.cid, resp.sid0, resp.cid0);
      assert text + ",Tag=" + Show(proc.nextTag) == text + more;
      RankOfConfiguration(resp.role.sid, resp.role.cid, resp.sid0, resp.cid0, more, proc.tracker + 1);
    }
  }

  lemma CtlRanksLower(proc: Proc, resp: Responder, args: seq<string>)
    ensures Lowers(OnLinkCtl(proc, resp, args).reply, if args == ["Peer-Attribute"] then 2 else 1)
  {
    if args != ["Peer-Attribute"] {
      assert OnLinkCtl(proc, resp, args).reply.None?;
    } else if resp.role.Switch? {
      RankOfAck(resp.cClass, resp.role.sid, resp.role.cid, proc.tracker + 1);
    } else {
      RankOfAck(resp.cClass, resp.sid0, resp.cid0, proc.tracker + 1);
    }
  }

  /** A chain of messages, each the reply to the one before from some process with good tags. */
  ghost predicate Chain(texts: seq<string>) {
    forall i | 0 <= i < |texts| - 1 :: Causes(texts[i], texts[i + 1])
  }

  ghost predicate Causes(request: string, reply: string) {
    exists proc, resp :: TagsOk(proc) && Handle(proc, resp, request).reply == Some(reply)
  }

  /** Every chain is bounded: five replies at most, whoever sends the first message. */
  lemma {:induction false} ChainsAreShort(texts: seq<string>)
    requires Chain(texts) && texts != []
    ensures |texts| <= Rank(texts[0]) + 1 <= 6
  {
    if |texts| > 1 {
      assert Causes(texts[0], texts[1]);
      var proc, resp :| TagsOk(proc) && Handle(proc, resp, texts[0]).reply == Some(texts[1]);
      ReplyRanksLower(proc, resp, texts[0]);
      assert Chain(texts[1..]) by {
        forall i | 0 <= i < |texts[1..]| - 1 ensures Causes(texts[1..][i], texts[1..][i + 1]) {
          assert Causes(texts[i + 1], texts[i + 2]);
        }
      }
      ChainsAreShort(texts[1..]);
    }
  }
}
