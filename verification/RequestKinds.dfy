/** The five kinds of message in a configuration exchange: what each text means to its receiver,
    and which text each sender produces. */
module RequestKinds {
  import opened Prelude
  import opened Text
  import opened Csv
  import opened Requests
  import opened RequestFacts

  datatype Kind =
    | Rfc
    | Configure(sid: int, cid: int, tag: string)
    | Acked(tag: string)
    | AskAttributes
    | Attributes(kv: Dict)
    | Pinged
    | Other

  function KindOfCall(call: Call): Kind {
    match call.handler
    case LinkRfc =>
      if call.args != [] && "TTC" in Csv2Dict(call.args[0]) && Microseconds(Csv2Dict(call.args[0])["TTC"]) then Rfc else Other
    case CtlWrite => if call.args == [] then Other else ConfigureOf(Csv2Dict(call.args[0]))
    case StandaloneAck =>
      if call.args != [] && "Tag" in Csv2Dict(call.args[0]) then Acked(Csv2Dict(call.args[0])["Tag"]) else Other
    case LinkCtl =>
      if call.args == ["Peer-Attribute"] then AskAttributes
      else if |call.args| == 2 && call.args[0] == "ACK" then Attributes(Csv2Dict(call.args[1]))
      else Other
    case Ping => Pinged
    case Inert => Other
  }

  function ConfigureOf(kv: Dict): Kind {
    if "Space" in kv && ReadInt(kv["Space"]) == Some(0) && "SID" in kv && ReadInt(kv["SID"]).Some?
       && "CID" in kv && ReadInt(kv["CID"]).Some? && "Tag" in kv
    then Configure(ReadInt(kv["SID"]).value, ReadInt(kv["CID"]).value, kv["Tag"])
    else Other
  }

  predicate Numbered(text: string) {
    var parts := SplitToken(text);
    |parts| == 1 || ReadInt(Strip(parts[1])).Some?
  }

  function KindOf(text: string): Kind { if Numbered(text) then KindOfCall(CallOf(text)) else Other }

  // ---- what a receiver does with each kind

  /** Reading the suffix only moves the tracker. */
  lemma HandleIsRun(proc: Proc, resp: Responder, text: string) returns (proc': Proc)
    requires Numbered(text)
    ensures Handle(proc, resp, text) == Run(proc', resp, CallOf(text))
    ensures proc'.nextTag == proc.nextTag && proc'.tagged == proc.tagged
  {
    proc' := Tracked(proc, SplitToken(text)).value;
  }

  lemma HandleRfc(proc: Proc, resp: Responder, text: string) returns (proc': Proc)
    requires KindOf(text) == Rfc && resp.role.Switch? && resp.role.smart
    ensures Handle(proc, resp, text)
            == SendTagged(proc', resp, ConfigurationText(resp.role.sid, resp.role.cid, resp.sid0, resp.cid0), AFTER_ACK)
    ensures proc'.nextTag == proc.nextTag && proc'.tagged == proc.tagged
  {
    proc' := HandleIsRun(proc, resp, text);
  }

  lemma HandleConfigure(proc: Proc, resp: Responder, text: string) returns (proc': Proc)
    requires KindOf(text).Configure? && resp.role.Endpoint?
    ensures var k := KindOf(text);
            Handle(proc, resp, text)
            == Send(proc', resp.(sid0 := k.sid, cid0 := k.cid, configured := true), StandaloneAckText(k.tag))
    ensures proc'.nextTag == proc.nextTag && proc'.tagged == proc.tagged
  {
    proc' := HandleIsRun(proc, resp, text);
  }

  lemma AckedCall(call: Call)
    requires KindOfCall(call).Acked?
    ensures call.handler.StandaloneAck? && call.args != [] && "Tag" in Csv2Dict(call.args[0])
    ensures KindOfCall(call).tag == Csv2Dict(call.args[0])["Tag"]
  {
  }

  lemma RunAcked(proc: Proc, resp: Responder, call: Call)
    requires KindOfCall(call).Acked? && TagsOk(proc) && KindOfCall(call).tag in proc.tagged
    ensures Run(proc, resp, call) == Send(proc.(tagged := proc.tagged - {KindOfCall(call).tag}), resp, PEER_ATTRIBUTE)
  {
    AckedCall(call);
    KnownAck(proc, resp, call.args);
  }

  lemma HandleAcked(proc: Proc, resp: Responder, text: string) returns (proc': Proc)
    requires KindOf(text).Acked? && TagsOk(proc) && KindOf(text).tag in proc.tagged
    ensures Handle(proc, resp, text) == Send(proc', resp, PEER_ATTRIBUTE)
    ensures proc'.nextTag == proc.nextTag && proc'.tagged == proc.tagged - {KindOf(text).tag}
  {
    var proc1 := HandleIsRun(proc, resp, text);
    RunAcked(proc1, resp, CallOf(text));
    proc' := proc1.(tagged := proc1.tagged - {KindOf(text).tag});
  }

  function OwnAttributes(resp: Responder): string {
    match resp.role
    case Endpoint => LinkAckText(resp.cClass, resp.sid0, resp.cid0)
    case Switch(_, sid, cid) => LinkAckText(resp.cClass, sid, cid)
  }

  lemma HandleAsk(proc: Proc, resp: Responder, text: string) returns (proc': Proc)
    requires KindOf(text) == AskAttributes
    ensures Handle(proc, resp, text) == Send(proc', resp, OwnAttributes(resp))
    ensures proc'.nextTag == proc.nextTag && proc'.tagged == proc.tagged
  {
    proc' := HandleIsRun(proc, resp, text);
  }

  lemma HandleAttributes(proc: Proc, resp: Responder, text: string) returns (proc': Proc)
    requires KindOf(text).Attributes?
    ensures Handle(proc, resp, text) == Nothing(proc', resp.(peerattrs := KindOf(text).kv))
    ensures proc'.nextTag == proc.nextTag && proc'.tagged == proc.tagged
  {
    proc' := HandleIsRun(proc, resp, text);
  }

  // ---- the kind of each message sent

  lemma SuffixedNumbered(response: string, tracker: int)
    requires !HasToken(response)
    ensures Numbered(Suffixed(response, tracker))
  {
    TrackerRoundTrip(response, tracker);
    ShowPlain(tracker);
    assert Trim(Show(tracker));
    StripTrim(Show(tracker));
  }

  /** Characters that survive both the word splitting and the pair splitting. */
  predicate Token(s: string) { NoSpace(s) && '!' !in s && ',' !in s && '=' !in s }

  predicate TokenPairs(pairs: seq<Pair>) { forall i | 0 <= i < |pairs| :: Token(pairs[i].key) && Token(pairs[i].value) }

  lemma TokenClean(s: string)
    requires Token(s)
    ensures Clean(s)
  {
  }

  lemma ShowToken(n: int)
    ensures Token(Show(n)) && Show(n) != ""
  {
    ShowPlain(n);
  }

  lemma {:induction false} CsvWord(pairs: seq<Pair>)
    requires TokenPairs(pairs) && pairs != []
    ensures Word(PrintCsv(pairs))
  {
    assert Word(PrintPair(pairs[0]));
    if |pairs| > 1 {
      CsvWord(pairs[1..]);
      JoinWords(PrintPair(pairs[0]), PrintCsv(pairs[1..]));
    }
  }

  lemma JoinWords(a: string, b: string)
    requires Word(a) && Word(b)
    ensures Word(a + "," + b)
  {
  }

  lemma CsvMeans(pairs: seq<Pair>)
    requires TokenPairs(pairs)
    ensures Csv2Dict(PrintCsv(pairs)) == DictOf(map[], pairs)
  {
    forall i | 0 <= i < |pairs| ensures Clean(pairs[i].key) && Clean(pairs[i].value) {
      TokenClean(pairs[i].key);
      TokenClean(pairs[i].value);
    }
    CsvRoundTrip(pairs);
  }

  /** A message of exactly these words means what they dispatch to. */
  lemma TwoWordKind(v: string, w: string, tracker: int)
    requires Word(v) && Word(w)
    ensures KindOf(Suffixed(v + " " + w, tracker)) == KindOfCall(Dispatch([v] + [w]))
  {
    var s := v + " " + w;
    NoBangNoToken(s);
    TrackerRoundTrip(s, tracker);
    SuffixedNumbered(s, tracker);
    WordsCons(v, w);
    WordsOne(w);
  }

  lemma ThreeWordKind(u: string, v: string, w: string, tracker: int)
    requires Word(u) && Word(v) && Word(w)
    ensures KindOf(Suffixed(u + " " + (v + " " + w), tracker)) == KindOfCall(Dispatch([u, v] + [w]))
  {
    NoBangNoToken(u + " " + (v + " " + w));
    SuffixedNumbered(u + " " + (v + " " + w), tracker);
    ThreeWordCall(u, v, w, tracker);
  }

  lemma FourWordKind(t: string, u: string, v: string, w: string, tracker: int)
    requires Word(t) && Word(u) && Word(v) && Word(w)
    ensures KindOf(Suffixed(t + " " + (u + " " + (v + " " + w)), tracker)) == KindOfCall(Dispatch([t, u] + [v, w]))
  {
    var s := t + " " + (u + " " + (v + " " + w));
    NoBangNoToken(s);
    TrackerRoundTrip(s, tracker);
    SuffixedNumbered(s, tracker);
    WordsCons(t, u + " " + (v + " " + w));
    WordsCons(u, v + " " + w);
    WordsCons(v, w);
    WordsOne(w);
    assert [t] + ([u] + ([v] + [w])) == [t, u] + [v, w];
  }

  lemma CtlWriteKind(w: string, tracker: int)
    requires Word(w)
    ensures KindOf(Suffixed("CTL-Write" + " " + w, tracker)) == KindOfCall(Call(CtlWrite, [w]))
  {
    TwoWordKind("CTL-Write", w, tracker);
    DispatchCtlWrite([w]);
  }

  lemma StandaloneKind(w: string, tracker: int)
    requires Word(w)
    ensures KindOf(Suffixed("Standalone" + " " + ("Acknowledgment" + " " + w), tracker)) == KindOfCall(Call(StandaloneAck, [w]))
  {
    ThreeWordKind("Standalone", "Acknowledgment", w, tracker);
    DispatchStandalone([w]);
  }

  lemma LinkKind(second: string, w: string, tracker: int)
    requires Word(w) && (second == "RFC" || second == "CTL")
    ensures KindOf(Suffixed("Link" + " " + (second + " " + w), tracker))
            == KindOfCall(Call(if second == "RFC" then LinkRfc else LinkCtl, [w]))
  {
    ThreeWordKind("Link", second, w, tracker);
    DispatchLink(second, [w]);
  }

  lemma LinkCtlKind(v: string, w: string, tracker: int)
    requires Word(v) && Word(w)
    ensures KindOf(Suffixed("Link" + " " + ("CTL" + " " + (v + " " + w)), tracker)) == KindOfCall(Call(LinkCtl, [v, w]))
  {
    FourWordKind("Link", "CTL", v, w, tracker);
    DispatchLink("CTL", [v, w]);
  }

  lemma AskKind(tracker: int)
    ensures KindOf(Suffixed(PEER_ATTRIBUTE, tracker)) == AskAttributes
  {
    LinkKind("CTL", "Peer-Attribute", tracker);
  }

  const RFC_TEXT := "Link" + " " + ("RFC" + " " + PrintCsv([Pair("TTC", "27us")]))

  lemma RfcKind(tracker: int)
    ensures KindOf(Suffixed(RFC_TEXT, tracker)) == Rfc
  {
    var pairs := [Pair("TTC", "27us")];
    CsvWord(pairs);
    CsvMeans(pairs);
    LinkKind("RFC", PrintCsv(pairs), tracker);
    assert pairs[1..] == [];
    assert Lower("27us"[2]) == 'u' && Lower("27us"[3]) == 's';
  }

  lemma AckedKind(tag: string, tracker: int)
    requires Token(tag)
    ensures KindOf(Suffixed(StandaloneAckText(tag), tracker)) == Acked(tag)
  {
    var pairs := [Pair("Tag", tag), Pair("Reason", "OK")];
    CsvWord(pairs);
    CsvMeans(pairs);
    DistinctKeysKept(map[], pairs, 0);
    StandaloneKind(PrintCsv(pairs), tracker);
  }

  function AttributesOf(cClass: string, sid: int, cid: int): Dict { DictOf(map[], AttributePairs(cClass, sid, cid)) }

  lemma AttributeTokens(cClass: string, sid: int, cid: int)
    requires Token(cClass)
    ensures TokenPairs(AttributePairs(cClass, sid, cid))
  {
    assert Token("C-Class") && Token("SID0") && Token("CID0");
    ShowToken(sid);
    ShowToken(cid);
  }

  lemma LinkAckKind(csv: string, tracker: int)
    requires Word(csv)
    ensures KindOf(Suffixed("Link" + " " + ("CTL" + " " + ("ACK" + " " + csv)), tracker)) == Attributes(Csv2Dict(csv))
  {
    LinkCtlKind("ACK", csv, tracker);
  }

  lemma AttributesKind(cClass: string, sid: int, cid: int, tracker: int)
    requires Token(cClass)
    ensures KindOf(Suffixed(LinkAckText(cClass, sid, cid), tracker)) == Attributes(AttributesOf(cClass, sid, cid))
  {
    var pairs := AttributePairs(cClass, sid, cid);
    AttributeTokens(cClass, sid, cid);
    CsvWord(pairs);
    CsvMeans(pairs);
    LinkAckKind(PrintCsv(pairs), tracker);
  }

  // ---- the configuration message, with its tag appended

  lemma {:induction false} AppendPair(pairs: seq<Pair>, p: Pair)
    requires pairs != []
    ensures PrintCsv(pairs) + ("," + PrintPair(p)) == PrintCsv(pairs + [p])
  {
    var all := pairs + [p];
    assert all[0] == pairs[0] && all[1..] == pairs[1..] + [p];
    if |pairs| == 1 {
      assert all[1..] == [p];
      assert PrintCsv(all) == PrintPair(pairs[0]) + "," + PrintPair(p);
    } else {
      AppendPair(pairs[1..], p);
      assert PrintCsv(all) == PrintPair(pairs[0]) + "," + PrintCsv(all[1..]);
      Assoc(PrintPair(pairs[0]) + ",", PrintCsv(pairs[1..]), "," + PrintPair(p));
    }
  }

  function TaggedPairs(pfmSid: int, pfmCid: int, sid: int, cid: int, tag: string): seq<Pair> {
    ConfigurationPairs(pfmSid, pfmCid, sid, cid) + [Pair("Tag", tag)]
  }

  lemma TaggedText(pfmSid: int, pfmCid: int, sid: int, cid: int, tag: string)
    ensures ConfigurationText(pfmSid, pfmCid, sid, cid) + ",Tag=" + tag
            == "CTL-Write" + " " + PrintCsv(TaggedPairs(pfmSid, pfmCid, sid, cid, tag))
  {
    var pairs, p := ConfigurationPairs(pfmSid, pfmCid, sid, cid), Pair("Tag", tag);
    AppendPair(pairs, p);
    assert ",Tag=" + tag == "," + PrintPair(p);
    var head := "CTL-Write" + " ";
    Assoc(head + PrintCsv(pairs), ",Tag=", tag);
    Assoc(head, PrintCsv(pairs), "," + PrintPair(p));
  }

  lemma KeyTokens()
    ensures Token("Space") && Token("0") && Token("PFMSID") && Token("PFMCID") && Token("SID") && Token("CID") && Token("Tag")
  {
  }

  lemma TaggedTokens(pfmSid: int, pfmCid: int, sid: int, cid: int, tag: string)
    requires Token(tag)
    ensures TokenPairs(TaggedPairs(pfmSid, pfmCid, sid, cid, tag))
  {
    KeyTokens();
    ShowToken(pfmSid);
    ShowToken(pfmCid);
    ShowToken(sid);
    ShowToken(cid);
  }

  lemma TaggedMeans(pfmSid: int, pfmCid: int, sid: int, cid: int, tag: string)
    ensures ConfigureOf(DictOf(map[], TaggedPairs(pfmSid, pfmCid, sid, cid, tag))) == Configure(sid, cid, tag)
  {
    var pairs := TaggedPairs(pfmSid, pfmCid, sid, cid, tag);
    DistinctKeysKept(map[], pairs, 0);
    DistinctKeysKept(map[], pairs, 3);
    DistinctKeysKept(map[], pairs, 4);
    DistinctKeysKept(map[], pairs, 5);
    ReadShow(sid);
    ReadShow(cid);
    ReadShow(0);
  }

  /** Every field of the configuration message can be read back by name. */
  lemma ConfigurationFields(pfmSid: int, pfmCid: int, sid: int, cid: int, tag: string)
    requires Token(tag)
    ensures var kv := Csv2Dict(PrintCsv(TaggedPairs(pfmSid, pfmCid, sid, cid, tag)));
            && Field(kv, "Space", "0") && Field(kv, "PFMSID", Show(pfmSid)) && Field(kv, "PFMCID", Show(pfmCid))
            && Field(kv, "SID", Show(sid)) && Field(kv, "CID", Show(cid)) && Field(kv, "Tag", tag)
  {
    var pairs := TaggedPairs(pfmSid, pfmCid, sid, cid, tag);
    TaggedTokens(pfmSid, pfmCid, sid, cid, tag);
    CsvMeans(pairs);
    forall i | 0 <= i < |pairs| ensures Field(DictOf(map[], pairs), pairs[i].key, pairs[i].value) {
      DistinctKeysKept(map[], pairs, i);
    }
    assert pairs[0] == Pair("Space", "0") && pairs[1].key == "PFMSID" && pairs[2].key == "PFMCID";
    assert pairs[3].key == "SID" && pairs[4].key == "CID" && pairs[5] == Pair("Tag", tag);
  }

  predicate Field(kv: Dict, key: string, value: string) { key in kv && kv[key] == value }

  lemma ConfigureKind(pfmSid: int, pfmCid: int, sid: int, cid: int, tag: string, tracker: int)
    requires Token(tag)
    ensures KindOf(Suffixed(ConfigurationText(pfmSid, pfmCid, sid, cid) + ",Tag=" + tag, tracker)) == Configure(sid, cid, tag)
  {
    var pairs := TaggedPairs(pfmSid, pfmCid, sid, cid, tag);
    TaggedText(pfmSid, pfmCid, sid, cid, tag);
    TaggedTokens(pfmSid, pfmCid, sid, cid, tag);
    CsvWord(pairs);
    CsvMeans(pairs);
    TaggedMeans(pfmSid, pfmCid, sid, cid, tag);
    CtlWriteKind(PrintCsv(pairs), tracker);
  }
}
