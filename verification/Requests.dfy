/** The Gen-Z control plane: text requests, their dispatch and their handlers.

    Server and clients run the same code.  A request is a line of words followed by a tracker
    suffix; the words name a handler and give it its arguments; a handler changes the state of
    the responder and sends at most one reply. */
module Requests {
  import opened Prelude
  import opened Text
  import opened Csv

  // ---- the tracker suffix

  const TOKEN := "!FZT="

  predicate TokenAt(s: string, i: nat) { i + 5 <= |s| && s[i..i + 5] == TOKEN }

  predicate HasToken(s: string) { exists i | 0 <= i < |s| :: TokenAt(s, i) }

  lemma NotToken(s: string, i: nat)
    requires i < |s| && s[i] != '!'
    ensures !TokenAt(s, i)
  {
    assert i + 5 <= |s| ==> s[i..i + 5][0] == s[i];
    assert TOKEN[0] == '!';
  }

  function FindToken(s: string, from: nat := 0): (k: nat)
    requires from <= |s|
    ensures from <= k <= |s| && forall i | from <= i < k :: !TokenAt(s, i)
    ensures k < |s| ==> TokenAt(s, k)
    decreases |s| - from
  {
    if from == |s| || TokenAt(s, from) then from else FindToken(s, from + 1)
  }

  /** request.split(TOKEN) */
  function SplitToken(s: string): (r: seq<string>)
    ensures |r| >= 1
    decreases |s|
  {
    var k := FindToken(s);
    if k == |s| then [s] else [s[..k]] + SplitToken(s[k + 5..])
  }

  /** The token cannot overlap itself, so a payload without it is found again exactly. */
  lemma TokenAfterPayload(payload: string, rest: string)
    requires !HasToken(payload)
    ensures FindToken(payload + TOKEN + rest) == |payload|
  {
    var s := payload + TOKEN + rest;
    assert s[|payload|..|payload| + 5] == TOKEN;
    assert TokenAt(s, |payload|);
    forall i | 0 <= i < |payload| ensures !TokenAt(s, i) {
      if i + 5 <= |payload| {
        assert s[i..i + 5] == payload[i..i + 5];
        assert !TokenAt(payload, i);
      } else if i + 5 <= |s| {
        assert s[i..i + 5][|payload| - i] == s[|payload|] == '!';
      }
    }
  }

  /** Suffixing and splitting: any payload without the token comes back with its tracker. */
  lemma TrackerRoundTrip(payload: string, tracker: int)
    requires !HasToken(payload)
    ensures SplitToken(payload + TOKEN + Show(tracker)) == [payload, Show(tracker)]
    ensures ReadInt(Show(tracker)) == Some(tracker)
  {
    var s := payload + TOKEN + Show(tracker);
    TokenAfterPayload(payload, Show(tracker));
    assert s[..|payload|] == payload && s[|payload| + 5..] == Show(tracker);
    ShowPlain(tracker);
    forall i | 0 <= i < |Show(tracker)| ensures !TokenAt(Show(tracker), i) {
      NotToken(Show(tracker), i);
    }
    assert SplitToken(Show(tracker)) == [Show(tracker)];
    ReadShow(tracker);
  }

  /** A part without '!' at the front of a message is part of its payload. */
  lemma PayloadStartsWith(a: string, b: string)
    requires '!' !in a
    ensures a <= SplitToken(a + b)[0]
  {
    var s := a + b;
    var k := FindToken(s);
    forall i | 0 <= i < |a| ensures !TokenAt(s, i) {
      assert s[i] == a[i] && a[i] in a;
      NotToken(s, i);
    }
    assert s[..k][..|a|] == a;
  }

  // ---- finding a handler

  datatype Handler = StandaloneAck | CtlWrite | LinkRfc | LinkCtl | Ping | Inert

  /** Other module-level names a request can spell.  Calling them fails or does nothing. */
  const OTHER_GLOBALS: set<string> := {
    "_unprocessed", "_send_SA", "_next_tag", "_tagged", "_tracker", "_TRACKER_TOKEN",
    "__name__", "__doc__", "__package__", "__loader__", "__spec__", "__file__", "__cached__", "__builtins__"
  }

  function Lookup(entry: string): Option<Handler> {
    if entry == "_Standalone_Acknowledgment" then Some(StandaloneAck)
    else if entry == "_CTL_Write" then Some(CtlWrite)
    else if entry == "_Link_RFC" then Some(LinkRfc)
    else if entry == "_Link_CTL" then Some(LinkCtl)
    else if entry == "_ping" then Some(Ping)
    else if entry in OTHER_GLOBALS then Some(Inert)
    else None
  }

  function Underscored(e: string): string {
    seq(|e|, i requires 0 <= i < |e| => if e[i] == '-' then '_' else e[i])
  }

  datatype Call = Call(handler: Handler, args: seq<string>)

  /** The shortest run of leading words that spells a known name; the rest are arguments. */
  function Dispatch(elements: seq<string>, i: nat := 0, entry: string := ""): Call
    requires i <= |elements|
    decreases |elements| - i
  {
    if i == |elements| then Call(Inert, elements)
    else
      var entry' := entry + "_" + Underscored(elements[i]);
      match Lookup(entry')
      case Some(handler) => Call(handler, elements[i + 1..])
      case None => Dispatch(elements, i + 1, entry')
  }

  /** The name that the first `k` words spell. */
  function Entry(elements: seq<string>, k: nat): string
    requires k <= |elements|
  {
    if k == 0 then "" else Entry(elements, k - 1) + "_" + Underscored(elements[k - 1])
  }

  /** No run of at most `k` leading words spells a known name. */
  predicate Unnamed(elements: seq<string>, k: nat)
    requires k <= |elements|
  {
    forall j | 1 <= j <= k :: Lookup(Entry(elements, j)).None?
  }

  /** The call goes to the shortest run of leading words that spells a known name, with the other
      words as arguments; if there is none, nothing is done. */
  predicate ShortestName(elements: seq<string>, call: Call) {
    || (exists k | 1 <= k <= |elements| ::
          && Unnamed(elements, k - 1)
          && Lookup(Entry(elements, k)) == Some(call.handler) && call.args == elements[k..])
    || (Unnamed(elements, |elements|) && call == Call(Inert, elements))
  }

  /** chelsea as it runs. */
  method Chelsea(elements: seq<string>) returns (call: Call)
    ensures ShortestName(elements, call) && call == Dispatch(elements)
  {
    var entry := "";
    var i := 0;
    while i < |elements|
      invariant 0 <= i <= |elements|
      invariant entry == Entry(elements, i) && Unnamed(elements, i)
      invariant Dispatch(elements, i, entry) == Dispatch(elements)
    {
      entry := entry + "_" + Underscored(elements[i]);
      match Lookup(entry) {
        case Some(handler) =>
          assert entry == Entry(elements, i + 1);
          return Call(handler, elements[i + 1..]);
        case None =>
      }
      i := i + 1;
    }
    return Call(Inert, elements);
  }

  function CallOf(text: string): Call { Dispatch(Words(SplitToken(text)[0])) }

  // ---- the state of one process and of the peer it is answering

  /** Module globals: the next tag, the outstanding tags and the tracker. */
  datatype Proc = Proc(nextTag: nat, tagged: Dict, tracker: int)

  /** The server knows whether it manages the fabric and its own address; a client does not. */
  datatype Role = Switch(smart: bool, sid: int, cid: int) | Endpoint

  datatype Responder = Responder(
    role: Role, cClass: string, sid0: int, cid0: int, configured: bool, peerattrs: Dict)

  datatype Outcome = Outcome(proc: Proc, resp: Responder, reply: Option<string>)

  const PEER_ATTRIBUTE := "Link" + " " + ("CTL" + " " + "Peer-Attribute")
  const AFTER_ACK := PrintPair(Pair("AfterACK", PEER_ATTRIBUTE))

  function Suffixed(response: string, tracker: int): string { response + TOKEN + Show(tracker) }

  /** send_payload without a tag. */
  function Send(proc: Proc, resp: Responder, response: string): Outcome {
    var tracker := proc.tracker + 1;
    Outcome(proc.(tracker := tracker), resp, Some(Suffixed(response, tracker)))
  }

  /** send_payload with one: the tag is printed, remembered with what to do next, and used up. */
  function SendTagged(proc: Proc, resp: Responder, response: string, after: string): Outcome {
    var tag := Show(proc.nextTag);
    var tagged := response + ",Tag=" + tag;
    var stamp := Show(resp.sid0) + "." + Show(resp.cid0) + "!" + tagged;
    Send(Proc(proc.nextTag + 1, proc.tagged[tag := stamp + "|" + after], proc.tracker), resp, tagged)
  }

  function Nothing(proc: Proc, resp: Responder): Outcome { Outcome(proc, resp, None) }

  /** What to send once a tag is acknowledged, as remembered with the tag. */
  datatype Next = Malformed | Silence | Follow(request: string)

  function AfterAck(entry: string): Next {
    var parts := Split(entry, '|');
    if |parts| != 2 then Malformed
    else
      var kv := Csv2Dict(Strip(parts[1]));
      if "AfterACK" in kv && kv["AfterACK"] != "" then Follow(kv["AfterACK"]) else Silence
  }

  function OnStandaloneAck(proc: Proc, resp: Responder, args: seq<string>): Outcome {
    if args == [] then Nothing(proc, resp)
    else
      var kv := Csv2Dict(args[0]);
      if "Tag" !in kv || kv["Tag"] !in proc.tagged then Nothing(proc, resp)
      else
        var proc' := proc.(tagged := proc.tagged - {kv["Tag"]});
        match AfterAck(proc.tagged[kv["Tag"]])
        case Malformed => Nothing(proc, resp)
        case Silence => Nothing(proc', resp)
        case Follow(request) => Send(proc', resp, request)
  }

  function StandaloneAckText(tag: string): string {
    "Standalone" + " " + ("Acknowledgment" + " " + PrintCsv([Pair("Tag", tag), Pair("Reason", "OK")]))
  }

  /** Each missing or malformed field stops the handler where it is met.  Only a client keeps link
      attributes, so at the server recording the new state raises an error and nothing is sent. */
  function OnCtlWrite(proc: Proc, resp: Responder, args: seq<string>): Outcome {
    if args == [] then Nothing(proc, resp)
    else
      var kv := Csv2Dict(args[0]);
      if "Space" !in kv || ReadInt(kv["Space"]) != Some(0) then Nothing(proc, resp)
      else if "SID" !in kv || ReadInt(kv["SID"]).None? then Nothing(proc, resp)
      else
        var resp1 := resp.(sid0 := ReadInt(kv["SID"]).value);
        if "CID" !in kv || ReadInt(kv["CID"]).None? then Nothing(proc, resp1)
        else
          var resp2 := resp1.(cid0 := ReadInt(kv["CID"]).value);
          if resp.role.Switch? then Nothing(proc, resp2)
          else if "Tag" !in kv then Nothing(proc, resp2.(configured := true))
          else Send(proc, resp2.(configured := true), StandaloneAckText(kv["Tag"]))
  }

  function Lower(c: char): char { if 'A' <= c <= 'Z' then (c as int + 32) as char else c }

  /** 'us' in delay.lower() */
  predicate Microseconds(delay: string) {
    exists i | 0 <= i < |delay| - 1 :: Lower(delay[i]) == 'u' && Lower(delay[i + 1]) == 's'
  }

  function ConfigurationText(pfmSid: int, pfmCid: int, sid: int, cid: int): string {
    "CTL-Write" + " " + PrintCsv(ConfigurationPairs(pfmSid, pfmCid, sid, cid))
  }

  function ConfigurationPairs(pfmSid: int, pfmCid: int, sid: int, cid: int): seq<Pair> {
    [Pair("Space", "0"), Pair("PFMSID", Show(pfmSid)), Pair("PFMCID", Show(pfmCid)), Pair("SID", Show(sid)), Pair("CID", Show(cid))]
  }

  function OnLinkRfc(proc: Proc, resp: Responder, args: seq<string>): Outcome {
    if resp.role.Endpoint? || !resp.role.smart || args == [] then Nothing(proc, resp)
    else
      var kv := Csv2Dict(args[0]);
      if "TTC" !in kv || !Microseconds(kv["TTC"]) then Nothing(proc, resp)
      else SendTagged(proc, resp, ConfigurationText(resp.role.sid, resp.role.cid, resp.sid0, resp.cid0), AFTER_ACK)
  }

  function AttributePairs(cClass: string, sid: int, cid: int): seq<Pair> {
    [Pair("C-Class", cClass), Pair("SID0", Show(sid)), Pair("CID0", Show(cid))]
  }

  function LinkAckText(cClass: string, sid: int, cid: int): string {
    "Link" + " " + ("CTL" + " " + ("ACK" + " " + PrintCsv(AttributePairs(cClass, sid, cid))))
  }

  function OnLinkCtl(proc: Proc, resp: Responder, args: seq<string>): Outcome {
    if args == ["Peer-Attribute"] then
      match resp.role
      case Endpoint => Send(proc, resp, LinkAckText(resp.cClass, resp.sid0, resp.cid0))
      case Switch(_, sid, cid) => Send(proc, resp, LinkAckText(resp.cClass, sid, cid))
    else if |args| == 2 && args[0] == "ACK" then Nothing(proc, resp.(peerattrs := Csv2Dict(args[1])))
    else Nothing(proc, resp)
  }

  function Run(proc: Proc, resp: Responder, call: Call): Outcome {
    match call.handler
    case StandaloneAck => OnStandaloneAck(proc, resp, call.args)
    case CtlWrite => OnCtlWrite(proc, resp, call.args)
    case LinkRfc => OnLinkRfc(proc, resp, call.args)
    case LinkCtl => OnLinkCtl(proc, resp, call.args)
    case Ping => Send(proc, resp, "pong")
    case Inert => Nothing(proc, resp)
  }

  /** The tracker that comes with a request replaces our own, unless it is 0 or missing. */
  function Tracked(proc: Proc, parts: seq<string>): Option<Proc>
    requires |parts| >= 1
  {
    if |parts| == 1 then Some(proc)
    else
      match ReadInt(Strip(parts[1]))
      case None => None
      case Some(n) => Some(if n == 0 then proc else proc.(tracker := n))
  }

  /** handle_request.  A tracker that is not a number stops it before anything happens. */
  function Handle(proc: Proc, resp: Responder, request: string): Outcome {
    match Tracked(proc, SplitToken(request))
    case None => Nothing(proc, resp)
    case Some(proc') => Run(proc', resp, CallOf(request))
  }
}
