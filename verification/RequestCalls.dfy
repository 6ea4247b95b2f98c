/** The request handlers as they run: module globals and responder fields changed in place. */
module RequestCalls {
  import opened Prelude
  import opened Text
  import opened Csv
  import opened Requests
  import opened RequestFacts
  import opened RequestTags
  import opened RequestMeaning

  // ---- what a payload means to whoever sends it

  lemma SentSplits(payload: string, tracker: int)
    ensures !HasToken(payload) ==> SplitToken(payload + TOKEN + Show(tracker)) == [payload, Show(tracker)]
  {
    if !HasToken(payload) {
      TrackerRoundTrip(payload, tracker);
    }
  }

  lemma TagFree(proc: Proc)
    ensures TagInv(proc) ==> Show(proc.nextTag) !in proc.tagged
  {
    if TagInv(proc) {
      NextTagIsNew(proc);
    }
  }

  // ---- the calls

  /** The object a handler answers through: a client, or the server's proxy for one. */
  class Proxy {
    const role: Role
    const cClass: string
    var sid0: int
    var cid0: int
    var configured: bool
    var peerattrs: Dict

    constructor (role: Role, cClass: string, sid0: int, cid0: int)
      ensures Value() == Responder(role, cClass, sid0, cid0, false, map[])
    {
      this.role, this.cClass, this.sid0, this.cid0 := role, cClass, sid0, cid0;
      configured, peerattrs := false, map[];
    }

    function Value(): Responder
      reads this
    {
      Responder(role, cClass, sid0, cid0, configured, peerattrs)
    }
  }

  class Process {
    var nextTag: nat
    var tagged: Dict
    var tracker: int

    constructor ()
      ensures Value() == Proc(1, map[], 0) && Valid()
    {
      nextTag, tagged, tracker := 1, map[], 0;
    }

    /** Outstanding tags are distinct, below the next one, and followed up. */
    predicate Valid()
      reads this
    {
      TagInv(Value())
    }

    function Value(): Proc
      reads this
    {
      Proc(nextTag, tagged, tracker)
    }

    /** send_payload; the text goes to the mailbox and the doorbell.  It splits back into what was
        sent and the new tracker, and a tag that goes with it was not in use. */
    method SendPayload(peer: Proxy, response: string, tag: Option<string>, resetTracker: bool) returns (text: string)
      modifies this
      ensures var proc := old(Value()).(tracker := if resetTracker then 0 else old(tracker));
              Outcome(Value(), peer.Value(), Some(text)) ==
              match tag
              case None => Send(proc, peer.Value(), response)
              case Some(after) => SendTagged(proc, peer.Value(), response, after)
      ensures tracker == 1 + if resetTracker then 0 else old(tracker)
      ensures var payload := if tag.None? then response else response + ",Tag=" + Show(old(nextTag));
              !HasToken(payload) ==> SplitToken(text) == [payload, Show(tracker)]
      ensures tag.Some? ==>
                var payload := response + ",Tag=" + Show(old(nextTag));
                && nextTag == old(nextTag) + 1
                && tagged == old(tagged)[Show(old(nextTag)) := Show(peer.sid0) + "." + Show(peer.cid0) + "!" + payload + "|" + tag.value]
      ensures tag.Some? && old(Valid()) ==> Show(old(nextTag)) !in old(tagged) && Show(old(nextTag)) in tagged
    {
      TagFree(Value());
      text := response;
      if tag.Some? {
        text := text + ",Tag=" + Show(nextTag);
        tagged := tagged[Show(nextTag) := Show(peer.sid0) + "." + Show(peer.cid0) + "!" + text + "|" + tag.value];
        nextTag := nextTag + 1;
      }
      if resetTracker {
        tracker := 0;
      }
      tracker := tracker + 1;
      SentSplits(text, tracker);
      text := text + TOKEN + Show(tracker);
    }

    method Reply(peer: Proxy, response: string) returns (reply: Option<string>)
      modifies this
      ensures Outcome(Value(), peer.Value(), reply) == Send(old(Value()), peer.Value(), response)
    {
      var text := SendPayload(peer, response, None, false);
      reply := Some(text);
    }

    /** _Standalone_Acknowledgment */
    method StandaloneAcknowledgment(peer: Proxy, args: seq<string>) returns (reply: Option<string>)
      modifies this
      ensures Outcome(Value(), peer.Value(), reply) == OnStandaloneAck(old(Value()), peer.Value(), args)
    {
      if args == [] {
        return None;
      }
      var kv := ParseCsv(args[0]);
      if "Tag" !in kv || kv["Tag"] !in tagged {
        return None;
      }
      var parts := Split(tagged[kv["Tag"]], '|');
      if |parts| != 2 {
        return None;
      }
      tagged := tagged - {kv["Tag"]};
      kv := ParseCsv(Strip(parts[1]));
      if "AfterACK" in kv && kv["AfterACK"] != "" {
        reply := Reply(peer, kv["AfterACK"]);
      } else {
        reply := None;
      }
    }

    /** _CTL_Write; the fields it has set stay set when a later one is missing. */
    method CtlWrite(peer: Proxy, args: seq<string>) returns (reply: Option<string>)
      modifies this, peer
      ensures Outcome(Value(), peer.Value(), reply) == OnCtlWrite(old(Value()), old(peer.Value()), args)
    {
      reply := None;
      if args == [] {
        return;
      }
      var kv := ParseCsv(args[0]);
      if "Space" !in kv || ReadInt(kv["Space"]) != Some(0) || "SID" !in kv || ReadInt(kv["SID"]).None? {
        return;
      }
      peer.sid0 := ReadInt(kv["SID"]).value;
      if "CID" !in kv || ReadInt(kv["CID"]).None? {
        return;
      }
      peer.cid0 := ReadInt(kv["CID"]).value;
      if peer.role.Switch? {
        return;
      }
      peer.configured := true;
      if "Tag" in kv {
        reply := Reply(peer, StandaloneAckText(kv["Tag"]));
      }
    }

    /** _Link_RFC */
    method LinkRfc(peer: Proxy, args: seq<string>) returns (reply: Option<string>)
      modifies this
      ensures Outcome(Value(), peer.Value(), reply) == OnLinkRfc(old(Value()), peer.Value(), args)
    {
      if peer.role.Endpoint? || !peer.role.smart || args == [] {
        return None;
      }
      var kv := ParseCsv(args[0]);
      if "TTC" !in kv || !Microseconds(kv["TTC"]) {
        return None;
      }
      var response := ConfigurationText(peer.role.sid, peer.role.cid, peer.sid0, peer.cid0);
      var text := SendPayload(peer, response, Some(AFTER_ACK), false);
      reply := Some(text);
    }

    /** _Link_CTL */
    method LinkCtl(peer: Proxy, args: seq<string>) returns (reply: Option<string>)
      modifies this, peer
      ensures Outcome(Value(), peer.Value(), reply) == OnLinkCtl(old(Value()), old(peer.Value()), args)
    {
      reply := None;
      if args == ["Peer-Attribute"] {
        var sid, cid := peer.sid0, peer.cid0;
        if peer.role.Switch? {
          sid, cid := peer.role.sid, peer.role.cid;
        }
        reply := Reply(peer, LinkAckText(peer.cClass, sid, cid));
      } else if |args| == 2 && args[0] == "ACK" {
        peer.peerattrs := ParseCsv(args[1]);
      }
    }

    method Invoke(peer: Proxy, call: Call) returns (reply: Option<string>)
      modifies this, peer
      ensures Outcome(Value(), peer.Value(), reply) == Run(old(Value()), old(peer.Value()), call)
    {
      match call.handler {
        case StandaloneAck => reply := StandaloneAcknowledgment(peer, call.args);
        case CtlWrite => reply := CtlWrite(peer, call.args);
        case LinkRfc => reply := LinkRfc(peer, call.args);
        case LinkCtl => reply := LinkCtl(peer, call.args);
        case Ping => reply := Reply(peer, "pong");
        case Inert => reply := None;
      }
    }

    /** handle_request.  Whatever the text, the tags stay sound, the reply is of strictly lower rank
        than the request, and what was asked for is what is done and answered. */
    method HandleRequest(peer: Proxy, request: string) returns (reply: Option<string>)
      requires Valid()
      modifies this, peer
      ensures Valid() && old(nextTag) <= nextTag
      ensures Lowers(reply, Rank(request))
      ensures Understood(old(Value()), old(peer.Value()), request, Outcome(Value(), peer.Value(), reply))
      ensures Continues(old(tracker), request, tracker, reply)
      ensures var parts := SplitToken(request);
              Words(parts[0]) != [] && Words(parts[0])[0] == "ping" && (|parts| == 1 || ReadInt(Strip(parts[1])).Some?) ==>
                && reply.Some? && SplitToken(reply.value) == ["pong", Show(tracker)]
                && peer.Value() == old(peer.Value()) && tagged == old(tagged) && nextTag == old(nextTag)
      ensures Outcome(Value(), peer.Value(), reply) == Handle(old(Value()), old(peer.Value()), request)
    {
      HandleTags(Value(), peer.Value(), request);
      ReplyRanksLower(Value(), peer.Value(), request);
      HandleUnderstood(Value(), peer.Value(), request);
      HandleContinues(Value(), peer.Value(), request);
      PingAnswered(Value(), peer.Value(), request);
      reply := Respond(peer, request);
    }

    method Respond(peer: Proxy, request: string) returns (reply: Option<string>)
      modifies this, peer
      ensures Outcome(Value(), peer.Value(), reply) == Handle(old(Value()), old(peer.Value()), request)
    {
      var parts := SplitToken(request);
      if |parts| > 1 {
        var number := ReadInt(Strip(parts[1]));
        if number.None? {
          return None;
        }
        if number.value != 0 {
          tracker := number.value;
        }
      }
      var call := Chelsea(Words(parts[0]));
      reply := Invoke(peer, call);
    }
  }
}
