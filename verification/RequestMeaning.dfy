/** What a request means to whoever receives it: what is done, what is answered, and what is not. */
module RequestMeaning {
  import opened Prelude
  import opened Text
  import opened Csv
  import opened Requests
  import opened RequestFacts
  import opened RequestTags
  import opened RequestKinds
  import opened AttributeTexts

  // ---- the tracker

  /** The tracker in force after reading a request: its own, unless that is 0 or missing.  Nothing is
      done at all with one that is not a number. */
  function InForce(own: int, request: string): Option<int> {
    var parts := SplitToken(request);
    if |parts| == 1 then Some(own)
    else match ReadInt(Strip(parts[1])) case None => None case Some(n) => Some(if n == 0 then own else n)
  }

  /** A reply carries the next tracker, which is then our own. */
  predicate Continues(own: int, request: string, tracker: int, reply: Option<string>) {
    match InForce(own, request)
    case None => reply.None? && tracker == own
    case Some(n) => if reply.Some? then tracker == n + 1 && EndsWith(reply.value, "!FZT=" + Show(n + 1)) else tracker == n
  }

  predicate EndsWith(s: string, end: string) { |end| <= |s| && s[|s| - |end|..] == end }

  lemma SuffixEnds(payload: string, tracker: int)
    ensures EndsWith(Suffixed(payload, tracker), "!FZT=" + Show(tracker))
  {
    Assoc(payload, TOKEN, Show(tracker));
  }

  predicate Follows(tracker: int, out: Outcome) {
    if out.reply.Some? then out.proc.tracker == tracker + 1 && EndsWith(out.reply.value, "!FZT=" + Show(tracker + 1))
    else out.proc.tracker == tracker
  }

  lemma SendFollows(proc: Proc, resp: Responder, response: string)
    ensures Follows(proc.tracker, Send(proc, resp, response))
  {
    SuffixEnds(response, proc.tracker + 1);
  }

  lemma AnySendFollows()
    ensures forall p: Proc, r, response :: Follows(p.tracker, Send(p, r, response))
  {
    forall p: Proc, r, response ensures Follows(p.tracker, Send(p, r, response)) {
      SendFollows(p, r, response);
    }
  }

  lemma AckFollows(proc: Proc, resp: Responder, args: seq<string>)
    ensures Follows(proc.tracker, OnStandaloneAck(proc, resp, args))
  {
    AnySendFollows();
  }

  lemma WriteFollows(proc: Proc, resp: Responder, args: seq<string>)
    ensures Follows(proc.tracker, OnCtlWrite(proc, resp, args))
  {
    AnySendFollows();
  }

  lemma RfcFollows(proc: Proc, resp: Responder, args: seq<string>)
    ensures Follows(proc.tracker, OnLinkRfc(proc, resp, args))
  {
    AnySendFollows();
  }

  lemma CtlFollows(proc: Proc, resp: Responder, args: seq<string>)
    ensures Follows(proc.tracker, OnLinkCtl(proc, resp, args))
  {
    AnySendFollows();
  }

  lemma RunContinues(proc: Proc, resp: Responder, call: Call)
    ensures Follows(proc.tracker, Run(proc, resp, call))
  {
    match call.handler
    case StandaloneAck => AckFollows(proc, resp, call.args);
    case CtlWrite => WriteFollows(proc, resp, call.args);
    case LinkRfc => RfcFollows(proc, resp, call.args);
    case LinkCtl => CtlFollows(proc, resp, call.args);
    case Ping => SendFollows(proc, resp, "pong");
    case Inert =>
  }

  lemma HandleContinues(proc: Proc, resp: Responder, request: string)
    ensures var out := Handle(proc, resp, request); Continues(proc.tracker, request, out.proc.tracker, out.reply)
  {
    var tracked := Tracked(proc, SplitToken(request));
    if tracked.Some? {
      RunContinues(tracked.value, resp, CallOf(request));
    }
  }

  /** Between two processes: what one sends with tracker n is answered with n + 1. */
  lemma TrackerGrows(proc: Proc, resp: Responder, payload: string, n: int)
    requires !HasToken(payload) && n != 0
    ensures var out := Handle(proc, resp, Suffixed(payload, n));
            if out.reply.Some? then out.proc.tracker == n + 1 && EndsWith(out.reply.value, "!FZT=" + Show(n + 1)) else out.proc.tracker == n
  {
    TrackerRoundTrip(payload, n);
    ShowPlain(n);
    StripTrim(Show(n));
    HandleContinues(proc, resp, Suffixed(payload, n));
  }

  // ---- ping

  lemma PingCall(words: seq<string>)
    requires words != [] && words[0] == "ping"
    ensures Dispatch(words).handler == Ping
  {
    assert Underscored("ping") == "ping";
    assert "" + "_" + "ping" == "_ping";
  }

  /** A text whose first word is "ping" is answered "pong" and changes nothing else. */
  lemma PingAnswered(proc: Proc, resp: Responder, text: string)
    ensures var parts, out := SplitToken(text), Handle(proc, resp, text);
            Words(parts[0]) != [] && Words(parts[0])[0] == "ping" && (|parts| == 1 || ReadInt(Strip(parts[1])).Some?) ==>
              && out.reply.Some? && SplitToken(out.reply.value) == ["pong", Show(out.proc.tracker)]
              && out.resp == resp && out.proc.tagged == proc.tagged && out.proc.nextTag == proc.nextTag
  {
    var words := Words(SplitToken(text)[0]);
    if words != [] && words[0] == "ping" && Numbered(text) {
      PingCall(words);
      var proc' := HandleIsRun(proc, resp, text);
      PongSplits(proc'.tracker + 1);
    }
  }

  lemma PongSplits(tracker: int)
    ensures SplitToken(Suffixed("pong", tracker)) == ["pong", Show(tracker)]
  {
    NoBangNoToken("pong");
    TrackerRoundTrip("pong", tracker);
  }

  // ---- what each kind of request does

  /** The tags are as they were. */
  predicate SameTags(proc: Proc, out: Outcome) { out.proc.tagged == proc.tagged && out.proc.nextTag == proc.nextTag }

  predicate Silent(proc: Proc, out: Outcome) { out.reply.None? && SameTags(proc, out) }

  predicate Means(reply: Option<string>, kind: Kind) { reply.Some? && KindOf(reply.value) == kind }

  /** The attributes a process gives as its own. */
  function Own(resp: Responder): Dict {
    match resp.role
    case Endpoint => AttributesOf(resp.cClass, resp.sid0, resp.cid0)
    case Switch(_, sid, cid) => AttributesOf(resp.cClass, sid, cid)
  }

  /** The outcome of a request, in terms of what its text and the text of the reply mean.  A manager
      configures whoever asks for it; a client takes the address it is given and acknowledges; a
      known acknowledgment is followed by a question for attributes, which are answered and stored. */
  predicate Understood(proc: Proc, resp: Responder, text: string, out: Outcome) {
    match KindOf(text)
    case Rfc =>
      if resp.role.Switch? && resp.role.smart then
        && out.resp == resp && Means(out.reply, Configure(resp.sid0, resp.cid0, Show(proc.nextTag)))
        && out.proc.tagged.Keys == proc.tagged.Keys + {Show(proc.nextTag)} && out.proc.nextTag == proc.nextTag + 1
      else out.resp == resp && Silent(proc, out)
    case Configure(sid, cid, tag) =>
      if resp.role.Endpoint? then
        && out.resp == resp.(sid0 := sid, cid0 := cid, configured := true) && SameTags(proc, out)
        && out.reply.Some? && (Token(tag) ==> Means(out.reply, Acked(tag)))
      else out.resp == resp.(sid0 := sid, cid0 := cid) && Silent(proc, out)
    case Acked(tag) =>
      && out.resp == resp && out.proc.tagged == proc.tagged - {tag} && out.proc.nextTag == proc.nextTag
      && if tag in proc.tagged then Means(out.reply, AskAttributes) else out.reply.None?
    case AskAttributes =>
      && out.resp == resp && SameTags(proc, out) && out.reply.Some?
      && (Storable(resp.cClass) <==> Means(out.reply, Attributes(Own(resp))))
    case Attributes(kv) => out.resp == resp.(peerattrs := kv) && Silent(proc, out)
    case Pinged => out.resp == resp && SameTags(proc, out) && out.reply.Some?
    case Other =>
      && Silent(proc, out) && out.resp.peerattrs == resp.peerattrs && out.resp.role == resp.role && out.resp.cClass == resp.cClass
      && (out.resp != resp ==> CallOf(text).handler.CtlWrite? && Numbered(text))
  }

  lemma RfcUnderstood(proc: Proc, resp: Responder, text: string)
    requires KindOf(text).Rfc?
    ensures Understood(proc, resp, text, Handle(proc, resp, text))
  {
    if resp.role.Switch? && resp.role.smart {
      var proc' := HandleRfc(proc, resp, text);
      ShowToken(proc.nextTag);
      ConfigureKind(resp.role.sid, resp.role.cid, resp.sid0, resp.cid0, Show(proc.nextTag), proc'.tracker + 1);
    } else {
      var proc' := HandleIsRun(proc, resp, text);
    }
  }

  lemma ConfigureUnderstood(proc: Proc, resp: Responder, text: string)
    requires KindOf(text).Configure?
    ensures Understood(proc, resp, text, Handle(proc, resp, text))
  {
    if resp.role.Endpoint? {
      var proc' := HandleConfigure(proc, resp, text);
      if Token(KindOf(text).tag) {
        AckedKind(KindOf(text).tag, proc'.tracker + 1);
      }
    } else {
      ConfigureAtSwitch(proc, resp, text);
    }
  }

  lemma ConfigureAtSwitch(proc: Proc, resp: Responder, text: string)
    requires KindOf(text).Configure? && resp.role.Switch?
    ensures var out := Handle(proc, resp, text);
            out.resp == resp.(sid0 := KindOf(text).sid, cid0 := KindOf(text).cid) && Silent(proc, out)
  {
    var proc' := HandleIsRun(proc, resp, text);
  }

  lemma AckedUnderstood(proc: Proc, resp: Responder, text: string)
    requires TagsOk(proc) && KindOf(text).Acked?
    ensures Understood(proc, resp, text, Handle(proc, resp, text))
  {
    if KindOf(text).tag in proc.tagged {
      var proc' := HandleAcked(proc, resp, text);
      AskKind(proc'.tracker + 1);
    } else {
      UnknownUnderstood(proc, resp, text);
    }
  }

  lemma UnknownUnderstood(proc: Proc, resp: Responder, text: string)
    requires KindOf(text).Acked? && KindOf(text).tag !in proc.tagged
    ensures var out := Handle(proc, resp, text);
            out.resp == resp && Silent(proc, out) && out.proc.tagged == proc.tagged - {KindOf(text).tag}
  {
    AckedCall(CallOf(text));
    UnknownAck(proc, resp, text);
    assert proc.tagged - {KindOf(text).tag} == proc.tagged;
  }

  lemma AskUnderstood(proc: Proc, resp: Responder, text: string)
    requires KindOf(text).AskAttributes?
    ensures Understood(proc, resp, text, Handle(proc, resp, text))
  {
    var proc' := HandleAsk(proc, resp, text);
    match resp.role
    case Endpoint => StoredIff(resp.cClass, resp.sid0, resp.cid0, proc'.tracker + 1);
    case Switch(_, sid, cid) => StoredIff(resp.cClass, sid, cid, proc'.tracker + 1);
  }

  lemma OtherUnderstood(proc: Proc, resp: Responder, text: string)
    requires KindOf(text).Other?
    ensures Understood(proc, resp, text, Handle(proc, resp, text))
  {
    if Numbered(text) {
      var proc' := HandleIsRun(proc, resp, text);
      OtherCall(proc', resp, CallOf(text));
    }
  }

  lemma OtherCall(proc: Proc, resp: Responder, call: Call)
    requires KindOfCall(call).Other?
    ensures var out := Run(proc, resp, call);
            && Silent(proc, out) && out.resp.peerattrs == resp.peerattrs && out.resp.role == resp.role && out.resp.cClass == resp.cClass
            && (out.resp != resp ==> call.handler.CtlWrite?)
  {
    if call.handler.CtlWrite? {
      WriteOther(proc, resp, call.args);
    }
  }

  lemma WriteOther(proc: Proc, resp: Responder, args: seq<string>)
    requires args == [] || ConfigureOf(Csv2Dict(args[0])).Other?
    ensures var out := OnCtlWrite(proc, resp, args);
            Silent(proc, out) && out.resp.peerattrs == resp.peerattrs && out.resp.role == resp.role && out.resp.cClass == resp.cClass
  {
  }

  /** Every request is understood, and its reply says what it should. */
  lemma HandleUnderstood(proc: Proc, resp: Responder, text: string)
    requires TagsOk(proc)
    ensures Understood(proc, resp, text, Handle(proc, resp, text))
  {
    match KindOf(text)
    case Rfc => RfcUnderstood(proc, resp, text);
    case Configure(_, _, _) => ConfigureUnderstood(proc, resp, text);
    case Acked(_) => AckedUnderstood(proc, resp, text);
    case AskAttributes => AskUnderstood(proc, resp, text);
    case Attributes(_) => var proc' := HandleAttributes(proc, resp, text);
    case Pinged => var proc' := HandleIsRun(proc, resp, text);
    case Other => OtherUnderstood(proc, resp, text);
  }

  // ---- incomplete configurations and slow requests

  predicate Has(kv: Dict, key: string) { key in kv && ReadInt(kv[key]).Some? }

  /** A CTL-Write sets what it can in the order SID, CID, state, and is acknowledged only if nothing
      was missing; at the server the state cannot be set. */
  lemma WriteFieldByField(proc: Proc, resp: Responder, csv: string, rest: seq<string>)
    ensures var kv, out := Csv2Dict(csv), OnCtlWrite(proc, resp, [csv] + rest);
            var space := Has(kv, "Space") && ReadInt(kv["Space"]).value == 0;
            && (space && Has(kv, "SID") ==> out.resp.sid0 == ReadInt(kv["SID"]).value)
            && (!(space && Has(kv, "SID")) ==> out.resp == resp)
            && (space && Has(kv, "SID") && Has(kv, "CID") ==> out.resp.cid0 == ReadInt(kv["CID"]).value)
            && (!(space && Has(kv, "SID") && Has(kv, "CID")) ==> out.resp.cid0 == resp.cid0 && out.resp.configured == resp.configured)
            && (space && Has(kv, "SID") && Has(kv, "CID") ==> out.resp.configured == (resp.configured || resp.role.Endpoint?))
            && (out.reply.Some? <==> space && Has(kv, "SID") && Has(kv, "CID") && resp.role.Endpoint? && "Tag" in kv)
  {
  }

  /** A Link RFC counts exactly when its delay speaks of microseconds, in capitals or not. */
  lemma RfcIfMicroseconds(delay: string, tracker: int)
    requires Token(delay)
    ensures KindOf(Suffixed("Link" + " " + ("RFC" + " " + PrintCsv([Pair("TTC", delay)])), tracker))
            == if exists i :: 0 <= i < |delay| - 1 && delay[i] in {'u', 'U'} && delay[i + 1] in {'s', 'S'} then Rfc else Other
  {
    var pairs := [Pair("TTC", delay)];
    assert Token("TTC");
    CsvWord(pairs);
    CsvMeans(pairs);
    LinkKind("RFC", PrintCsv(pairs), tracker);
    assert pairs[1..] == [];
    MicrosecondsIs(delay);
  }

  lemma MicrosecondsIs(delay: string)
    ensures Microseconds(delay) <==> exists i :: 0 <= i < |delay| - 1 && delay[i] in {'u', 'U'} && delay[i + 1] in {'s', 'S'}
  {
    if Microseconds(delay) {
      var i :| 0 <= i < |delay| - 1 && Lower(delay[i]) == 'u' && Lower(delay[i + 1]) == 's';
      assert delay[i] in {'u', 'U'} && delay[i + 1] in {'s', 'S'};
    }
    if i :| 0 <= i < |delay| - 1 && delay[i] in {'u', 'U'} && delay[i + 1] in {'s', 'S'} {
      assert Lower(delay[i]) == 'u' && Lower(delay[i + 1]) == 's';
    }
  }
}
