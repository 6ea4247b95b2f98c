/** Tags over whole runs of one process: distinct, below the next tag, consumed at most once. */
module RequestTags {
  import opened Prelude
  import opened Text
  import opened Csv
  import opened Requests
  import opened RequestFacts

  predicate TagsBelow(tagged: Dict, nextTag: nat) {
    forall t | t in tagged :: exists n: nat :: n < nextTag && t == Show(n)
  }

  predicate TagInv(proc: Proc) { EntriesOk(proc.tagged) && TagsBelow(proc.tagged, proc.nextTag) }

  /** The next tag is always a new one. */
  lemma NextTagIsNew(proc: Proc)
    requires TagsBelow(proc.tagged, proc.nextTag)
    ensures Show(proc.nextTag) !in proc.tagged
  {
    if Show(proc.nextTag) in proc.tagged {
      var n: nat :| n < proc.nextTag && Show(proc.nextTag) == Show(n);
      ShowInjective(proc.nextTag, n);
      assert false;
    }
  }

  // ---- the stamp has no separator in it

  lemma ShowHasNo(n: int, c: char)
    requires !IsDigit(c) && c != '-'
    ensures c !in Show(n)
  {
    ShowPlain(n);
  }

  lemma {:induction false} CsvHasNo(pairs: seq<Pair>, c: char)
    requires c != ',' && c != '=' && forall i | 0 <= i < |pairs| :: c !in pairs[i].key && c !in pairs[i].value
    ensures c !in PrintCsv(pairs)
  {
    if |pairs| > 1 {
      CsvHasNo(pairs[1..], c);
    }
  }

  lemma ConfigurationHasNo(pfmSid: int, pfmCid: int, sid: int, cid: int)
    ensures '|' !in ConfigurationText(pfmSid, pfmCid, sid, cid)
  {
    ShowHasNo(pfmSid, '|');
    ShowHasNo(pfmCid, '|');
    ShowHasNo(sid, '|');
    ShowHasNo(cid, '|');
    CsvHasNo(ConfigurationPairs(pfmSid, pfmCid, sid, cid), '|');
  }

  function Stamp(resp: Responder, tagged: string): string {
    Show(resp.sid0) + "." + Show(resp.cid0) + "!" + tagged
  }

  lemma EntryOk(resp: Responder, tagged: string)
    requires '|' !in tagged
    ensures TagOk(Stamp(resp, tagged) + "|" + AFTER_ACK)
  {
    ShowHasNo(resp.sid0, '|');
    ShowHasNo(resp.cid0, '|');
    RequestIsClean();
    AfterAckRoundTrip(Stamp(resp, tagged), PEER_ATTRIBUTE);
  }

  lemma RequestIsClean()
    ensures Clean(PEER_ATTRIBUTE) && '|' !in PEER_ATTRIBUTE && PEER_ATTRIBUTE != ""
  {
  }

  lemma TagGrows(proc: Proc, resp: Responder)
    requires TagInv(proc) && resp.role.Switch?
    ensures var response := ConfigurationText(resp.role.sid, resp.role.cid, resp.sid0, resp.cid0);
            TagInv(SendTagged(proc, resp, response, AFTER_ACK).proc)
  {
    var response := ConfigurationText(resp.role.sid, resp.role.cid, resp.sid0, resp.cid0);
    var proc' := SendTagged(proc, resp, response, AFTER_ACK).proc;
    var tagged := response + ",Tag=" + Show(proc.nextTag);
    ConfigurationHasNo(resp.role.sid, resp.role.cid, resp.sid0, resp.cid0);
    ShowHasNo(proc.nextTag, '|');
    EntryOk(resp, tagged);
    forall t | t in proc'.tagged ensures TagOk(proc'.tagged[t]) && exists n: nat :: n < proc'.nextTag && t == Show(n) {
      if t == Show(proc.nextTag) {
        assert proc.nextTag < proc'.nextTag;
      } else {
        assert t in proc.tagged && TagOk(proc.tagged[t]);
        var n: nat :| n < proc.nextTag && t == Show(n);
        assert n < proc'.nextTag && t == Show(n);
      }
    }
  }

  // ---- one request

  /** What any request may do to the tags: issue the next one, or consume one by acknowledging it. */
  ghost predicate TagStep(proc: Proc, proc': Proc, call: Call) {
    || (proc'.nextTag == proc.nextTag && proc'.tagged == proc.tagged)
    || (proc'.nextTag == proc.nextTag + 1 && proc'.tagged.Keys == proc.tagged.Keys + {Show(proc.nextTag)})
    || (&& proc'.nextTag == proc.nextTag
        && call.handler.StandaloneAck? && call.args != []
        && "Tag" in Csv2Dict(call.args[0])
        && proc'.tagged == proc.tagged - {Csv2Dict(call.args[0])["Tag"]})
  }

  lemma RunTags(proc: Proc, resp: Responder, call: Call)
    requires TagInv(proc)
    ensures TagInv(Run(proc, resp, call).proc) && TagStep(proc, Run(proc, resp, call).proc, call)
  {
    if call.handler.StandaloneAck? {
      AckTags(proc, resp, call);
    } else if call.handler.LinkRfc? {
      RfcTags(proc, resp, call);
    } else {
      OtherTags(proc, resp, call);
    }
  }

  lemma OtherTags(proc: Proc, resp: Responder, call: Call)
    requires !call.handler.StandaloneAck? && !call.handler.LinkRfc?
    ensures var proc' := Run(proc, resp, call).proc;
            proc'.nextTag == proc.nextTag && proc'.tagged == proc.tagged
  {
  }

  lemma AckTags(proc: Proc, resp: Responder, call: Call)
    requires TagInv(proc) && call.handler.StandaloneAck?
    ensures var proc' := OnStandaloneAck(proc, resp, call.args).proc;
            TagInv(proc') && TagStep(proc, proc', call)
  {
    var proc' := OnStandaloneAck(proc, resp, call.args).proc;
    assert proc'.nextTag == proc.nextTag;
    forall t | t in proc'.tagged ensures TagOk(proc'.tagged[t]) && exists n: nat :: n < proc'.nextTag && t == Show(n) {
      assert t in proc.tagged && TagOk(proc.tagged[t]);
    }
  }

  lemma RfcTags(proc: Proc, resp: Responder, call: Call)
    requires TagInv(proc) && call.handler.LinkRfc?
    ensures var proc' := OnLinkRfc(proc, resp, call.args).proc;
            TagInv(proc') && TagStep(proc, proc', call)
  {
    if resp.role.Switch? {
      TagGrows(proc, resp);
    }
  }

  lemma TrackedTags(proc: Proc, parts: seq<string>)
    requires |parts| >= 1 && Tracked(proc, parts).Some?
    ensures Tracked(proc, parts).value.nextTag == proc.nextTag && Tracked(proc, parts).value.tagged == proc.tagged
  {
  }

  /** Every request keeps outstanding tags distinct, below the next tag and properly followed up. */
  lemma HandleTags(proc: Proc, resp: Responder, request: string)
    requires TagInv(proc)
    ensures TagInv(Handle(proc, resp, request).proc)
    ensures TagStep(proc, Handle(proc, resp, request).proc, CallOf(request))
  {
    var parts := SplitToken(request);
    if Tracked(proc, parts).Some? {
      TrackedTags(proc, parts);
      RunTags(Tracked(proc, parts).value, resp, CallOf(request));
    }
  }

  /** An acknowledgment of a tag that is not outstanding sends nothing and changes no tag. */
  lemma UnknownAck(proc: Proc, resp: Responder, request: string)
    requires CallOf(request).handler.StandaloneAck?
    requires var args := CallOf(request).args;
             args == [] || "Tag" !in Csv2Dict(args[0]) || Csv2Dict(args[0])["Tag"] !in proc.tagged
    ensures var out := Handle(proc, resp, request);
            && out.reply.None? && out.resp == resp
            && out.proc.tagged == proc.tagged && out.proc.nextTag == proc.nextTag
  {
    var parts := SplitToken(request);
    if Tracked(proc, parts).Some? {
      assert Tracked(proc, parts).value.tagged == proc.tagged;
    }
  }

  // ---- whole runs

  datatype Event = Event(resp: Responder, request: string)

  function RunAll(proc: Proc, events: seq<Event>): Proc
    decreases |events|
  {
    if events == [] then proc else RunAll(Handle(proc, events[0].resp, events[0].request).proc, events[1..])
  }

  lemma {:induction false} TagsOverRuns(proc: Proc, events: seq<Event>)
    requires TagInv(proc)
    ensures TagInv(RunAll(proc, events)) && proc.nextTag <= RunAll(proc, events).nextTag
    decreases |events|
  {
    if events != [] {
      HandleTags(proc, events[0].resp, events[0].request);
      TagsOverRuns(Handle(proc, events[0].resp, events[0].request).proc, events[1..]);
    }
  }

  /** A tag that has been issued and is no longer outstanding never comes back, whatever
      requests arrive: so at most one acknowledgment consumes it. */
  lemma {:induction false} ConsumedForEver(proc: Proc, events: seq<Event>, n: nat)
    requires TagInv(proc) && n < proc.nextTag && Show(n) !in proc.tagged
    ensures Show(n) !in RunAll(proc, events).tagged
    decreases |events|
  {
    if events != [] {
      var proc' := Handle(proc, events[0].resp, events[0].request).proc;
      ConsumedStep(proc, events[0].resp, events[0].request, n);
      ConsumedForEver(proc', events[1..], n);
    }
  }

  lemma ConsumedStep(proc: Proc, resp: Responder, request: string, n: nat)
    requires TagInv(proc) && n < proc.nextTag && Show(n) !in proc.tagged
    ensures var proc' := Handle(proc, resp, request).proc;
            TagInv(proc') && n < proc'.nextTag && Show(n) !in proc'.tagged
  {
    HandleTags(proc, resp, request);
    if Show(n) == Show(proc.nextTag) {
      ShowInjective(n, proc.nextTag);
      assert false;
    }
  }
}
