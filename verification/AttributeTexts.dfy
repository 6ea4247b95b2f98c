/** Which component classes survive the trip from an attribute reply into the server's tables. */
module AttributeTexts {
  import opened Prelude
  import opened Text
  import opened Csv
  import opened Requests
  import opened RequestFacts
  import opened RequestKinds

  /** The driver adds no tracker; to the receiver the text means the same. */
  lemma PlainKind(text: string, tracker: int)
    requires !HasToken(text)
    ensures KindOf(text) == KindOf(Suffixed(text, tracker))
  {
    TrackerRoundTrip(text, tracker);
    SuffixedNumbered(text, tracker);
    assert FindToken(text) == |text|;
  }

  // ---- what can be stored at all

  /** Arguments of a call are words of the request. */
  lemma {:induction false} DispatchArgs(elements: seq<string>, i: nat, entry: string, j: nat)
    requires i <= |elements| && j < |Dispatch(elements, i, entry).args|
    ensures Dispatch(elements, i, entry).args[j] in elements
    decreases |elements| - i
  {
    if i < |elements| {
      var entry' := entry + "_" + Underscored(elements[i]);
      if Lookup(entry').None? {
        DispatchArgs(elements, i + 1, entry', j);
      }
    }
  }

  lemma AttributesCall(call: Call)
    requires KindOfCall(call).Attributes?
    ensures |call.args| == 2 && KindOfCall(call).kv == Csv2Dict(call.args[1])
  {
  }

  /** Whatever text arrives, the attributes it stores were one word: no value holds white space, a
      comma or an equals sign. */
  lemma StoredValues(text: string, key: string)
    requires KindOf(text).Attributes? && key in KindOf(text).kv
    ensures Storable(KindOf(text).kv[key])
  {
    var words, call := Words(SplitToken(text)[0]), CallOf(text);
    AttributesCall(call);
    DispatchArgs(words, 0, "", 1);
    var i :| 0 <= i < |words| && words[i] == call.args[1];
    WordsPieces(SplitToken(text)[0], i);
    ParsedValues(call.args[1]);
    ValueOfWord(KindOf(text).kv[key], call.args[1]);
  }

  lemma ValueOfWord(value: string, word: string)
    requires ValueFrom(value, word) && NoSpace(word)
    ensures Storable(value)
  {
    forall i | 0 <= i < |value| ensures !IsSpace(value[i]) {
      assert value[i] in value;
    }
  }

  /** The characters an attribute can hold. */
  predicate Storable(s: string) { NoSpace(s) && ',' !in s && '=' !in s }

  // ---- what is stored

  /** Equals signs stand behind other characters than the token's. */
  predicate EqualsOk(s: string) { forall j | 0 <= j < |s| && s[j] == '=' :: 0 < j && s[j - 1] != 'T' }

  lemma EqualsJoin(a: string, b: string)
    requires EqualsOk(a) && EqualsOk(b)
    ensures EqualsOk(a + b)
  {
    var s := a + b;
    forall j | 0 <= j < |s| && s[j] == '=' ensures 0 < j && s[j - 1] != 'T' {
      if j >= |a| {
        assert s[j] == b[j - |a|];
      }
    }
  }

  lemma EqualsNoToken(s: string)
    requires EqualsOk(s)
    ensures !HasToken(s)
  {
    forall i | 0 <= i < |s| ensures !TokenAt(s, i) {
      if i + 5 <= |s| {
        assert s[i..i + 5][4] == s[i + 4] && s[i..i + 5][3] == s[i + 3];
        assert TOKEN[4] == '=' && TOKEN[3] == 'T';
      }
    }
  }

  lemma PairEquals(key: string, value: string)
    requires key != "" && key[|key| - 1] != 'T' && '=' !in key && '=' !in value
    ensures EqualsOk(PrintPair(Pair(key, value)))
  {
    var s := PrintPair(Pair(key, value));
    forall j | 0 <= j < |s| && j != |key| ensures s[j] != '=' {
      if j < |key| {
        assert s[j] == key[j] && key[j] in key;
      } else {
        assert s[j] == value[j - |key| - 1] && value[j - |key| - 1] in value;
      }
    }
  }

  lemma AttributeEquals(cClass: string, sid: int, cid: int)
    requires '=' !in cClass
    ensures EqualsOk(PrintCsv(AttributePairs(cClass, sid, cid)))
  {
    ShowToken(sid);
    ShowToken(cid);
    var p, q, r := Pair("C-Class", cClass), Pair("SID0", Show(sid)), Pair("CID0", Show(cid));
    PairEquals("C-Class", cClass);
    PairEquals("SID0", Show(sid));
    PairEquals("CID0", Show(cid));
    ThreePairs(p, q, r);
    EqualsJoin(",", PrintPair(r));
    EqualsJoin(PrintPair(q), "," + PrintPair(r));
    EqualsJoin(",", PrintPair(q) + ("," + PrintPair(r)));
    EqualsJoin(PrintPair(p), "," + (PrintPair(q) + ("," + PrintPair(r))));
  }

  lemma ThreePairs(p: Pair, q: Pair, r: Pair)
    ensures PrintCsv([p, q, r]) == PrintPair(p) + ("," + (PrintPair(q) + ("," + PrintPair(r))))
  {
    assert [p, q, r][1..] == [q, r] && [q, r][1..] == [r];
    assert PrintCsv([q, r]) == PrintPair(q) + "," + PrintPair(r);
    assert PrintCsv([p, q, r]) == PrintPair(p) + "," + PrintCsv([q, r]);
  }

  lemma ReplyHasNoToken(csv: string)
    requires EqualsOk(csv)
    ensures !HasToken("Link" + " " + ("CTL" + " " + ("ACK" + " " + csv)))
  {
    EqualsJoin("ACK" + " ", csv);
    EqualsJoin("CTL" + " ", "ACK" + " " + csv);
    EqualsJoin("Link" + " ", "CTL" + " " + ("ACK" + " " + csv));
    EqualsNoToken("Link" + " " + ("CTL" + " " + ("ACK" + " " + csv)));
  }

  lemma FourWords(t: string, u: string, v: string, w: string)
    requires NoSpace(t) && NoSpace(u) && NoSpace(v) && NoSpace(w) && t != "" && u != "" && v != "" && w != ""
    ensures Words(t + " " + (u + " " + (v + " " + w))) == [t, u] + [v, w]
  {
    WordsCons(t, u + " " + (v + " " + w));
    WordsCons(u, v + " " + w);
    WordsCons(v, w);
    WordsOne(w);
    assert [t] + ([u] + ([v] + [w])) == [t, u] + [v, w];
  }

  lemma ReplyMeans(csv: string)
    requires EqualsOk(csv) && NoSpace(csv) && csv != ""
    ensures KindOf("Link" + " " + ("CTL" + " " + ("ACK" + " " + csv))) == Attributes(Csv2Dict(csv))
  {
    ReplyHasNoToken(csv);
    FourWordPlain("Link", "CTL", "ACK", csv);
    DispatchLink("CTL", ["ACK", csv]);
  }

  lemma FourWordPlain(t: string, u: string, v: string, w: string)
    requires NoSpace(t) && NoSpace(u) && NoSpace(v) && NoSpace(w) && t != "" && u != "" && v != "" && w != ""
    requires !HasToken(t + " " + (u + " " + (v + " " + w)))
    ensures KindOf(t + " " + (u + " " + (v + " " + w))) == KindOfCall(Dispatch([t, u] + [v, w]))
  {
    var text := t + " " + (u + " " + (v + " " + w));
    assert FindToken(text) == |text|;
    FourWords(t, u, v, w);
  }

  lemma {:induction false} CsvNoSpace(pairs: seq<Pair>)
    requires forall i | 0 <= i < |pairs| :: NoSpace(pairs[i].key) && NoSpace(pairs[i].value)
    ensures NoSpace(PrintCsv(pairs))
  {
    if |pairs| > 1 {
      CsvNoSpace(pairs[1..]);
    }
  }

  lemma ReplyStored(cClass: string, sid: int, cid: int)
    requires Storable(cClass)
    ensures KindOf(LinkAckText(cClass, sid, cid)) == Attributes(AttributesOf(cClass, sid, cid))
  {
    var pairs := AttributePairs(cClass, sid, cid);
    ShowToken(sid);
    ShowToken(cid);
    assert NoSpace("C-Class") && NoSpace("SID0") && NoSpace("CID0");
    CsvNoSpace(pairs);
    AttributeEquals(cClass, sid, cid);
    AttributesClean(cClass, sid, cid);
    CsvRoundTrip(pairs);
    ReplyMeans(PrintCsv(pairs));
  }

  lemma AttributesClean(cClass: string, sid: int, cid: int)
    requires Storable(cClass)
    ensures CleanPairs(AttributePairs(cClass, sid, cid)) && PrintCsv(AttributePairs(cClass, sid, cid)) != ""
  {
    ShowToken(sid);
    ShowToken(cid);
    TokenClean(Show(sid));
    TokenClean(Show(cid));
    assert Clean("C-Class") && Clean("SID0") && Clean("CID0");
    assert Clean(cClass);
  }

  lemma ClassOf(cClass: string, sid: int, cid: int)
    ensures var kv := AttributesOf(cClass, sid, cid); "C-Class" in kv && kv["C-Class"] == cClass
  {
    DistinctKeysKept(map[], AttributePairs(cClass, sid, cid), 0);
  }

  lemma ReplyNotStored(text: string, cClass: string, sid: int, cid: int)
    requires KindOf(text) == Attributes(AttributesOf(cClass, sid, cid))
    ensures Storable(cClass)
  {
    ClassOf(cClass, sid, cid);
    StoredValues(text, "C-Class");
  }

  /** The exact condition on the class, for the driver, which sends the bare text, and for a Python
      process, which appends its tracker: the server stores what was answered if and only if the
      class holds no white space, no comma and no equals sign. */
  lemma StoredIff(cClass: string, sid: int, cid: int, tracker: int)
    ensures KindOf(LinkAckText(cClass, sid, cid)) == Attributes(AttributesOf(cClass, sid, cid)) <==> Storable(cClass)
    ensures KindOf(Suffixed(LinkAckText(cClass, sid, cid), tracker)) == Attributes(AttributesOf(cClass, sid, cid)) <==> Storable(cClass)
  {
    var text, suffixed := LinkAckText(cClass, sid, cid), Suffixed(LinkAckText(cClass, sid, cid), tracker);
    if Storable(cClass) {
      ReplyStored(cClass, sid, cid);
      AttributeEquals(cClass, sid, cid);
      ReplyHasNoToken(PrintCsv(AttributePairs(cClass, sid, cid)));
      PlainKind(text, tracker);
    }
    if KindOf(text) == Attributes(AttributesOf(cClass, sid, cid)) {
      ReplyNotStored(text, cClass, sid, cid);
    }
    if KindOf(suffixed) == Attributes(AttributesOf(cClass, sid, cid)) {
      ReplyNotStored(suffixed, cClass, sid, cid);
    }
  }
}
