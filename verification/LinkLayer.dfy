/** Link-level requests as the driver handles them in its interrupt handler: which texts it takes,
    what it does and what it answers; and that server and driver understand each other. */
module LinkLayer {
  import opened Prelude
  import opened Text
  import opened Csv
  import opened Requests
  import opened RequestFacts
  import opened RequestKinds
  import opened AttributeTexts

  /** The part of the Gen-Z core structure that link requests touch; numbers are 32-bit. */
  datatype Core = Core(cClass: string, sid0: int, cid0: int, pfmSid: int, pfmCid: int, pmcid: int)

  datatype LinkReply = LinkReply(core: Core, text: string)

  function Chars(bytes: seq<Byte>): string { seq(|bytes|, i requires 0 <= i < |bytes| => bytes[i] as char) }

  function Bytes(text: string): seq<Byte> { seq(|text|, i requires 0 <= i < |text| => text[i] as int % 256) }

  /** A buffer read as a C string. */
  function CString(buf: string): string { buf[..IndexOf(buf, '\0')] }

  // ---- sscanf

  /** What is left of 32 bits, read as a signed number. */
  function Wrap32(n: int): int { (n + 0x8000_0000) % 0x1_0000_0000 - 0x8000_0000 }

  predicate Int32(n: int) { -0x8000_0000 <= n < 0x8000_0000 }

  predicate KernelSpace(c: char) { c == ' ' || '\t' <= c <= '\r' || c == '\U{A0}' }

  function SkipSpaces(s: string): string { if s != "" && KernelSpace(s[0]) then SkipSpaces(s[1..]) else s }

  /** How many digits a text starts with. */
  function DigitCount(s: string): (k: nat)
    ensures k <= |s| && Digits(s[..k]) && (k < |s| ==> !IsDigit(s[k]))
  {
    if s == "" || !IsDigit(s[0]) then 0
    else
      var k := 1 + DigitCount(s[1..]);
      assert s[..k] == [s[0]] + s[1..][..k - 1];
      k
  }

  datatype Scanned = Scanned(n: int, rest: string)

  /** %d: white space, perhaps a minus sign, and at least one digit. */
  function ScanInt(s: string): Option<Scanned> {
    var t := SkipSpaces(s);
    if t != "" && t[0] == '-' then ScanDigits(t[1..], true) else ScanDigits(t, false)
  }

  function ScanDigits(s: string, negative: bool): Option<Scanned> {
    var k := DigitCount(s);
    if k == 0 then None else Some(Scanned(Wrap32(Signed(ReadNat(s[..k]), negative)), s[k..]))
  }

  function Signed(n: int, negative: bool): int { if negative then -n else n }

  function Expect(s: string, literal: string): Option<string> {
    if literal <= s then Some(s[|literal|..]) else None
  }

  /** A format of "key=%d" fields separated by commas; all of them must be found. */
  function ScanKeys(s: string, keys: seq<string>): Option<seq<int>>
    decreases |keys|
  {
    if keys == [] then Some([])
    else
      match Expect(s, keys[0] + "=")
      case None => None
      case Some(t) =>
        match ScanInt(t)
        case None => None
        case Some(Scanned(n, rest)) =>
          if |keys| == 1 then Some([n])
          else
            match Expect(rest, ",")
            case None => None
            case Some(more) =>
              match ScanKeys(more, keys[1..])
              case None => None
              case Some(ns) => Some([n] + ns)
  }

  const CONFIGURATION_KEYS := ["PFMSID", "PFMCID", "SID", "CID", "Tag"]

  /** sscanf with the CTL-Write format; a blank in a format matches any white space. */
  function ScanConfiguration(s: string): Option<seq<int>> {
    match Expect(s, "CTL-Write")
    case None => None
    case Some(t) =>
      match Expect(SkipSpaces(t), "Space=0,")
      case None => None
      case Some(u) => ScanKeys(u, CONFIGURATION_KEYS)
  }

  // ---- famez_link_request

  /** A request that is dealt with here and what is answered; nothing for ordinary mail. */
  function LinkRequest(buflen: nat, buf: string, core: Core): Option<LinkReply> {
    if buflen == 4 && "ping" <= buf then Some(LinkReply(core, "pong"))
    else if PEER_ATTRIBUTE <= buf then Some(LinkReply(core, LinkAckText(core.cClass, core.sid0, core.cid0)))
    else
      match ScanConfiguration(CString(buf))
      case None => None
      case Some(ns) =>
        if |ns| != 5 then None
        else Some(LinkReply(core.(pfmSid := ns[0], pfmCid := ns[1], sid0 := ns[2], cid0 := ns[3], pmcid := -1),
                            StandaloneAckText(Show(ns[4]))))
  }

  // ---- reading back what was printed

  lemma {:induction false} DigitCountIs(digits: string, rest: string)
    requires Digits(digits) && (rest == "" || !IsDigit(rest[0]))
    ensures DigitCount(digits + rest) == |digits|
  {
    if digits != "" {
      assert (digits + rest)[1..] == digits[1..] + rest;
      DigitCountIs(digits[1..], rest);
    } else {
      assert digits + rest == rest;
    }
  }

  lemma ScanNat(n: nat, rest: string, negative: bool)
    requires rest == "" || !IsDigit(rest[0])
    ensures ShowNat(n) != "" && IsDigit(ShowNat(n)[0])
    ensures ScanDigits(ShowNat(n) + rest, negative) == Some(Scanned(Wrap32(Signed(n, negative)), rest))
  {
    DigitCountIs(ShowNat(n), rest);
    ReadShowNat(n);
    var s, k := ShowNat(n) + rest, |ShowNat(n)|;
    assert s[..k] == ShowNat(n) && s[k..] == rest;
  }

  /** %d reads back what %d has printed. */
  lemma ScanShow(n: int, rest: string)
    requires Int32(n) && (rest == "" || !IsDigit(rest[0]))
    ensures ScanInt(Show(n) + rest) == Some(Scanned(n, rest))
  {
    var digits := ShowNat(if n < 0 then -n else n);
    ScanNat(if n < 0 then -n else n, rest, n < 0);
    if n < 0 {
      ScanMinus(digits, rest);
    } else {
      ScanPlus(digits, rest);
    }
    WrapIs(n);
  }

  lemma WrapIs(n: int)
    requires Int32(n)
    ensures Wrap32(n) == n
  {
  }

  lemma ScanPlus(digits: string, rest: string)
    requires digits != "" && IsDigit(digits[0])
    ensures ScanInt(digits + rest) == ScanDigits(digits + rest, false)
  {
    assert (digits + rest)[0] == digits[0];
    NoSkip(digits + rest);
  }

  lemma ScanMinus(digits: string, rest: string)
    ensures ScanInt("-" + digits + rest) == ScanDigits(digits + rest, true)
  {
    var s := "-" + digits + rest;
    assert s[0] == '-' && s[1..] == digits + rest;
    NoSkip(s);
  }

  lemma NoSkip(s: string)
    requires s != "" && !KernelSpace(s[0])
    ensures SkipSpaces(s) == s
  {
  }

  predicate Prints(pairs: seq<Pair>, keys: seq<string>, values: seq<int>) {
    && |pairs| == |keys| == |values|
    && forall i | 0 <= i < |pairs| :: pairs[i].key == keys[i] && Int32(values[i]) && pairs[i].value == Show(values[i])
  }

  lemma ExpectConcat(literal: string, rest: string)
    ensures Expect(literal + rest, literal) == Some(rest)
  {
    assert (literal + rest)[..|literal|] == literal;
  }

  lemma ScanPair(p: Pair, n: int, rest: string)
    requires Int32(n) && p.value == Show(n) && (rest == "" || !IsDigit(rest[0]))
    ensures Expect(PrintPair(p) + rest, p.key + "=") == Some(Show(n) + rest)
    ensures ScanInt(Show(n) + rest) == Some(Scanned(n, rest))
  {
    assert PrintPair(p) + rest == p.key + "=" + (Show(n) + rest);
    ExpectConcat(p.key + "=", Show(n) + rest);
    ScanShow(n, rest);
  }

  /** The format finds the numbers of a printed list, whatever follows it. */
  lemma {:induction false} ScanPrinted(pairs: seq<Pair>, keys: seq<string>, values: seq<int>, tail: string)
    requires Prints(pairs, keys, values) && pairs != [] && (tail == "" || !IsDigit(tail[0]))
    ensures ScanKeys(PrintCsv(pairs) + tail, keys) == Some(values)
    decreases |pairs|
  {
    var p := pairs[0];
    if |pairs| == 1 {
      ScanPair(p, values[0], tail);
      assert values == [values[0]];
    } else {
      ScanPrinted(pairs[1..], keys[1..], values[1..], tail);
      PrintMore(pairs, tail);
      ScanMore(p, keys, values, PrintCsv(pairs[1..]) + tail);
    }
  }

  lemma PrintMore(pairs: seq<Pair>, tail: string)
    requires |pairs| > 1
    ensures PrintCsv(pairs) + tail == PrintPair(pairs[0]) + ("," + (PrintCsv(pairs[1..]) + tail))
  {
    Assoc(PrintPair(pairs[0]) + ",", PrintCsv(pairs[1..]), tail);
    Assoc(PrintPair(pairs[0]), ",", PrintCsv(pairs[1..]) + tail);
  }

  lemma ScanMore(p: Pair, keys: seq<string>, values: seq<int>, more: string)
    requires |keys| == |values| > 1 && p.key == keys[0] && Int32(values[0]) && p.value == Show(values[0])
    requires ScanKeys(more, keys[1..]) == Some(values[1..])
    ensures ScanKeys(PrintPair(p) + ("," + more), keys) == Some(values)
  {
    ScanPair(p, values[0], "," + more);
    ExpectConcat(",", more);
    assert values == [values[0]] + values[1..];
  }

  // ---- the driver understands the server

  /** The server's question for attributes is recognised whatever the tracker, and answered. */
  lemma AskRecognised(core: Core, buflen: nat, buf: string, tracker: int)
    requires Suffixed(PEER_ATTRIBUTE, tracker) <= buf
    ensures LinkRequest(buflen, buf, core) == Some(LinkReply(core, LinkAckText(core.cClass, core.sid0, core.cid0)))
  {
    PrefixOfSuffixed(PEER_ATTRIBUTE, tracker, buf);
    assert buf[0] == PEER_ATTRIBUTE[0] == 'L';
  }

  lemma PrefixOfSuffixed(text: string, tracker: int, buf: string)
    requires Suffixed(text, tracker) <= buf
    ensures text <= buf
  {
    assert Suffixed(text, tracker)[..|text|] == text;
    assert buf[..|text|] == Suffixed(text, tracker)[..|text|];
  }

  function FieldPairs(pfmSid: int, pfmCid: int, sid: int, cid: int, tag: nat): seq<Pair> {
    [Pair("PFMSID", Show(pfmSid)), Pair("PFMCID", Show(pfmCid)), Pair("SID", Show(sid)), Pair("CID", Show(cid)), Pair("Tag", Show(tag))]
  }

  lemma ConfigurationLayout(pfmSid: int, pfmCid: int, sid: int, cid: int, tag: nat, tail: string)
    ensures ConfigurationText(pfmSid, pfmCid, sid, cid) + ",Tag=" + Show(tag) + tail
            == "CTL-Write" + (" " + ("Space=0," + (PrintCsv(FieldPairs(pfmSid, pfmCid, sid, cid, tag)) + tail)))
  {
    var pairs, fields := TaggedPairs(pfmSid, pfmCid, sid, cid, Show(tag)), FieldPairs(pfmSid, pfmCid, sid, cid, tag);
    TaggedText(pfmSid, pfmCid, sid, cid, Show(tag));
    assert pairs[1..] == fields && pairs[0] == Pair("Space", "0");
    assert PrintCsv(pairs) == PrintPair(pairs[0]) + "," + PrintCsv(fields);
    assert PrintPair(pairs[0]) + "," == "Space=0,";
  }

  lemma ScanLayout(body: string)
    requires body != ""
    ensures ScanConfiguration("CTL-Write" + (" " + ("Space=0," + body))) == ScanKeys(body, CONFIGURATION_KEYS)
  {
    ExpectConcat("CTL-Write", " " + ("Space=0," + body));
    var t := " " + ("Space=0," + body);
    assert t[1..] == "Space=0," + body;
    assert SkipSpaces(t[1..]) == t[1..];
    ExpectConcat("Space=0,", body);
  }

  /** The server's configuration message is read number by number, for all 32-bit values. */
  lemma ConfigureScanned(pfmSid: int, pfmCid: int, sid: int, cid: int, tag: nat, tracker: int)
    requires Int32(pfmSid) && Int32(pfmCid) && Int32(sid) && Int32(cid) && Int32(tag)
    ensures ScanConfiguration(Suffixed(ConfigurationText(pfmSid, pfmCid, sid, cid) + ",Tag=" + Show(tag), tracker))
            == Some([pfmSid, pfmCid, sid, cid, tag])
  {
    var tail, fields := TOKEN + Show(tracker), FieldPairs(pfmSid, pfmCid, sid, cid, tag);
    var text := ConfigurationText(pfmSid, pfmCid, sid, cid) + ",Tag=" + Show(tag);
    Assoc(text, TOKEN, Show(tracker));
    ConfigurationLayout(pfmSid, pfmCid, sid, cid, tag, tail);
    assert tail[0] == '!';
    ScanPrinted(fields, CONFIGURATION_KEYS, [pfmSid, pfmCid, sid, cid, tag], tail);
    ScanLayout(PrintCsv(fields) + tail);
  }

  lemma ConfigureRecognised(core: Core, buflen: nat, buf: string, pfmSid: int, pfmCid: int, sid: int, cid: int, tag: nat, tracker: int)
    requires Int32(pfmSid) && Int32(pfmCid) && Int32(sid) && Int32(cid) && Int32(tag)
    requires CString(buf) == Suffixed(ConfigurationText(pfmSid, pfmCid, sid, cid) + ",Tag=" + Show(tag), tracker)
    ensures LinkRequest(buflen, buf, core)
            == Some(LinkReply(core.(pfmSid := pfmSid, pfmCid := pfmCid, sid0 := sid, cid0 := cid, pmcid := -1), StandaloneAckText(Show(tag))))
  {
    ConfigureScanned(pfmSid, pfmCid, sid, cid, tag, tracker);
    StartsWithC(CString(buf), pfmSid, pfmCid, sid, cid, tag, tracker);
    assert buf[0] == CString(buf)[0] == 'C';
    assert "ping"[0] == 'p' && PEER_ATTRIBUTE[0] == 'L';
  }

  lemma StartsWithC(s: string, pfmSid: int, pfmCid: int, sid: int, cid: int, tag: nat, tracker: int)
    requires s == Suffixed(ConfigurationText(pfmSid, pfmCid, sid, cid) + ",Tag=" + Show(tag), tracker)
    ensures s != "" && s[0] == 'C'
  {
    assert ConfigurationText(pfmSid, pfmCid, sid, cid)[0] == 'C';
  }

  // ---- the server understands the driver

  lemma DriverAckMeans(tag: int)
    ensures KindOf(StandaloneAckText(Show(tag))) == Acked(Show(tag))
  {
    ShowToken(tag);
    AckHasNoToken(Show(tag));
    PlainKind(StandaloneAckText(Show(tag)), 0);
    AckedKind(Show(tag), 0);
  }

  lemma AckHasNoToken(tag: string)
    requires Token(tag)
    ensures !HasToken(StandaloneAckText(tag))
  {
    var csv := PrintCsv([Pair("Tag", tag), Pair("Reason", "OK")]);
    CsvWord([Pair("Tag", tag), Pair("Reason", "OK")]);
    ThreeHasNoToken("Standalone", "Acknowledgment", csv);
  }

  lemma ThreeHasNoToken(u: string, v: string, w: string)
    requires '!' !in u && '!' !in v && '!' !in w
    ensures !HasToken(u + " " + (v + " " + w))
  {
    NoBangNoToken(u + " " + (v + " " + w));
  }

  const STARTING_CLASS := "FAME-Z Adapter"

  /** The class an adapter starts with has two words: the server ignores the answer. */
  lemma StartingClassIgnored(sid: int, cid: int)
    ensures KindOf(LinkAckText(STARTING_CLASS, sid, cid)) == Other && !Storable(STARTING_CLASS)
  {
    assert STARTING_CLASS == "FAME-Z" + " " + "Adapter" && STARTING_CLASS[6] == ' ';
    TwoWordClassIgnored("FAME-Z", "Adapter", sid, cid);
  }

  lemma TwoWordClassIgnored(first: string, second: string, sid: int, cid: int)
    requires Token(first) && Token(second) && first != "" && second != ""
    ensures KindOf(LinkAckText(first + " " + second, sid, cid)) == Other
  {
    var csv := PrintCsv(AttributePairs(first + " " + second, sid, cid));
    var rest := second + "," + PrintCsv(AttributePairs("", sid, cid)[1..]);
    SpacedCsv(first, second, sid, cid);
    RestIsWord(second, sid, cid);
    var a := "C-Class=" + first;
    assert Word(a);
    ThreeHasNoToken("Link", "CTL", "ACK" + " " + (a + " " + rest));
    FiveWords("Link", "CTL", "ACK", a, rest);
    DispatchLink("CTL", ["ACK", a, rest]);
    assert FindToken(LinkAckText(first + " " + second, sid, cid)) == |LinkAckText(first + " " + second, sid, cid)|;
  }

  lemma SpacedCsv(first: string, second: string, sid: int, cid: int)
    ensures PrintCsv(AttributePairs(first + " " + second, sid, cid))
            == "C-Class=" + first + " " + (second + "," + PrintCsv(AttributePairs("", sid, cid)[1..]))
  {
    var pairs := AttributePairs(first + " " + second, sid, cid);
    assert pairs[1..] == AttributePairs("", sid, cid)[1..];
    assert PrintPair(pairs[0]) == "C-Class=" + (first + " " + second);
  }

  lemma RestIsWord(second: string, sid: int, cid: int)
    requires Token(second) && second != ""
    ensures Word(second + "," + PrintCsv(AttributePairs("", sid, cid)[1..]))
  {
    AttributeTokens("", sid, cid);
    CsvWord(AttributePairs("", sid, cid)[1..]);
    JoinWords(second, PrintCsv(AttributePairs("", sid, cid)[1..]));
  }

  lemma FiveWords(t: string, u: string, v: string, w: string, x: string)
    requires Word(t) && Word(u) && Word(v) && Word(w) && Word(x)
    ensures Words(t + " " + (u + " " + (v + " " + (w + " " + x)))) == [t, u] + [v, w, x]
  {
    WordsCons(t, u + " " + (v + " " + (w + " " + x)));
    WordsCons(u, v + " " + (w + " " + x));
    WordsCons(v, w + " " + x);
    WordsCons(w, x);
    WordsOne(x);
    assert [t] + ([u] + ([v] + ([w] + [x]))) == [t, u] + [v, w, x];
  }

  // ---- ping

  /** A pong is the answer to a bare "ping" and to nothing else.  With the tracker that every Python
      process appends, a ping is ordinary mail. */
  lemma PongIffBarePing(core: Core, buflen: nat, buf: string, tracker: int)
    ensures (exists core' :: LinkRequest(buflen, buf, core) == Some(LinkReply(core', "pong"))) <==> buflen == 4 && "ping" <= buf
    ensures Suffixed("ping", tracker) <= buf && buflen == |Suffixed("ping", tracker)| ==> LinkRequest(buflen, buf, core) == None
  {
    assert LinkAckText(core.cClass, core.sid0, core.cid0)[0] == 'L' && "pong"[0] == 'p';
    match ScanConfiguration(CString(buf)) {
      case None =>
      case Some(ns) =>
        if |ns| == 5 {
          assert StandaloneAckText(Show(ns[4]))[0] == 'S';
        }
    }
    if buflen == 4 && "ping" <= buf {
      assert LinkRequest(buflen, buf, core) == Some(LinkReply(core, "pong"));
    }
    if Suffixed("ping", tracker) <= buf && buflen == |Suffixed("ping", tracker)| {
      PrefixOfSuffixed("ping", tracker, buf);
      assert buf[0] == 'p';
      assert CString(buf) == "" || CString(buf)[0] == 'p';
      assert "CTL-Write"[0] == 'C' && PEER_ATTRIBUTE[0] == 'L';
    }
  }

  /** A message that starts with none of the three letters of the driver's texts is ordinary mail. */
  lemma OrdinaryMail(core: Core, buflen: nat, buf: string)
    requires buf != "" && buf[0] !in {'p', 'L', 'C'}
    ensures LinkRequest(buflen, buf, core) == None
  {
    assert CString(buf) == "" || CString(buf)[0] == buf[0];
    assert "ping"[0] == 'p' && PEER_ATTRIBUTE[0] == 'L' && "CTL-Write"[0] == 'C';
  }

  // ---- the rule, on messages

  /** What a message must be for the driver to take it. */
  predicate Recognised(msg: seq<Byte>) {
    || (|msg| == 4 && "ping" <= Chars(msg))
    || PEER_ATTRIBUTE <= Chars(msg)
    || ScanConfiguration(CString(Chars(msg))).Some?
  }

  lemma {:induction false} ScanCount(s: string, keys: seq<string>)
    ensures ScanKeys(s, keys).Some? ==> |ScanKeys(s, keys).value| == |keys|
    decreases |keys|
  {
    if keys != [] && Expect(s, keys[0] + "=").Some? && ScanInt(Expect(s, keys[0] + "=").value).Some? {
      var rest := ScanInt(Expect(s, keys[0] + "=").value).value.rest;
      if |keys| > 1 && Expect(rest, ",").Some? {
        ScanCount(Expect(rest, ",").value, keys[1..]);
      }
    }
  }

  /** In a terminated buffer the bytes behind the message play no part. */
  lemma RuleOnMessage(buf: seq<Byte>, n: nat, core: Core)
    requires n < |buf| && buf[n] == 0
    ensures LinkRequest(n, Chars(buf), core).Some? <==> Recognised(buf[..n])
  {
    var whole, msg := Chars(buf), Chars(buf[..n]);
    assert msg == whole[..n] && whole[n] == '\0';
    CStringOfMessage(whole, n);
    LongerPrefix("ping", whole, n);
    LongerPrefix(PEER_ATTRIBUTE, whole, n);
    ConfigurationCount(CString(whole));
  }

  lemma ConfigurationCount(s: string)
    ensures ScanConfiguration(s).Some? ==> |ScanConfiguration(s).value| == 5
  {
    if ScanConfiguration(s).Some? {
      ScanCount(Expect(SkipSpaces(Expect(s, "CTL-Write").value), "Space=0,").value, CONFIGURATION_KEYS);
    }
  }

  lemma CStringOfMessage(s: string, n: nat)
    requires n < |s| && s[n] == '\0'
    ensures CString(s) == CString(s[..n])
  {
    var k, j := IndexOf(s, '\0'), IndexOf(s[..n], '\0');
    assert k <= n;
    if k < n {
      assert s[..n][k] == '\0';
    }
    assert j < n ==> s[..n][..j] == s[..j];
    assert k == j;
  }

  /** A literal without NULs is a prefix of a terminated buffer only within its string. */
  lemma LongerPrefix(literal: string, s: string, n: nat)
    requires n < |s| && s[n] == '\0' && '\0' !in literal
    ensures literal <= s <==> literal <= s[..n]
  {
    if |literal| > n {
      assert literal[n] in literal;
    }
    if literal <= s {
      assert s[..n][..|literal|] == s[..|literal|];
    }
    if literal <= s[..n] {
      assert s[..|literal|] == s[..n][..|literal|];
    }
  }
}
