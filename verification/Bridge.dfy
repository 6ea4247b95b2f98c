/** The bridge device: write() of "destination:message" to the fabric. */
module Bridge {
  import opened Prelude
  import opened Driver
  import HandshakeSends
  import LinkLayer

  // ---- destinations

  /** The words that stand for the server. */
  predicate Keyword(text: seq<Byte>) {
    || text == LinkLayer.Bytes("server") || text == LinkLayer.Bytes("switch")
    || text == LinkLayer.Bytes("link") || text == LinkLayer.Bytes("interface")
  }

  /** The first comma. */
  predicate CommaAt(text: seq<Byte>, j: nat) { j < |text| && text[j] == 44 && forall i | 0 <= i < j :: text[i] != 44 }

  lemma KeywordsSpelled()
    ensures LinkLayer.Bytes("server") == SERVER && LinkLayer.Bytes("switch") == SWITCH
    ensures LinkLayer.Bytes("link") == LINK && LinkLayer.Bytes("interface") == INTERFACE
  {
  }

  lemma FirstComma(text: seq<Byte>, j: nat)
    requires 0 !in text && CommaAt(text, j)
    ensures StrChr(text, COMMA) == Some(j)
  {
    assert forall i | 0 <= i < |text| :: text[i] in text;
  }

  lemma NoComma(text: seq<Byte>)
    requires 44 !in text
    ensures StrChr(text, COMMA) == None
  {
  }

  /** What a destination means: a keyword is the server; before a comma stands the SID, behind it the
      CID; anything else is a peer id. */
  lemma TargetLaws(text: seq<Byte>, serverId: nat, toInt: seq<Byte> -> Parsed)
    requires 0 !in text
    ensures Keyword(text) ==> TargetOf(text, serverId, toInt) == Target(serverId, -42)
    ensures forall j: nat | CommaAt(text, j) ::
              TargetOf(text, serverId, toInt)
              == match (toInt(text[..j]), toInt(text[j + 1..]))
                 case (Bad(err), _) => BadTarget(err)
                 case (Number(_), Bad(err)) => BadTarget(err)
                 case (Number(sid), Number(cid)) => Target(cid, sid)
    ensures !Keyword(text) && 44 !in text ==>
              TargetOf(text, serverId, toInt)
              == match toInt(text) case Bad(err) => BadTarget(err) case Number(cid) => Target(cid, -42)
  {
    KeywordsSpelled();
    forall j: nat | CommaAt(text, j) ensures StrChr(text, COMMA) == Some(j) && !Keyword(text) {
      FirstComma(text, j);
    }
    if 44 !in text {
      NoComma(text);
    }
  }

  class Bridge {
    const adapter: Adapter
    const wbuf: array<Byte>
    var held: bool // the wbuf mutex

    constructor (a: Adapter)
      ensures adapter == a && fresh(wbuf) && wbuf.Length == a.maxBuflen && !held
    {
      adapter := a;
      wbuf := new Byte[a.maxBuflen](_ => 0);
      held := false;
    }

    predicate Wired()
    {
      && adapter.Wired() && wbuf.Length == adapter.maxBuflen >= 1
      && forall i | 0 <= i < |adapter.slots| :: adapter.slots[i].buf != wbuf
    }

    /** What a well-formed write to peer `p` comes to. */
    twostate predicate Wrote(ret: int, p: int, input: seq<Byte>, body: seq<Byte>, freed: bool)
      requires Wired()
      reads this, adapter, adapter.MySlot(), adapter.MySlot().buf
    {
      if p < 1 || p > adapter.globals.serverId then ret == -57
      else if body == [] then ret == -61
      else if old(adapter.MySlot().buflen) == 0 || freed then ret == |input| && adapter.Reached(p, body)
      else ret == -110
    }

    /** The same by the target that stands for the peer. */
    twostate predicate WroteTo(ret: int, target: Target, input: seq<Byte>, body: seq<Byte>, freed: bool)
      requires Wired()
      reads this, adapter, adapter.MySlot(), adapter.MySlot().buf
    {
      match target
      case BadTarget(err) => ret == err
      case Target(cid, sid) =>
        && (sid != 27 && sid != -42 ==> ret == -101)
        && forall p | Addressed(cid, sid, p) :: Wrote(ret, p, input, body, freed)
    }

    /** famez_bridge_write.  `fault` is the outcome of copy_from_user (0 is success), `toInt`
        stands for kstrtoint and `cleared[k]` for what responders do during the k-th attempt.
        The text before the first colon says who the rest is for; every error is given by its
        number. */
    method Write(input: seq<Byte>, fault: int, toInt: seq<Byte> -> Parsed, cleared: seq<seq<bool>>)
      returns (ret: int, attempts: nat)
      requires Wired() && !held && 3 <= |cleared| && adapter.globals.serverId < 0x1_0000
      modifies this`held, wbuf, adapter`rung, adapter.MySlot(), adapter.MySlot().buf
      ensures !held && attempts <= 3
      ensures ret >= 0 ==> ret == |input|
      ensures ret >= 0 <==> adapter.rung != old(adapter.rung)
      ensures ret < 0 ==> adapter.MySlot().View() == old(adapter.MySlot().View())
      ensures |input| >= adapter.maxBuflen - 1 ==> ret == -7 && attempts == 0
      ensures |input| < adapter.maxBuflen - 1 && fault != 0 ==> ret == (if fault > 0 then -14 else fault) && attempts == 0
      ensures |input| < adapter.maxBuflen - 1 && fault == 0 && StrChr(input, 58).None? ==> ret == -74 && attempts == 0
      ensures |input| < adapter.maxBuflen - 1 && fault == 0 && StrChr(input, 58).Some? ==>
                var k := StrChr(input, 58).value;
                var text, body, freed := input[..k], input[k + 1..], exists j | 0 <= j < 3 :: true in cleared[j];
                && (Keyword(text) ==> Wrote(ret, adapter.globals.serverId, input, body, freed))
                && (forall j: nat | CommaAt(text, j) ::
                      match (toInt(text[..j]), toInt(text[j + 1..]))
                      case (Bad(err), _) => ret == err
                      case (Number(_), Bad(err)) => ret == err
                      case (Number(sid), Number(cid)) =>
                        && (sid != 27 && sid != -42 ==> ret == -101)
                        && forall p | Addressed(cid, sid, p) :: Wrote(ret, p, input, body, freed))
                && (!Keyword(text) && 44 !in text ==>
                      match toInt(text)
                      case Bad(err) => ret == err
                      case Number(cid) => -0x8000_0000 <= cid < 0x8000_0000 ==> Wrote(ret, cid, input, body, freed))
    {
      if StrChr(input, 58).Some? {
        var k := StrChr(input, 58).value;
        TargetLaws(input[..k], adapter.globals.serverId, toInt);
      }
      ret, attempts := Transfer(input, fault, toInt, cleared);
    }

    /** The whole outcome, decided by the input: too long, unreadable, no colon, bad address,
        refused by the send itself, timed out after three attempts, or accepted. */
    method Transfer(input: seq<Byte>, fault: int, toInt: seq<Byte> -> Parsed, cleared: seq<seq<bool>>)
      returns (ret: int, attempts: nat)
      requires Wired() && !held && 3 <= |cleared|
      modifies this`held, wbuf, adapter`rung, adapter.MySlot(), adapter.MySlot().buf
      ensures !held
      ensures attempts <= 3
      ensures ret >= 0 ==> ret == |input|
      ensures ret >= 0 <==> adapter.rung != old(adapter.rung)
      ensures attempts == 0 ==> adapter.MySlot().View() == old(adapter.MySlot().View()) && adapter.rung == old(adapter.rung)
      ensures |input| >= adapter.maxBuflen - 1 ==> ret == -E2BIG && attempts == 0
      ensures |input| < adapter.maxBuflen - 1 && fault != 0 ==> ret == (if fault > 0 then -EFAULT else fault) && attempts == 0
      ensures |input| < adapter.maxBuflen - 1 && fault == 0 && StrChr(input, COLON).None? ==> ret == -EBADMSG && attempts == 0
      ensures |input| < adapter.maxBuflen - 1 && fault == 0 && StrChr(input, COLON).Some? ==>
                var k := StrChr(input, COLON).value;
                match TargetOf(input[..k], adapter.globals.serverId, toInt)
                case BadTarget(err) => ret == err && attempts == 0
                case Target(cid, sid) =>
                  var err := SendError(adapter.globals, adapter.maxBuflen, cid, sid, |input| - k - 1);
                  var slot := adapter.MySlot();
                  if err != 0 then
                    ret == err && err != -E2BIG && attempts == 1
                    && slot.View() == old(slot.View()) && adapter.rung == old(adapter.rung)
                  else if old(slot.buflen) != 0 && (forall j | 0 <= j < 3 :: true !in cleared[j]) then
                    ret == -ETIMEDOUT && attempts == 3 && slot.View() == old(slot.View()) && adapter.rung == old(adapter.rung)
                  else
                    && ret == |input| && 1 <= attempts
                    && |input| - k - 1 < |old(slot.View()).buf|
                    && slot.View() == HandshakeSends.Published(old(slot.View()), Peer(cid, sid), input[k + 1..], 0)
                    && adapter.rung == old(adapter.rung) + [Pack(Peer(cid, sid), adapter.myId)]
      ensures |input| < adapter.maxBuflen - 1 && fault == 0 && StrChr(input, COLON).Some? && adapter.globals.serverId < 0x1_0000 ==>
                var k := StrChr(input, COLON).value;
                WroteTo(ret, TargetOf(input[..k], adapter.globals.serverId, toInt), input, input[k + 1..],
                        exists j | 0 <= j < 3 :: true in cleared[j])
    {
      attempts := 0;
      if |input| >= adapter.maxBuflen - 1 {
        return -E2BIG, 0;
      }
      held := true;
      if fault != 0 {
        held := false;
        return if fault > 0 then -EFAULT else fault, 0;
      }
      var colon, address, body := SplitAtColon(input);
      if colon.None? {
        held := false;
        return -EBADMSG, 0;
      }
      ret, attempts := SendTo(TargetOf(address, adapter.globals.serverId, toInt), input, body, cleared);
      held := false;
    }

    /** The end of a write, once its destination is known. */
    method SendTo(target: Target, input: seq<Byte>, body: seq<Byte>, cleared: seq<seq<bool>>)
      returns (ret: int, attempts: nat)
      requires Wired() && 3 <= |cleared| && |body| < |input| < adapter.maxBuflen - 1
      modifies adapter`rung, adapter.MySlot(), adapter.MySlot().buf
      ensures attempts <= 3
      ensures attempts == 0 ==> adapter.MySlot().View() == old(adapter.MySlot().View()) && adapter.rung == old(adapter.rung)
      ensures match target
              case BadTarget(err) => ret == err && attempts == 0
              case Target(cid, sid) =>
                var err := SendError(adapter.globals, adapter.maxBuflen, cid, sid, |body|);
                var slot := adapter.MySlot();
                if err != 0 then
                  ret == err && err != -E2BIG && attempts == 1
                  && slot.View() == old(slot.View()) && adapter.rung == old(adapter.rung)
                else if old(slot.buflen) != 0 && (forall j | 0 <= j < 3 :: true !in cleared[j]) then
                  ret == -ETIMEDOUT && attempts == 3 && slot.View() == old(slot.View()) && adapter.rung == old(adapter.rung)
                else
                  && ret == |input| && 1 <= attempts
                  && |body| < |old(slot.View()).buf|
                  && slot.View() == HandshakeSends.Published(old(slot.View()), Peer(cid, sid), body, 0)
                  && adapter.rung == old(adapter.rung) + [Pack(Peer(cid, sid), adapter.myId)]
      ensures adapter.globals.serverId < 0x1_0000 ==>
                WroteTo(ret, target, input, body, exists j | 0 <= j < 3 :: true in cleared[j])
    {
      match target
      case BadTarget(err) =>
        return err, 0;
      case Target(cid, sid) =>
        AddressLaws(adapter.globals, adapter.maxBuflen, cid, sid, |body|);
        ret, attempts := Attempts(cid, sid, body, |input|, cleared);
    }

    /** The two sections of the input, in the write buffer: the colon becomes the end of the first. */
    method SplitAtColon(input: seq<Byte>) returns (colon: Option<nat>, address: seq<Byte>, body: seq<Byte>)
      requires |input| < wbuf.Length
      modifies wbuf
      ensures colon == StrChr(input, COLON)
      ensures colon.Some? ==> address == input[..colon.value] && body == input[colon.value + 1..]
    {
      CopyFromUser(input);
      wbuf[|input|] := 0;
      var text := wbuf[..|input| + 1];
      assert text == input + [0];
      TerminatorEndsSearch(input, COLON, 0);
      colon, address, body := StrChr(text, COLON), [], [];
      if colon.Some? {
        wbuf[colon.value] := 0;
        address, body := wbuf[..colon.value], wbuf[colon.value + 1..|input|];
      }
    }

    /** copy_from_user: the bytes land at the start of the write buffer. */
    method CopyFromUser(input: seq<Byte>)
      requires |input| < wbuf.Length
      modifies wbuf
      ensures wbuf[..|input|] == input
    {
      for i := 0 to |input|
        invariant wbuf[..i] == input[..i]
      {
        wbuf[i] := input[i];
      }
    }

    /** The restart loop: a timed-out send is tried again, twice at most. */
    method Attempts(cid: int, sid: int, body: seq<Byte>, successLen: nat, cleared: seq<seq<bool>>)
      returns (ret: int, attempts: nat)
      requires Wired() && 3 <= |cleared| && |body| < successLen < adapter.maxBuflen
      modifies adapter`rung, adapter.MySlot(), adapter.MySlot().buf
      ensures 1 <= attempts <= 3
      ensures var err := SendError(adapter.globals, adapter.maxBuflen, cid, sid, |body|);
              var slot := adapter.MySlot();
              if err != 0 then
                ret == err && err != -E2BIG && attempts == 1
                && slot.View() == old(slot.View()) && adapter.rung == old(adapter.rung)
              else if old(slot.buflen) != 0 && (forall j | 0 <= j < 3 :: true !in cleared[j]) then
                ret == -ETIMEDOUT && attempts == 3 && slot.View() == old(slot.View()) && adapter.rung == old(adapter.rung)
              else
                && ret == successLen
                && slot.View() == HandshakeSends.Published(old(slot.View()), Peer(cid, sid), body, 0)
                && adapter.rung == old(adapter.rung) + [Pack(Peer(cid, sid), adapter.myId)]
    {
      ghost var slot := adapter.MySlot();
      attempts := 1;
      ret := adapter.CreateOutgoing(cid, sid, body, cleared[0]);
      while ret == -ERESTARTSYS && attempts < 3
        invariant 1 <= attempts <= 3
        invariant ret == -ERESTARTSYS ==>
                    && SendError(adapter.globals, adapter.maxBuflen, cid, sid, |body|) == 0
                    && old(slot.buflen) != 0 && (forall j | 0 <= j < attempts :: true !in cleared[j])
                    && slot.View() == old(slot.View()) && adapter.rung == old(adapter.rung)
        invariant ret != -ERESTARTSYS && SendError(adapter.globals, adapter.maxBuflen, cid, sid, |body|) != 0 ==>
                    && ret == SendError(adapter.globals, adapter.maxBuflen, cid, sid, |body|) && attempts == 1
                    && slot.View() == old(slot.View()) && adapter.rung == old(adapter.rung)
        invariant ret != -ERESTARTSYS && SendError(adapter.globals, adapter.maxBuflen, cid, sid, |body|) == 0 ==>
                    && ret == |body| && (old(slot.buflen) == 0 || exists j | 0 <= j < 3 :: true in cleared[j])
                    && slot.View() == HandshakeSends.Published(old(slot.View()), Peer(cid, sid), body, 0)
                    && adapter.rung == old(adapter.rung) + [Pack(Peer(cid, sid), adapter.myId)]
        decreases 3 - attempts
      {
        ret := adapter.CreateOutgoing(cid, sid, body, cleared[attempts]);
        attempts := attempts + 1;
      }
      if ret == -ERESTARTSYS {
        ret := -ETIMEDOUT;
      } else if ret == |body| {
        ret := successLen;
      } else if ret >= 0 {
        ret := -EIO;
      }
    }
  }

  /** The terminating NUL bounds the search and hides nothing. */
  lemma {:induction false} TerminatorEndsSearch(s: seq<Byte>, c: Byte, from: nat)
    requires c != 0 && from <= |s|
    ensures StrChr(s + [0], c, from) == StrChr(s, c, from)
    decreases |s| - from
  {
    if from < |s| && s[from] != c && s[from] != 0 {
      TerminatorEndsSearch(s, c, from + 1);
    }
  }
}
