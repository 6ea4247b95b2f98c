/** The string operations that the control plane's text protocol is built from. */
module Text {
  import opened Prelude

  // ---- splitting at a character

  function IndexOf(s: string, c: char): (k: nat)
    ensures k <= |s| && c !in s[..k]
    ensures k < |s| ==> s[k] == c
    ensures k == |s| <==> c !in s
  {
    if s == "" then 0
    else if s[0] == c then 0
    else
      var k := 1 + IndexOf(s[1..], c);
      assert s == [s[0]] + s[1..] && s[..k] == [s[0]] + s[1..][..k - 1];
      k
  }

  /** s.split(c): never empty. */
  function Split(s: string, c: char): (r: seq<string>)
    ensures |r| >= 1
  {
    var k := IndexOf(s, c);
    if k == |s| then [s] else [s[..k]] + Split(s[k + 1..], c)
  }

  lemma SplitNone(s: string, c: char)
    requires c !in s
    ensures Split(s, c) == [s]
  {
  }

  lemma SplitCons(a: string, c: char, b: string)
    requires c !in a
    ensures Split(a + [c] + b, c) == [a] + Split(b, c)
  {
    var s := a + [c] + b;
    assert s[|a|] == c;
    assert c !in s[..|a|] by { assert s[..|a|] == a; }
    assert IndexOf(s, c) == |a|;
    assert s[|a| + 1..] == b;
  }

  lemma SplitTwo(a: string, c: char, b: string)
    requires c !in a && c !in b
    ensures Split(a + [c] + b, c) == [a, b]
  {
    SplitCons(a, c, b);
    SplitNone(b, c);
  }

  /** No piece contains the separator, or any character that was not there before. */
  lemma {:induction false} SplitPieces(s: string, c: char, i: nat)
    requires i < |Split(s, c)|
    ensures c !in Split(s, c)[i] && forall x | x in Split(s, c)[i] :: x in s
    decreases |s|
  {
    var k := IndexOf(s, c);
    if k < |s| && i > 0 {
      SplitPieces(s[k + 1..], c, i - 1);
    }
  }

  // ---- white space

  predicate IsSpace(c: char) { c == ' ' || '\t' <= c <= '\r' || '\U{1C}' <= c <= '\U{1F}' }

  predicate NoSpace(s: string) { forall i | 0 <= i < |s| :: !IsSpace(s[i]) }

  function StripLeft(s: string): string { if s != "" && IsSpace(s[0]) then StripLeft(s[1..]) else s }

  function StripRight(s: string): string
  {
    if s != "" && IsSpace(s[|s| - 1]) then StripRight(s[..|s| - 1]) else s
  }

  function Strip(s: string): string { StripRight(StripLeft(s)) }

  /** No white space at either end. */
  predicate Trim(s: string) { s == "" || (!IsSpace(s[0]) && !IsSpace(s[|s| - 1])) }

  lemma StripTrim(s: string)
    requires Trim(s)
    ensures Strip(s) == s
  {
  }

  predicate Spaces(s: string) { forall i | 0 <= i < |s| :: IsSpace(s[i]) }

  lemma {:induction false} StripLeftPadded(a: string, s: string)
    requires Spaces(a) && s != "" && !IsSpace(s[0])
    ensures StripLeft(a + s) == s
  {
    if a != "" {
      assert (a + s)[1..] == a[1..] + s;
      StripLeftPadded(a[1..], s);
    } else {
      assert a + s == s;
    }
  }

  lemma {:induction false} StripRightPadded(s: string, b: string)
    requires Spaces(b) && s != "" && !IsSpace(s[|s| - 1])
    ensures StripRight(s + b) == s
  {
    if b != "" {
      assert (s + b)[..|s + b| - 1] == s + b[..|b| - 1];
      StripRightPadded(s, b[..|b| - 1]);
    } else {
      assert s + b == s;
    }
  }

  /** White space around a trimmed text is taken off. */
  lemma StripPadded(a: string, s: string, b: string)
    requires Spaces(a) && Spaces(b) && Trim(s) && s != ""
    ensures Strip(a + s + b) == s
  {
    assert a + s + b == a + (s + b);
    StripLeftPadded(a, s + b);
    StripRightPadded(s, b);
  }

  lemma StripShrinks(s: string)
    ensures forall x | x in Strip(s) :: x in s
  {
    StripLeftShrinks(s);
    StripRightShrinks(StripLeft(s));
  }

  lemma {:induction false} StripLeftShrinks(s: string)
    ensures forall x | x in StripLeft(s) :: x in s
  {
    if s != "" && IsSpace(s[0]) {
      StripLeftShrinks(s[1..]);
    }
  }

  lemma {:induction false} StripRightShrinks(s: string)
    ensures forall x | x in StripRight(s) :: x in s
  {
    if s != "" && IsSpace(s[|s| - 1]) {
      StripRightShrinks(s[..|s| - 1]);
    }
  }

  /** The length of the first run of characters that are not white space. */
  function WordLen(s: string): (k: nat)
    ensures k <= |s| && NoSpace(s[..k]) && (k < |s| ==> IsSpace(s[k]))
  {
    if s == "" || IsSpace(s[0]) then 0
    else
      var k := 1 + WordLen(s[1..]);
      assert s[..k] == [s[0]] + s[1..][..k - 1];
      k
  }

  /** s.split(): the words between runs of white space. */
  function Words(s: string): seq<string> {
    if s == "" then []
    else if IsSpace(s[0]) then Words(s[1..])
    else [s[..WordLen(s)]] + Words(s[WordLen(s)..])
  }

  lemma WordLenIs(w: string, rest: string)
    requires NoSpace(w) && (rest == "" || IsSpace(rest[0]))
    ensures WordLen(w + rest) == |w|
  {
    var s := w + rest;
    var k := WordLen(s);
    assert forall i | 0 <= i < |w| :: s[i] == w[i];
    assert rest != "" ==> s[|w|] == rest[0];
    assert forall i | 0 <= i < k :: s[..k][i] == s[i];
  }

  lemma WordsOne(w: string)
    requires w != "" && NoSpace(w)
    ensures Words(w) == [w]
  {
    WordLenIs(w, "");
    assert w + "" == w && w[..|w|] == w && w[|w|..] == "";
  }

  lemma WordsCons(w: string, rest: string)
    requires w != "" && NoSpace(w)
    ensures Words(w + " " + rest) == [w] + Words(rest)
  {
    var s := w + " " + rest;
    assert s == w + (" " + rest);
    WordLenIs(w, " " + rest);
    assert s[..|w|] == w && s[|w|..] == " " + rest && (" " + rest)[1..] == rest;
  }

  /** Words contain no white space. */
  lemma {:induction false} WordsPieces(s: string, i: nat)
    requires i < |Words(s)|
    ensures NoSpace(Words(s)[i])
    decreases |s|
  {
    if IsSpace(s[0]) {
      WordsPieces(s[1..], i);
    } else if i > 0 {
      WordsPieces(s[WordLen(s)..], i - 1);
    }
  }

  // ---- numbers

  predicate IsDigit(c: char) { '0' <= c <= '9' }

  predicate Digits(s: string) { forall i | 0 <= i < |s| :: IsDigit(s[i]) }

  function Digit(d: nat): char
    requires d < 10
  {
    ('0' as int + d) as char
  }

  function ShowNat(n: nat): (s: string)
    ensures s != "" && Digits(s)
  {
    if n < 10 then [Digit(n)] else ShowNat(n / 10) + [Digit(n % 10)]
  }

  /** '%d' */
  function Show(n: int): string { if n < 0 then "-" + ShowNat(-n) else ShowNat(n) }

  function ReadNat(s: string): (n: int)
    requires Digits(s)
    ensures n >= 0
  {
    if s == "" then 0 else 10 * ReadNat(s[..|s| - 1]) + (s[|s| - 1] as int - '0' as int)
  }

  /** int(s) on a stripped string of ASCII digits with an optional sign. */
  function ReadInt(s: string): Option<int> {
    if s != "" && Digits(s) then Some(ReadNat(s))
    else if |s| >= 2 && s[0] == '-' && Digits(s[1..]) then Some(-ReadNat(s[1..]))
    else if |s| >= 2 && s[0] == '+' && Digits(s[1..]) then Some(ReadNat(s[1..]))
    else None
  }

  /** Decimal notation: a digit stands for itself, and one more digit multiplies by ten. */
  lemma Decimal(n: nat, d: nat)
    requires d < 10
    ensures ShowNat(d) == ["0123456789"[d]]
    ensures n > 0 ==> ShowNat(10 * n + d) == ShowNat(n) + ["0123456789"[d]]
  {
    DigitIs(d);
    if n > 0 {
      assert (10 * n + d) / 10 == n && (10 * n + d) % 10 == d;
    }
  }

  lemma DigitIs(d: nat)
    requires d < 10
    ensures Digit(d) == "0123456789"[d]
  {
  }

  lemma {:induction false} ReadShowNat(n: nat)
    ensures ReadNat(ShowNat(n)) == n
  {
    if n < 10 {
      assert ShowNat(n)[..0] == "";
    } else {
      var s := ShowNat(n);
      assert s[..|s| - 1] == ShowNat(n / 10);
      ReadShowNat(n / 10);
    }
  }

  lemma ReadShow(n: int)
    ensures ReadInt(Show(n)) == Some(n)
  {
    if n < 0 {
      ReadShowNat(-n);
      assert Show(n)[1..] == ShowNat(-n);
      assert Show(n)[0] == '-';
    } else {
      ReadShowNat(n);
    }
  }

  lemma ShowInjective(m: int, n: int)
    requires Show(m) == Show(n)
    ensures m == n
  {
    ReadShow(m);
    ReadShow(n);
  }

  /** A printed number is a plain word. */
  predicate Plain(s: string) { forall i | 0 <= i < |s| :: IsDigit(s[i]) || s[i] == '-' }

  lemma ShowPlain(n: int)
    ensures Plain(Show(n)) && Show(n) != ""
  {
  }
}
