/** The "key=value,key=value" arguments of a request. */
module Csv {
  import opened Text

  type Dict = map<string, string>

  /** One element: its first two '='-separated parts, or nothing when there is no '='. */
  function AddPair(kv: Dict, elem: string): Dict {
    var parts := Split(Strip(elem), '=');
    if |parts| >= 2 then kv[Strip(parts[0]) := Strip(parts[1])] else kv
  }

  function AddPairs(kv: Dict, elems: seq<string>): Dict
    decreases |elems|
  {
    if elems == [] then kv else AddPairs(AddPair(kv, elems[0]), elems[1..])
  }

  function Csv2Dict(s: string): Dict { AddPairs(map[], Split(Strip(s), ',')) }

  /** CSV2dict as it runs, one element after the other. */
  method ParseCsv(s: string) returns (kv: Dict)
    ensures kv == Csv2Dict(s)
  {
    var elems := Split(Strip(s), ',');
    kv := map[];
    var i := 0;
    while i < |elems|
      invariant 0 <= i <= |elems|
      invariant AddPairs(kv, elems[i..]) == Csv2Dict(s)
    {
      var parts := Split(Strip(elems[i]), '=');
      if |parts| >= 2 {
        kv := kv[Strip(parts[0]) := Strip(parts[1])];
      }
      assert elems[i..][1..] == elems[i + 1..];
      i := i + 1;
    }
  }

  // ---- printing, and back

  datatype Pair = Pair(key: string, value: string)

  function PrintPair(p: Pair): string { p.key + "=" + p.value }

  function PrintCsv(pairs: seq<Pair>): string {
    if pairs == [] then ""
    else if |pairs| == 1 then PrintPair(pairs[0])
    else PrintPair(pairs[0]) + "," + PrintCsv(pairs[1..])
  }

  /** What a list of pairs means: the last value of each key. */
  function DictOf(kv: Dict, pairs: seq<Pair>): Dict
    decreases |pairs|
  {
    if pairs == [] then kv else DictOf(kv[pairs[0].key := pairs[0].value], pairs[1..])
  }

  predicate Clean(s: string) { ',' !in s && '=' !in s && Trim(s) }

  predicate CleanPairs(pairs: seq<Pair>) { forall i | 0 <= i < |pairs| :: Clean(pairs[i].key) && Clean(pairs[i].value) }

  lemma PairTrim(p: Pair)
    requires Clean(p.key) && Clean(p.value)
    ensures Trim(PrintPair(p)) && PrintPair(p) != "" && ',' !in PrintPair(p)
  {
    var s := PrintPair(p);
    assert s[|p.key|] == '=';
    assert s[0] == if p.key == "" then '=' else p.key[0];
    assert s[|s| - 1] == if p.value == "" then '=' else p.value[|p.value| - 1];
  }

  lemma {:induction false} CsvTrim(pairs: seq<Pair>)
    requires CleanPairs(pairs) && pairs != []
    ensures Trim(PrintCsv(pairs)) && PrintCsv(pairs) != ""
  {
    PairTrim(pairs[0]);
    if |pairs| > 1 {
      CsvTrim(pairs[1..]);
      var a, b := PrintPair(pairs[0]), PrintCsv(pairs[1..]);
      assert PrintCsv(pairs)[0] == a[0];
      assert PrintCsv(pairs)[|PrintCsv(pairs)| - 1] == b[|b| - 1];
    }
  }

  lemma AddPrinted(kv: Dict, p: Pair)
    requires Clean(p.key) && Clean(p.value)
    ensures AddPair(kv, PrintPair(p)) == kv[p.key := p.value]
  {
    PairTrim(p);
    StripTrim(PrintPair(p));
    SplitCons(p.key, '=', p.value);
    SplitNone(p.value, '=');
    StripTrim(p.key);
    StripTrim(p.value);
  }

  lemma {:induction false} AddAllPrinted(kv: Dict, pairs: seq<Pair>)
    requires CleanPairs(pairs) && pairs != []
    ensures AddPairs(kv, Split(PrintCsv(pairs), ',')) == DictOf(kv, pairs)
    decreases |pairs|
  {
    var p := pairs[0];
    PairTrim(p);
    AddPrinted(kv, p);
    if |pairs| == 1 {
      SplitNone(PrintPair(p), ',');
      assert pairs[1..] == [];
    } else {
      SplitCons(PrintPair(p), ',', PrintCsv(pairs[1..]));
      AddAllPrinted(kv[p.key := p.value], pairs[1..]);
      var elems := Split(PrintCsv(pairs), ',');
      assert elems[0] == PrintPair(p) && elems[1..] == Split(PrintCsv(pairs[1..]), ',');
    }
  }

  /** Parsing inverts printing, for every list of clean pairs, the empty one included. */
  lemma CsvRoundTrip(pairs: seq<Pair>)
    requires CleanPairs(pairs)
    ensures Csv2Dict(PrintCsv(pairs)) == DictOf(map[], pairs)
  {
    if pairs == [] {
      SplitNone("", ',');
      SplitNone("", '=');
      assert Split(Strip(""), ',')[1..] == [];
    } else {
      CsvTrim(pairs);
      StripTrim(PrintCsv(pairs));
      AddAllPrinted(map[], pairs);
    }
  }

  /** With distinct keys nothing is overwritten: every pair can be looked up. */
  lemma {:induction false} DistinctKeysKept(kv: Dict, pairs: seq<Pair>, i: nat)
    requires forall a, b | 0 <= a < b < |pairs| :: pairs[a].key != pairs[b].key
    requires i < |pairs|
    ensures pairs[i].key in DictOf(kv, pairs) && DictOf(kv, pairs)[pairs[i].key] == pairs[i].value
    decreases |pairs|
  {
    if i > 0 {
      DistinctKeysKept(kv[pairs[0].key := pairs[0].value], pairs[1..], i - 1);
    } else {
      OtherKeysKept(kv[pairs[0].key := pairs[0].value], pairs[1..], pairs[0].key);
    }
  }

  lemma {:induction false} OtherKeysKept(kv: Dict, pairs: seq<Pair>, key: string)
    requires forall a | 0 <= a < |pairs| :: pairs[a].key != key
    requires key in kv
    ensures key in DictOf(kv, pairs) && DictOf(kv, pairs)[key] == kv[key]
    decreases |pairs|
  {
    if pairs != [] {
      OtherKeysKept(kv[pairs[0].key := pairs[0].value], pairs[1..], key);
    }
  }

  // ---- what a value can hold

  /** A value that parsing `s` can produce: none of the separators, no character that is not in `s`. */
  predicate ValueFrom(value: string, s: string) {
    ',' !in value && '=' !in value && forall x | x in value :: x in s
  }

  predicate ValuesFrom(kv: Dict, s: string) { forall k | k in kv :: ValueFrom(kv[k], s) }

  lemma AddPairValues(kv: Dict, elem: string, s: string)
    requires ValuesFrom(kv, s) && ',' !in elem && forall x | x in elem :: x in s
    ensures ValuesFrom(AddPair(kv, elem), s)
  {
    var parts := Split(Strip(elem), '=');
    if |parts| >= 2 {
      StripShrinks(elem);
      SplitPieces(Strip(elem), '=', 1);
      StripShrinks(parts[1]);
      assert ValueFrom(Strip(parts[1]), s);
    }
  }

  lemma {:induction false} AddPairsValues(kv: Dict, elems: seq<string>, s: string)
    requires ValuesFrom(kv, s)
    requires forall i | 0 <= i < |elems| :: ',' !in elems[i] && forall x | x in elems[i] :: x in s
    ensures ValuesFrom(AddPairs(kv, elems), s)
    decreases |elems|
  {
    if elems != [] {
      AddPairValues(kv, elems[0], s);
      AddPairsValues(AddPair(kv, elems[0]), elems[1..], s);
    }
  }

  /** Whatever is parsed, no value holds a comma, an equals sign or anything that was not there. */
  lemma ParsedValues(s: string)
    ensures ValuesFrom(Csv2Dict(s), s)
  {
    var elems := Split(Strip(s), ',');
    StripShrinks(s);
    forall i | 0 <= i < |elems| ensures ',' !in elems[i] && forall x | x in elems[i] :: x in s {
      SplitPieces(Strip(s), ',', i);
    }
    AddPairsValues(map[], elems, s);
  }

  // ---- elements that are not as printed

  /** An element without an equals sign is passed over. */
  lemma NoEqualsIgnored(kv: Dict, elem: string)
    requires '=' !in elem
    ensures AddPair(kv, elem) == kv
  {
    StripShrinks(elem);
    SplitNone(Strip(elem), '=');
  }

  /** Of an element with several, the first two parts count. */
  lemma ThirdPartIgnored(kv: Dict, p: Pair, more: string)
    requires Clean(p.key) && Clean(p.value) && Trim(more) && more != ""
    ensures AddPair(kv, PrintPair(p) + "=" + more) == kv[p.key := p.value]
  {
    var elem := PrintPair(p) + "=" + more;
    ThirdTrim(p, more);
    StripTrim(elem);
    SplitThree(p.key, p.value, more);
    StripTrim(p.key);
    StripTrim(p.value);
  }

  lemma ThirdTrim(p: Pair, more: string)
    requires Clean(p.key) && Trim(more) && more != ""
    ensures Trim(PrintPair(p) + "=" + more)
  {
    var elem := PrintPair(p) + "=" + more;
    assert elem[0] == if p.key == "" then '=' else p.key[0];
    assert elem[|elem| - 1] == more[|more| - 1];
  }

  lemma SplitThree(a: string, b: string, c: string)
    requires '=' !in a && '=' !in b
    ensures Split(a + "=" + b + "=" + c, '=') == [a] + ([b] + Split(c, '='))
  {
    assert a + "=" + b + "=" + c == a + ['='] + (b + ['='] + c);
    SplitCons(a, '=', b + ['='] + c);
    SplitCons(b, '=', c);
  }

  /** White space around keys and values does not matter. */
  lemma SpacesIgnored(kv: Dict, p: Pair, a: string, b: string, c: string, d: string)
    requires Clean(p.key) && Clean(p.value) && p.key != "" && p.value != ""
    requires Spaces(a) && Spaces(b) && Spaces(c) && Spaces(d)
    ensures AddPair(kv, a + (p.key + b + "=" + c + p.value) + d) == kv[p.key := p.value]
  {
    var middle := p.key + b + "=" + c + p.value;
    assert middle[0] == p.key[0] && middle[|middle| - 1] == p.value[|p.value| - 1];
    StripPadded(a, middle, d);
    assert middle == (p.key + b) + ['='] + (c + p.value);
    assert '=' !in p.key + b && '=' !in c + p.value;
    SplitCons(p.key + b, '=', c + p.value);
    SplitNone(c + p.value, '=');
    assert "" + p.key + b == p.key + b && c + p.value + "" == c + p.value;
    StripPadded("", p.key, b);
    StripPadded(c, p.value, "");
  }

  /** Of several pairs with one key, the last counts. */
  lemma LastWins(pairs: seq<Pair>, p: Pair)
    requires CleanPairs(pairs) && Clean(p.key) && Clean(p.value)
    ensures var kv := Csv2Dict(PrintCsv(pairs + [p])); p.key in kv && kv[p.key] == p.value
  {
    CsvRoundTrip(pairs + [p]);
    LastOf(map[], pairs, p);
  }

  lemma {:induction false} LastOf(kv: Dict, pairs: seq<Pair>, p: Pair)
    ensures p.key in DictOf(kv, pairs + [p]) && DictOf(kv, pairs + [p])[p.key] == p.value
    decreases |pairs|
  {
    if pairs == [] {
      assert pairs + [p] == [p] && [p][1..] == [];
    } else {
      assert (pairs + [p])[1..] == pairs[1..] + [p];
      LastOf(kv[pairs[0].key := pairs[0].value], pairs[1..], p);
    }
  }
}
