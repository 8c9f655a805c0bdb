/** CleanerProcessor of crawler/pipeline/processors.go, on ASCII strings. */
module Cleaners {
  import opened Values

  datatype Config = Config(trimSpace: bool, removeEmpty: bool, normalizeSpace: bool, toLower: bool, toUpper: bool)

  // ---------------------------------------------------------------------------------------------
  // Strings
  // ---------------------------------------------------------------------------------------------

  /** What strings.TrimSpace trims. */
  predicate IsSpace(c: char) {
    9 <= c as int <= 13 || c == ' '
  }

  /** What \s matches: not the vertical tab. */
  predicate IsPatternSpace(c: char) {
    IsSpace(c) && c as int != 11
  }

  lemma SpacesAre(c: char)
    ensures IsSpace(c) <==> c in {'\t', '\n', '\U{0B}', '\U{0C}', '\r', ' '}
    ensures IsPatternSpace(c) <==> c in {'\t', '\n', '\U{0C}', '\r', ' '}
  {
  }

  function TrimLeft(s: string): string {
    if s != "" && IsSpace(s[0]) then TrimLeft(s[1..]) else s
  }

  function TrimRight(s: string): string {
    if s != "" && IsSpace(s[|s| - 1]) then TrimRight(s[..|s| - 1]) else s
  }

  function Trim(s: string): string {
    TrimRight(TrimLeft(s))
  }

  function SkipSpaces(s: string): (r: string)
    ensures |r| <= |s|
  {
    if s != "" && IsPatternSpace(s[0]) then SkipSpaces(s[1..]) else s
  }

  /** Every run of pattern spaces becomes one blank. */
  function Collapse(s: string): string
    decreases |s|
  {
    if s == "" then ""
    else if IsPatternSpace(s[0]) then " " + Collapse(SkipSpaces(s[1..]))
    else [s[0]] + Collapse(s[1..])
  }

  function LowerChar(c: char): char {
    if 'A' <= c <= 'Z' then (c as int + 32) as char else c
  }

  function UpperChar(c: char): char {
    if 'a' <= c <= 'z' then (c as int - 32) as char else c
  }

  function FoldChar(cfg: Config, c: char): char {
    var lower := if cfg.toLower then LowerChar(c) else c;
    if cfg.toUpper then UpperChar(lower) else lower
  }

  /** ToLower, then ToUpper, as far as they are switched on. */
  function Fold(cfg: Config, s: string): string {
    seq(|s|, i requires 0 <= i < |s| => FoldChar(cfg, s[i]))
  }

  function CleanString(cfg: Config, s: string): string {
    var trimmed := if cfg.trimSpace then Trim(s) else s;
    var collapsed := if cfg.normalizeSpace then Collapse(trimmed) else trimmed;
    Fold(cfg, collapsed)
  }

  // ---------------------------------------------------------------------------------------------
  // Nested values
  // ---------------------------------------------------------------------------------------------

  /** Inside a map or a slice, a string that cleans to nothing goes, if RemoveEmpty is on. */
  predicate Vanishes(cfg: Config, v: Value) {
    v.Str? && cfg.removeEmpty && CleanString(cfg, v.s) == ""
  }

  function Clean(cfg: Config, v: Value): Value
    decreases v
  {
    match v
    case Str(s) => Str(CleanString(cfg, s))
    case Obj(fields) => Obj(map k | k in fields && !Vanishes(cfg, fields[k]) :: Clean(cfg, fields[k]))
    case Arr(items) => Arr(CleanItems(cfg, items))
    case _ => v
  }

  function CleanItems(cfg: Config, items: seq<Value>): seq<Value>
    decreases items
  {
    if items == [] then []
    else
      var n := |items| - 1;
      CleanItems(cfg, items[..n]) + if !Vanishes(cfg, items[n]) then [Clean(cfg, items[n])] else []
  }

  method Process(cfg: Config, data: Value) returns (cleaned: Value)
    ensures cleaned == Clean(cfg, data)
    decreases data, 1
  {
    match data {
      case Str(s) =>
        cleaned := Str(CleanString(cfg, s));
      case Obj(fields) =>
        cleaned := CleanMap(cfg, data);
      case Arr(items) =>
        var cleanedItems := CleanSlice(cfg, items);
        cleaned := Arr(cleanedItems);
      case _ =>
        cleaned := data;
    }
  }

  method CleanMap(cfg: Config, m: Value) returns (cleaned: Value)
    requires m.Obj?
    ensures cleaned == Clean(cfg, m)
    ensures cleaned.Obj?
    ensures forall k ::
              k in cleaned.fields <==>
              && k in m.fields
              && !(m.fields[k].Str? && cfg.removeEmpty && CleanString(cfg, m.fields[k].s) == "")
    ensures forall k :: k in cleaned.fields && m.fields[k].Str? ==>
              cleaned.fields[k] == Str(CleanString(cfg, m.fields[k].s))
    decreases m, 0
  {
    var result: map<string, Value> := map[];
    var rest := m.fields.Keys;
    while rest != {}
      invariant rest <= m.fields.Keys
      invariant result == map k | k in m.fields && k !in rest && !Vanishes(cfg, m.fields[k]) :: Clean(cfg, m.fields[k])
    {
      var k :| k in rest;
      if !Vanishes(cfg, m.fields[k]) {
        var val := Process(cfg, m.fields[k]);
        result := result[k := val];
      }
      rest := rest - {k};
    }
    cleaned := Obj(result);
  }

  method CleanSlice(cfg: Config, s: seq<Value>) returns (cleaned: seq<Value>)
    ensures cleaned == CleanItems(cfg, s)
    decreases s, 0
  {
    cleaned := [];
    for i := 0 to |s|
      invariant cleaned == CleanItems(cfg, s[..i])
    {
      assert s[..i + 1][..i] == s[..i];
      if !Vanishes(cfg, s[i]) {
        var val := Process(cfg, s[i]);
        cleaned := cleaned + [val];
      }
    }
    assert s[..|s|] == s;
  }

  // ---------------------------------------------------------------------------------------------
  // Shapes of cleaned strings
  // ---------------------------------------------------------------------------------------------

  ghost predicate Trimmed(s: string) {
    s != "" ==> !IsSpace(s[0]) && !IsSpace(s[|s| - 1])
  }

  /** Pattern spaces are single blanks. */
  ghost predicate Collapsed(s: string) {
    forall i :: 0 <= i < |s| && IsPatternSpace(s[i]) ==> s[i] == ' ' && (i + 1 < |s| ==> !IsPatternSpace(s[i + 1]))
  }

  lemma {:induction false} TrimRightTrims(s: string)
    requires s != "" ==> !IsSpace(s[0])
    ensures Trimmed(TrimRight(s))
  {
    if s != "" && IsSpace(s[|s| - 1]) {
      TrimRightTrims(s[..|s| - 1]);
    }
  }

  lemma {:induction false} TrimLeftTrims(s: string)
    ensures TrimLeft(s) != "" ==> !IsSpace(TrimLeft(s)[0])
  {
    if s != "" && IsSpace(s[0]) {
      TrimLeftTrims(s[1..]);
    }
  }

  lemma {:induction false} SkipSpacesSkips(s: string)
    ensures var r := SkipSpaces(s);
            && (r != "" ==> !IsPatternSpace(r[0]))
            && (s != "" && !IsPatternSpace(s[|s| - 1]) ==> r != "" && r[|r| - 1] == s[|s| - 1])
  {
    if s != "" && IsPatternSpace(s[0]) {
      SkipSpacesSkips(s[1..]);
    }
  }

  /** Collapsing keeps a first and a last character that are no pattern spaces, and leaves only single blanks. */
  lemma {:induction false} CollapseCollapses(s: string)
    ensures var r := Collapse(s);
            && Collapsed(r)
            && (s != "" ==> r != "" && (IsPatternSpace(s[0]) <==> IsPatternSpace(r[0])))
            && (s != "" && !IsPatternSpace(s[0]) ==> r[0] == s[0])
            && (s != "" && !IsPatternSpace(s[|s| - 1]) ==> r[|r| - 1] == s[|s| - 1])
    decreases |s|
  {
    if s != "" {
      if IsPatternSpace(s[0]) {
        SkipSpacesSkips(s[1..]);
        CollapseCollapses(SkipSpaces(s[1..]));
      } else {
        CollapseCollapses(s[1..]);
      }
    }
  }

  lemma {:induction false} CollapsedStays(s: string)
    requires Collapsed(s)
    ensures Collapse(s) == s
  {
    if s != "" {
      forall i | 0 <= i < |s[1..]| && IsPatternSpace(s[1..][i])
        ensures s[1..][i] == ' ' && (i + 1 < |s[1..]| ==> !IsPatternSpace(s[1..][i + 1]))
      {
        assert s[1..][i] == s[i + 1];
      }
      CollapsedStays(s[1..]);
      if IsPatternSpace(s[0]) {
        assert SkipSpaces(s[1..]) == s[1..];
        assert s == " " + s[1..];
      } else {
        assert s == [s[0]] + s[1..];
      }
    }
  }

  lemma FoldKeepsSpaces(cfg: Config, c: char)
    ensures IsSpace(FoldChar(cfg, c)) == IsSpace(c) && IsPatternSpace(FoldChar(cfg, c)) == IsPatternSpace(c)
    ensures c == ' ' ==> FoldChar(cfg, c) == ' '
    ensures FoldChar(cfg, FoldChar(cfg, c)) == FoldChar(cfg, c)
  {
  }

  /** Folding changes nothing but the case of letters, and only if asked to. */
  lemma FoldChangesCaseOnly(cfg: Config, c: char)
    ensures var f := FoldChar(cfg, c);
            || f == c
            || (cfg.toLower && 'A' <= c <= 'Z' && f as int == c as int + 32)
            || (cfg.toUpper && 'a' <= c <= 'z' && f as int == c as int - 32)
  {
  }

  lemma FoldKeeps(cfg: Config, s: string)
    ensures Trimmed(s) ==> Trimmed(Fold(cfg, s))
    ensures Collapsed(s) ==> Collapsed(Fold(cfg, s))
    ensures Fold(cfg, Fold(cfg, s)) == Fold(cfg, s)
  {
    forall i | 0 <= i < |s|
      ensures var c, f := s[i], Fold(cfg, s)[i];
              && IsSpace(f) == IsSpace(c) && IsPatternSpace(f) == IsPatternSpace(c) && (c == ' ' ==> f == ' ')
              && FoldChar(cfg, f) == f
    {
      FoldKeepsSpaces(cfg, s[i]);
    }
  }

  // ---------------------------------------------------------------------------------------------
  // What cleaning does
  // ---------------------------------------------------------------------------------------------

  /** The characters that are not white space, in order. */
  function Text(s: string): string {
    if s == "" then "" else (if IsSpace(s[0]) then "" else [s[0]]) + Text(s[1..])
  }

  lemma {:induction false} TextConcat(a: string, b: string)
    ensures Text(a + b) == Text(a) + Text(b)
  {
    if a == "" {
      assert a + b == b;
    } else {
      assert (a + b)[0] == a[0] && (a + b)[1..] == a[1..] + b;
      TextConcat(a[1..], b);
    }
  }

  lemma {:induction false} TrimLeftKeepsText(s: string)
    ensures Text(TrimLeft(s)) == Text(s)
  {
    if s != "" && IsSpace(s[0]) {
      TrimLeftKeepsText(s[1..]);
    }
  }

  lemma {:induction false} TrimRightKeepsText(s: string)
    ensures Text(TrimRight(s)) == Text(s)
  {
    if s != "" && IsSpace(s[|s| - 1]) {
      var n := |s| - 1;
      TrimRightKeepsText(s[..n]);
      TextConcat(s[..n], [s[n]]);
      assert s == s[..n] + [s[n]];
      assert Text([s[n]]) == "";
    }
  }

  lemma {:induction false} SkipSpacesKeepsText(s: string)
    ensures Text(SkipSpaces(s)) == Text(s)
  {
    if s != "" && IsPatternSpace(s[0]) {
      SkipSpacesKeepsText(s[1..]);
    }
  }

  lemma {:induction false} CollapseKeepsText(s: string)
    ensures Text(Collapse(s)) == Text(s)
    decreases |s|
  {
    if s != "" {
      if IsPatternSpace(s[0]) {
        SkipSpacesKeepsText(s[1..]);
        CollapseKeepsText(SkipSpaces(s[1..]));
        TextConcat(" ", Collapse(SkipSpaces(s[1..])));
      } else {
        CollapseKeepsText(s[1..]);
        TextConcat([s[0]], Collapse(s[1..]));
      }
    }
  }

  lemma {:induction false} FoldKeepsText(cfg: Config, s: string)
    ensures Text(Fold(cfg, s)) == Fold(cfg, Text(s))
  {
    if s != "" {
      FoldKeepsSpaces(cfg, s[0]);
      FoldKeepsText(cfg, s[1..]);
      assert Fold(cfg, s)[1..] == Fold(cfg, s[1..]);
    }
  }

  /** Cleaning only takes white space away: the text is the old one, case aside, character by character. */
  lemma CleanStringKeepsText(cfg: Config, s: string)
    ensures Text(CleanString(cfg, s)) == Fold(cfg, Text(s))
    ensures !cfg.trimSpace && !cfg.normalizeSpace ==> CleanString(cfg, s) == Fold(cfg, s)
  {
    var trimmed := if cfg.trimSpace then Trim(s) else s;
    TrimLeftKeepsText(s);
    TrimRightKeepsText(TrimLeft(s));
    CollapseKeepsText(trimmed);
    FoldKeepsText(cfg, if cfg.normalizeSpace then Collapse(trimmed) else trimmed);
  }

  /** A cleaned string is trimmed, has single blanks only and is in one case, as far as each is asked for. */
  lemma CleanStringIsClean(cfg: Config, s: string)
    ensures var r := CleanString(cfg, s);
            && (cfg.trimSpace ==> Trimmed(r))
            && (cfg.normalizeSpace ==> Collapsed(r))
            && (cfg.toUpper ==> forall i :: 0 <= i < |r| ==> !('a' <= r[i] <= 'z'))
            && (cfg.toLower && !cfg.toUpper ==> forall i :: 0 <= i < |r| ==> !('A' <= r[i] <= 'Z'))
  {
    var trimmed := if cfg.trimSpace then Trim(s) else s;
    TrimLeftTrims(s);
    TrimRightTrims(TrimLeft(s));
    CollapseCollapses(trimmed);
    FoldKeeps(cfg, if cfg.normalizeSpace then Collapse(trimmed) else trimmed);
  }

  // ---------------------------------------------------------------------------------------------
  // What becomes of the words of a string, and of the parts of a value
  // ---------------------------------------------------------------------------------------------

  /** The maximal runs of characters that are not white space, in order. */
  function Words(s: string): (words: seq<string>)
    ensures s != "" && !IsSpace(s[0]) ==> words != []
  {
    if s == "" then []
    else if IsSpace(s[0]) then Words(s[1..])
    else if |s| == 1 || IsSpace(s[1]) then [[s[0]]] + Words(s[1..])
    else
      var rest := Words(s[1..]);
      [[s[0]] + rest[0]] + rest[1..]
  }

  lemma {:induction false} TrimLeftKeepsWords(s: string)
    ensures Words(TrimLeft(s)) == Words(s)
  {
    if s != "" && IsSpace(s[0]) {
      TrimLeftKeepsWords(s[1..]);
    }
  }

  lemma {:induction false} LastSpaceIsNoWord(s: string, c: char)
    requires IsSpace(c)
    ensures Words(s + [c]) == Words(s)
  {
    if s == "" {
      assert ([c])[1..] == "" && "" + [c] == [c];
    } else {
      assert (s + [c])[0] == s[0] && (s + [c])[1..] == s[1..] + [c];
      LastSpaceIsNoWord(s[1..], c);
      if |s| == 1 {
        assert (s + [c])[1] == c;
      }
    }
  }

  lemma {:induction false} TrimRightKeepsWords(s: string)
    ensures Words(TrimRight(s)) == Words(s)
  {
    if s != "" && IsSpace(s[|s| - 1]) {
      var n := |s| - 1;
      assert s == s[..n] + [s[n]];
      LastSpaceIsNoWord(s[..n], s[n]);
      TrimRightKeepsWords(s[..n]);
    }
  }

  lemma {:induction false} SkipSpacesKeepsWords(s: string)
    ensures Words(SkipSpaces(s)) == Words(s)
  {
    if s != "" && IsPatternSpace(s[0]) {
      SkipSpacesKeepsWords(s[1..]);
    }
  }

  lemma {:induction false} CollapseKeepsWords(s: string)
    ensures Words(Collapse(s)) == Words(s)
    decreases |s|
  {
    if s != "" {
      if IsPatternSpace(s[0]) {
        var rest := SkipSpaces(s[1..]);
        SkipSpacesKeepsWords(s[1..]);
        CollapseKeepsWords(rest);
        assert (" " + Collapse(rest))[1..] == Collapse(rest);
      } else {
        var rest := Collapse(s[1..]);
        CollapseKeepsWords(s[1..]);
        CollapseStarts(s[1..]);
        assert ([s[0]] + rest)[0] == s[0] && ([s[0]] + rest)[1..] == rest;
      }
    }
  }

  lemma CollapseStarts(s: string)
    ensures s == "" <==> Collapse(s) == ""
    ensures s != "" ==> IsSpace(Collapse(s)[0]) == IsSpace(s[0])
  {
  }

  function FoldWords(cfg: Config, words: seq<string>): seq<string> {
    seq(|words|, i requires 0 <= i < |words| => Fold(cfg, words[i]))
  }

  lemma {:induction false} FoldKeepsWords(cfg: Config, s: string)
    ensures Words(Fold(cfg, s)) == FoldWords(cfg, Words(s))
  {
    if s != "" {
      var f := Fold(cfg, s);
      assert f[1..] == Fold(cfg, s[1..]);
      FoldKeepsSpaces(cfg, s[0]);
      FoldKeepsWords(cfg, s[1..]);
      FoldFirstWord(cfg, s[0], Words(s[1..]));
      if IsSpace(s[0]) {
        assert Words(f) == Words(f[1..]) && Words(s) == Words(s[1..]);
      } else if |s| == 1 || IsSpace(s[1]) {
        assert |s| > 1 ==> f[1] == FoldChar(cfg, s[1]) && IsSpace(f[1]) by {
          if |s| > 1 {
            FoldKeepsSpaces(cfg, s[1]);
          }
        }
        assert Words(f) == [[f[0]]] + Words(f[1..]);
      } else {
        FoldKeepsSpaces(cfg, s[1]);
        var rest := Words(s[1..]);
        assert Words(s) == [[s[0]] + rest[0]] + rest[1..];
        assert Words(f) == [[f[0]] + Words(f[1..])[0]] + Words(f[1..])[1..];
      }
    }
  }

  lemma FoldFirstWord(cfg: Config, c: char, words: seq<string>)
    ensures FoldWords(cfg, [[c]] + words) == [[FoldChar(cfg, c)]] + FoldWords(cfg, words)
    ensures words != [] ==>
              FoldWords(cfg, [[c] + words[0]] + words[1..])
              == [[FoldChar(cfg, c)] + FoldWords(cfg, words)[0]] + FoldWords(cfg, words)[1..]
  {
    assert Fold(cfg, [c]) == [FoldChar(cfg, c)];
    if words != [] {
      assert Fold(cfg, [c] + words[0]) == [FoldChar(cfg, c)] + Fold(cfg, words[0]);
    }
  }

  /** Cleaning keeps every word, none joined, split or reordered, case aside. */
  lemma CleanStringKeepsWords(cfg: Config, s: string)
    ensures Words(CleanString(cfg, s)) == FoldWords(cfg, Words(s))
  {
    var trimmed := if cfg.trimSpace then Trim(s) else s;
    TrimLeftKeepsWords(s);
    TrimRightKeepsWords(TrimLeft(s));
    CollapseKeepsWords(trimmed);
    FoldKeepsWords(cfg, if cfg.normalizeSpace then Collapse(trimmed) else trimmed);
  }

  predicate AllSpace(s: string) {
    forall i :: 0 <= i < |s| ==> IsSpace(s[i])
  }

  lemma {:induction false} TrimLeftCuts(s: string) returns (i: nat)
    ensures i <= |s| && TrimLeft(s) == s[i..] && AllSpace(s[..i])
  {
    if s != "" && IsSpace(s[0]) {
      var k := TrimLeftCuts(s[1..]);
      i := k + 1;
      assert forall j :: 0 < j < i ==> s[j] == s[1..][..k][j - 1];
    } else {
      i := 0;
    }
  }

  lemma {:induction false} TrimRightCuts(s: string) returns (j: nat)
    ensures j <= |s| && TrimRight(s) == s[..j] && AllSpace(s[j..])
  {
    if s != "" && IsSpace(s[|s| - 1]) {
      var n := |s| - 1;
      j := TrimRightCuts(s[..n]);
      assert forall k :: j <= k < n ==> s[k] == s[..n][j..][k - j];
    } else {
      j := |s|;
    }
  }

  /** Without NormalizeSpace the inside of a string stays: only white space at its ends is cut, if any. */
  lemma CleanStringCutsEnds(cfg: Config, s: string) returns (i: nat, j: nat)
    requires !cfg.normalizeSpace
    ensures i <= j <= |s| && CleanString(cfg, s) == Fold(cfg, s[i..j]) && AllSpace(s[..i]) && AllSpace(s[j..])
    ensures !cfg.trimSpace ==> i == 0 && j == |s|
  {
    i, j := 0, |s|;
    if cfg.trimSpace {
      i := TrimLeftCuts(s);
      var k := TrimRightCuts(s[i..]);
      j := i + k;
      assert s[i..][..k] == s[i..j] && s[i..][k..] == s[j..];
    } else {
      assert s[0..|s|] == s;
    }
  }

  /** `at` are the positions, in order, of exactly the items that do not vanish. */
  ghost predicate Survivors(cfg: Config, items: seq<Value>, at: seq<int>) {
    && (forall k :: 0 <= k < |at| ==> 0 <= at[k] < |items|)
    && (forall k, l :: 0 <= k < l < |at| ==> at[k] < at[l])
    && (forall i :: 0 <= i < |items| ==>
          (i in at <==> !(items[i].Str? && cfg.removeEmpty && CleanString(cfg, items[i].s) == "")))
  }

  /**
   `w` has the shape of `v` at every depth: the same keys and items, those of vanished strings aside, every string
   cleaned and everything else as it was.
   */
  ghost predicate CleanedFrom(cfg: Config, v: Value, w: Value)
    decreases v
  {
    match v
    case Str(s) => w == Str(CleanString(cfg, s))
    case Obj(fields) =>
      && w.Obj?
      && (forall k ::
            k in w.fields <==>
            k in fields && !(fields[k].Str? && cfg.removeEmpty && CleanString(cfg, fields[k].s) == ""))
      && (forall k :: k in fields && k in w.fields ==> CleanedFrom(cfg, fields[k], w.fields[k]))
    case Arr(items) =>
      && w.Arr?
      && exists at :: Survivors(cfg, items, at) && CleanedAt(cfg, items, at, w.items)
    case _ => w == v
  }

  ghost predicate CleanedAt(cfg: Config, items: seq<Value>, at: seq<int>, results: seq<Value>)
    decreases items
  {
    && |results| == |at|
    && forall i :: 0 <= i < |at| ==> 0 <= at[i] < |items| && CleanedFrom(cfg, items[at[i]], results[i])
  }

  lemma {:induction false} CleanIsCleanedFrom(cfg: Config, v: Value)
    ensures CleanedFrom(cfg, v, Clean(cfg, v))
    decreases v, 1
  {
    match v
    case Obj(fields) =>
      forall k | k in fields && !Vanishes(cfg, fields[k]) ensures CleanedFrom(cfg, fields[k], Clean(cfg, fields[k])) {
        CleanIsCleanedFrom(cfg, fields[k]);
      }
    case Arr(items) =>
      var at := CleanItemsAt(cfg, items);
    case _ =>
  }

  lemma {:induction false} CleanItemsAt(cfg: Config, items: seq<Value>) returns (at: seq<int>)
    ensures Survivors(cfg, items, at) && CleanedAt(cfg, items, at, CleanItems(cfg, items))
    decreases items, 0
  {
    if items == [] {
      at := [];
    } else {
      var n := |items| - 1;
      var front := items[..n];
      at := CleanItemsAt(cfg, front);
      SurvivorsGrow(cfg, items, at, n);
      forall i | 0 <= i < |at| ensures CleanedFrom(cfg, items[at[i]], CleanItems(cfg, front)[i]) {
        assert front[at[i]] == items[at[i]];
      }
      if !Vanishes(cfg, items[n]) {
        CleanIsCleanedFrom(cfg, items[n]);
        at := at + [n];
      } else {
        assert CleanItems(cfg, items) == CleanItems(cfg, front);
      }
    }
  }

  lemma SurvivorsGrow(cfg: Config, items: seq<Value>, at: seq<int>, n: nat)
    requires |items| == n + 1 && Survivors(cfg, items[..n], at)
    ensures Survivors(cfg, items, if Vanishes(cfg, items[n]) then at else at + [n])
  {
    var grown := if Vanishes(cfg, items[n]) then at else at + [n];
    forall i | 0 <= i < n ensures items[..n][i] == items[i] && (i in grown <==> i in at) {
    }
    assert n in grown <==> !Vanishes(cfg, items[n]);
  }

  predicate IsEmpty(v: Value) {
    v.Str? && v.s == ""
  }

  /** No map and no slice at any depth of `v` holds an empty string. */
  ghost predicate NoneEmpty(v: Value)
    decreases v
  {
    match v
    case Obj(fields) => forall k :: k in fields ==> !IsEmpty(fields[k]) && NoneEmpty(fields[k])
    case Arr(items) => forall i :: 0 <= i < |items| ==> !IsEmpty(items[i]) && NoneEmpty(items[i])
    case _ => true
  }

  lemma {:induction false} CleanRemovesEmpty(cfg: Config, v: Value)
    requires cfg.removeEmpty
    ensures NoneEmpty(Clean(cfg, v))
    decreases v
  {
    match v
    case Obj(fields) =>
      forall k | k in fields && !Vanishes(cfg, fields[k])
        ensures !IsEmpty(Clean(cfg, fields[k])) && NoneEmpty(Clean(cfg, fields[k]))
      {
        CleanRemovesEmpty(cfg, fields[k]);
      }
    case Arr(items) =>
      CleanItemsRemoveEmpty(cfg, items);
      assert Clean(cfg, v) == Arr(CleanItems(cfg, items));
    case _ =>
  }

  lemma {:induction false} CleanItemsRemoveEmpty(cfg: Config, items: seq<Value>)
    requires cfg.removeEmpty
    ensures NoneEmpty(Arr(CleanItems(cfg, items)))
    decreases items
  {
    if items != [] {
      var n := |items| - 1;
      var front, r := CleanItems(cfg, items[..n]), CleanItems(cfg, items);
      CleanItemsRemoveEmpty(cfg, items[..n]);
      CleanRemovesEmpty(cfg, items[n]);
      forall i | 0 <= i < |r| ensures !IsEmpty(r[i]) && NoneEmpty(r[i]) {
        if i < |front| {
          assert r[i] == Arr(front).items[i];
        } else {
          assert r[i] == Clean(cfg, items[n]);
        }
      }
    }
  }

  // ---------------------------------------------------------------------------------------------
  // Cleaning twice
  // ---------------------------------------------------------------------------------------------

  lemma CleanStringIdempotent(cfg: Config, s: string)
    ensures CleanString(cfg, CleanString(cfg, s)) == CleanString(cfg, s)
  {
    var trimmed := if cfg.trimSpace then Trim(s) else s;
    var collapsed := if cfg.normalizeSpace then Collapse(trimmed) else trimmed;
    TrimLeftTrims(s);
    TrimRightTrims(TrimLeft(s));
    CollapseCollapses(trimmed);
    FoldKeeps(cfg, collapsed);
    var cleaned := Fold(cfg, collapsed);
    if cfg.trimSpace {
      assert Trimmed(collapsed);
      assert Trim(cleaned) == cleaned;
    }
    if cfg.normalizeSpace {
      CollapsedStays(cleaned);
    }
  }

  lemma CleanStays(cfg: Config, v: Value)
    requires !Vanishes(cfg, v)
    ensures !Vanishes(cfg, Clean(cfg, v))
  {
    if v.Str? {
      CleanStringIdempotent(cfg, v.s);
    }
  }

  /** Cleaning a cleaned value changes nothing, for every combination of flags and every nesting. */
  lemma {:induction false} CleanIdempotent(cfg: Config, v: Value)
    ensures Clean(cfg, Clean(cfg, v)) == Clean(cfg, v)
    decreases v
  {
    match v
    case Str(s) => CleanStringIdempotent(cfg, s);
    case Obj(fields) =>
      forall k | k in fields && !Vanishes(cfg, fields[k])
        ensures !Vanishes(cfg, Clean(cfg, fields[k])) && Clean(cfg, Clean(cfg, fields[k])) == Clean(cfg, fields[k])
      {
        CleanStays(cfg, fields[k]);
        CleanIdempotent(cfg, fields[k]);
      }
      assert Clean(cfg, Clean(cfg, v)).fields == Clean(cfg, v).fields;
    case Arr(items) => CleanItemsIdempotent(cfg, items);
    case _ =>
  }

  lemma {:induction false} CleanItemsIdempotent(cfg: Config, items: seq<Value>)
    ensures CleanItems(cfg, CleanItems(cfg, items)) == CleanItems(cfg, items)
    decreases items
  {
    if items != [] {
      var n := |items| - 1;
      CleanItemsIdempotent(cfg, items[..n]);
      if !Vanishes(cfg, items[n]) {
        CleanStays(cfg, items[n]);
        CleanIdempotent(cfg, items[n]);
        var front := CleanItems(cfg, items[..n]);
        assert (front + [Clean(cfg, items[n])])[..|front|] == front;
      } else {
        assert CleanItems(cfg, items) == CleanItems(cfg, items[..n]);
      }
    }
  }
}
