/** JSON flattening in crawler/extractor/json.go. */
module Flattening {
  import opened Wrappers
  import opened Values

  datatype Config = Config(flattenArrays: bool, maxDepth: int)

  datatype Step = Key(k: string) | Index(i: nat)

  // ---------------------------------------------------------------------------------------------
  // Key strings
  // ---------------------------------------------------------------------------------------------

  function Digit(d: nat): char
    requires d < 10
  {
    '0' + d as char
  }

  function DigitValue(c: char): nat {
    if '0' <= c <= '9' then (c - '0') as nat else 0
  }

  /** %d */
  function Decimal(n: nat): string {
    if n < 10 then [Digit(n)] else Decimal(n / 10) + [Digit(n % 10)]
  }

  /** Digits, without leading zeros; NumberDecimal shows that they spell the number. */
  lemma {:induction false} DecimalStarts(n: nat)
    ensures Decimal(n) != "" && (n >= 10 ==> Decimal(n)[0] != '0')
  {
    if n >= 10 {
      DecimalStarts(n / 10);
      if n < 100 {
        assert Decimal(n / 10) == [Digit(n / 10)];
      }
      assert Decimal(n)[0] == Decimal(n / 10)[0];
    }
  }

  function Number(s: string): nat {
    if s == "" then 0 else Number(s[..|s| - 1]) * 10 + DigitValue(s[|s| - 1])
  }

  /** The key that flatten and its loops pass down for one more step. */
  function Extend(prefix: string, step: Step): string {
    match step
    case Key(k) => if prefix != "" then prefix + "." + k else k
    case Index(i) => prefix + "[" + Decimal(i) + "]"
  }

  function ExtendAll(prefix: string, p: seq<Step>): string
    decreases |p|
  {
    if p == [] then prefix else ExtendAll(Extend(prefix, p[0]), p[1..])
  }

  /** The key of the leaf at `p`. */
  function Render(p: seq<Step>): string {
    ExtendAll("", p)
  }

  // ---------------------------------------------------------------------------------------------
  // The walk
  // ---------------------------------------------------------------------------------------------

  /** Where one step leads, if flattening takes it. */
  function Child(cfg: Config, v: Value, step: Step): Option<Value> {
    match step
    case Key(k) => if v.Obj? && k in v.fields then Some(v.fields[k]) else None
    case Index(i) => if cfg.flattenArrays && v.Arr? && i < |v.items| then Some(v.items[i]) else None
  }

  function Descend(cfg: Config, v: Value, p: seq<Step>): Option<Value>
    decreases |p|
  {
    if p == [] then Some(v)
    else if Child(cfg, v, p[0]).Some? then Descend(cfg, Child(cfg, v, p[0]).value, p[1..])
    else None
  }

  /** What a path selects in a document, whatever flattening visits. */
  function Lookup(v: Value, p: seq<Step>): Option<Value>
    decreases |p|
  {
    if p == [] then Some(v)
    else
      match p[0]
      case Key(k) => if v.Obj? && k in v.fields then Lookup(v.fields[k], p[1..]) else None
      case Index(i) => if v.Arr? && i < |v.items| then Lookup(v.items[i], p[1..]) else None
  }

  predicate IsLeaf(cfg: Config, v: Value) {
    !v.Obj? && !(v.Arr? && cfg.flattenArrays)
  }

  /** `p` leads to the leaf `x` of `v`, and is neither the root nor as deep as MaxDepth. */
  predicate LeafAt(cfg: Config, v: Value, p: seq<Step>, x: Value) {
    Descend(cfg, v, p) == Some(x) && IsLeaf(cfg, x) && 0 < |p| < cfg.maxDepth
  }

  lemma {:induction false} DescendIsLookup(cfg: Config, v: Value, p: seq<Step>)
    ensures Descend(cfg, v, p)
         == if cfg.flattenArrays || forall i :: 0 <= i < |p| ==> p[i].Key? then Lookup(v, p) else None
    decreases |p|
  {
    if p != [] {
      assert (forall i :: 0 <= i < |p| ==> p[i].Key?)
        <==> p[0].Key? && forall i :: 0 <= i < |p[1..]| ==> p[1..][i].Key?;
      if Child(cfg, v, p[0]).Some? {
        DescendIsLookup(cfg, Child(cfg, v, p[0]).value, p[1..]);
      }
    }
  }

  /**
   The leaves are the values in the document that are not objects, arrays included only if FlattenArrays is off, in
   which case nothing inside an array is a leaf.
   */
  lemma LeavesAreValues(cfg: Config, d: Value, p: seq<Step>, x: Value)
    ensures LeafAt(cfg, d, p, x) <==>
            && Lookup(d, p) == Some(x) && 0 < |p| < cfg.maxDepth && !x.Obj?
            && if cfg.flattenArrays then !x.Arr? else forall i :: 0 <= i < |p| ==> p[i].Key?
  {
    DescendIsLookup(cfg, d, p);
  }

  /** Every assignment the walk may make to the result: with colliding keys, Go's map order decides which is last. */
  function Written(cfg: Config, prefix: string, v: Value, depth: nat): set<(string, Value)>
    decreases v
  {
    var next := depth + 1;
    if depth >= cfg.maxDepth then {}
    else if v.Obj? then
      set k, w | k in v.fields && w in Written(cfg, Extend(prefix, Key(k)), v.fields[k], next) :: w
    else if v.Arr? && cfg.flattenArrays then
      set i, w | 0 <= i < |v.items| && w in Written(cfg, Extend(prefix, Index(i)), v.items[i], next) :: w
    else if prefix != "" then {(prefix, v)} else {}
  }

  ghost function KeysOf(w: set<(string, Value)>): set<string> {
    set e | e in w :: e.0
  }

  /** `after` is `before` overwritten by the assignments in some order. */
  ghost predicate Merged(before: map<string, Value>, after: map<string, Value>, w: set<(string, Value)>) {
    && after.Keys == before.Keys + KeysOf(w)
    && forall k :: k in after ==> if k in KeysOf(w) then (k, after[k]) in w else after[k] == before[k]
  }

  lemma MergedTransitive(m0: map<string, Value>, m1: map<string, Value>, m2: map<string, Value>,
                         w1: set<(string, Value)>, w2: set<(string, Value)>)
    requires Merged(m0, m1, w1) && Merged(m1, m2, w2)
    ensures Merged(m0, m2, w1 + w2)
  {
    assert KeysOf(w1 + w2) == KeysOf(w1) + KeysOf(w2) by {
      forall k | k in KeysOf(w1) + KeysOf(w2) ensures k in KeysOf(w1 + w2) {
        if k in KeysOf(w1) {
          var e :| e in w1 && e.0 == k;
          assert e in w1 + w2;
        } else {
          var e :| e in w2 && e.0 == k;
          assert e in w1 + w2;
        }
      }
    }
  }

  function WrittenFields(cfg: Config, prefix: string, v: Value, depth: nat, keys: set<string>): set<(string, Value)>
    requires v.Obj?
  {
    var next := depth + 1;
    set k, w | k in keys && k in v.fields && w in Written(cfg, Extend(prefix, Key(k)), v.fields[k], next) :: w
  }

  function WrittenItems(cfg: Config, prefix: string, v: Value, depth: nat, n: nat): set<(string, Value)>
    requires v.Arr? && n <= |v.items|
  {
    var next := depth + 1;
    set i, w | 0 <= i < n && w in Written(cfg, Extend(prefix, Index(i)), v.items[i], next) :: w
  }

  lemma WrittenFieldsGrow(cfg: Config, prefix: string, v: Value, depth: nat, keys: set<string>, key: string)
    requires v.Obj? && key in v.fields
    ensures WrittenFields(cfg, prefix, v, depth, keys + {key})
         == WrittenFields(cfg, prefix, v, depth, keys)
          + Written(cfg, Extend(prefix, Key(key)), v.fields[key], depth + 1)
  {
    var one := Written(cfg, Extend(prefix, Key(key)), v.fields[key], depth + 1);
    forall w | w in one ensures w in WrittenFields(cfg, prefix, v, depth, keys + {key}) {
      assert key in keys + {key} && key in v.fields;
    }
    forall w | w in WrittenFields(cfg, prefix, v, depth, keys + {key})
      ensures w in WrittenFields(cfg, prefix, v, depth, keys) + one
    {
      var k :| k in keys + {key} && k in v.fields && w in Written(cfg, Extend(prefix, Key(k)), v.fields[k], depth + 1);
      if k != key {
        assert k in keys;
      }
    }
  }

  lemma WrittenItemsGrow(cfg: Config, prefix: string, v: Value, depth: nat, n: nat)
    requires v.Arr? && n < |v.items|
    ensures WrittenItems(cfg, prefix, v, depth, n + 1)
         == WrittenItems(cfg, prefix, v, depth, n) + Written(cfg, Extend(prefix, Index(n)), v.items[n], depth + 1)
  {
    var one := Written(cfg, Extend(prefix, Index(n)), v.items[n], depth + 1);
    forall w | w in WrittenItems(cfg, prefix, v, depth, n + 1)
      ensures w in WrittenItems(cfg, prefix, v, depth, n) + one
    {
      var i :| 0 <= i < n + 1 && w in Written(cfg, Extend(prefix, Index(i)), v.items[i], depth + 1);
      if i != n {
        assert 0 <= i < n;
      }
    }
  }

  // ---------------------------------------------------------------------------------------------
  // The Go methods
  // ---------------------------------------------------------------------------------------------

  class Result {
    var m: map<string, Value>

    constructor ()
      ensures m == map[]
    {
      m := map[];
    }
  }

  method Flatten(cfg: Config, prefix: string, data: Value, result: Result, depth: nat)
    modifies result
    ensures Merged(old(result.m), result.m, Written(cfg, prefix, data, depth))
    decreases data
  {
    if depth >= cfg.maxDepth {
      return;
    }
    match data {
      case Obj(fields) =>
        var rest := fields.Keys;
        while rest != {}
          invariant rest <= fields.Keys
          invariant Merged(old(result.m), result.m, WrittenFields(cfg, prefix, data, depth, fields.Keys - rest))
        {
          var key :| key in rest;
          ghost var m1 := result.m;
          var newKey := key;
          if prefix != "" {
            newKey := prefix + "." + key;
          }
          Flatten(cfg, newKey, fields[key], result, depth + 1);
          ghost var w1 := WrittenFields(cfg, prefix, data, depth, fields.Keys - rest);
          ghost var w2 := Written(cfg, newKey, fields[key], depth + 1);
          MergedTransitive(old(result.m), m1, result.m, w1, w2);
          WrittenFieldsGrow(cfg, prefix, data, depth, fields.Keys - rest, key);
          assert fields.Keys - (rest - {key}) == fields.Keys - rest + {key};
          rest := rest - {key};
        }
        assert WrittenFields(cfg, prefix, data, depth, fields.Keys - {}) == Written(cfg, prefix, data, depth);
      case Arr(items) =>
        if cfg.flattenArrays {
          var i := 0;
          while i < |items|
            invariant 0 <= i <= |items|
            invariant Merged(old(result.m), result.m, WrittenItems(cfg, prefix, data, depth, i))
          {
            ghost var m1 := result.m;
            var newKey := prefix + "[" + Decimal(i) + "]";
            Flatten(cfg, newKey, items[i], result, depth + 1);
            ghost var w1 := WrittenItems(cfg, prefix, data, depth, i);
            ghost var w2 := Written(cfg, newKey, items[i], depth + 1);
            MergedTransitive(old(result.m), m1, result.m, w1, w2);
            WrittenItemsGrow(cfg, prefix, data, depth, i);
            i := i + 1;
          }
          assert WrittenItems(cfg, prefix, data, depth, |items|) == Written(cfg, prefix, data, depth);
        } else {
          if prefix != "" {
            result.m := result.m[prefix := data];
          }
        }
      case _ =>
        if prefix != "" {
          result.m := result.m[prefix := data];
        }
    }
  }

  method ExtractFlat(cfg: Config, data: Value) returns (flattened: map<string, Value>)
    ensures Merged(map[], flattened, Written(cfg, "", data, 0))
  {
    var result := new Result();
    Flatten(cfg, "", data, result, 0);
    flattened := result.m;
  }

  // ---------------------------------------------------------------------------------------------
  // What is written: the leaves, under their rendered paths
  // ---------------------------------------------------------------------------------------------

  lemma WriteComesFromChild(cfg: Config, prefix: string, v: Value, depth: nat, w: (string, Value)) returns (step: Step)
    requires w in Written(cfg, prefix, v, depth) && !IsLeaf(cfg, v)
    ensures Child(cfg, v, step).Some?
    ensures w in Written(cfg, Extend(prefix, step), Child(cfg, v, step).value, depth + 1)
  {
    if v.Obj? {
      var k :| k in v.fields && w in Written(cfg, Extend(prefix, Key(k)), v.fields[k], depth + 1);
      step := Key(k);
    } else {
      var i :| 0 <= i < |v.items| && w in Written(cfg, Extend(prefix, Index(i)), v.items[i], depth + 1);
      step := Index(i);
    }
  }

  lemma ChildIsWritten(cfg: Config, prefix: string, v: Value, depth: nat, step: Step, w: (string, Value))
    requires depth < cfg.maxDepth && Child(cfg, v, step).Some?
    requires w in Written(cfg, Extend(prefix, step), Child(cfg, v, step).value, depth + 1)
    ensures w in Written(cfg, prefix, v, depth)
  {
    match step
    case Key(k) => assert k in v.fields;
    case Index(i) => assert w in Written(cfg, Extend(prefix, Index(i)), v.items[i], depth + 1);
  }

  /** A write below `prefix` is a leaf below `v`; holds for all keys. */
  lemma {:induction false} WriteIsLeaf(cfg: Config, prefix: string, v: Value, depth: nat, w: (string, Value))
    returns (q: seq<Step>)
    requires w in Written(cfg, prefix, v, depth)
    ensures Descend(cfg, v, q) == Some(w.1) && IsLeaf(cfg, w.1) && depth + |q| < cfg.maxDepth
    ensures ExtendAll(prefix, q) == w.0 != ""
    decreases cfg.maxDepth - depth
  {
    if IsLeaf(cfg, v) {
      q := [];
    } else {
      var step := WriteComesFromChild(cfg, prefix, v, depth, w);
      var q' := WriteIsLeaf(cfg, Extend(prefix, step), Child(cfg, v, step).value, depth + 1, w);
      q := [step] + q';
      assert q[1..] == q';
    }
  }

  lemma {:induction false} LeafIsWritten(cfg: Config, prefix: string, v: Value, depth: nat, q: seq<Step>, x: Value)
    requires Descend(cfg, v, q) == Some(x) && IsLeaf(cfg, x)
    requires depth + |q| < cfg.maxDepth && ExtendAll(prefix, q) != ""
    ensures (ExtendAll(prefix, q), x) in Written(cfg, prefix, v, depth)
    decreases |q|
  {
    if q != [] {
      LeafIsWritten(cfg, Extend(prefix, q[0]), Child(cfg, v, q[0]).value, depth + 1, q[1..], x);
      ChildIsWritten(cfg, prefix, v, depth, q[0], (ExtendAll(prefix, q), x));
    }
  }

  // ---------------------------------------------------------------------------------------------
  // Reading a key back
  // ---------------------------------------------------------------------------------------------

  predicate Delimiter(c: char) {
    c == '.' || c == '['
  }

  predicate DelimiterFree(k: string) {
    forall i :: 0 <= i < |k| ==> !Delimiter(k[i])
  }

  predicate DelimiterFreePath(p: seq<Step>) {
    forall i :: 0 <= i < |p| && p[i].Key? ==> DelimiterFree(p[i].k)
  }

  /** Paths that cannot be confused: no key contains the notation, and the first key is not empty. */
  predicate Readable(p: seq<Step>) {
    DelimiterFreePath(p) && (p != [] ==> p[0] != Key(""))
  }

  /** Up to the next character for which `stop` holds. */
  function Until(s: string, stop: char -> bool): (n: nat)
    ensures n <= |s|
    ensures forall i :: 0 <= i < n ==> !stop(s[i])
    ensures n < |s| ==> stop(s[n])
  {
    if s == "" || stop(s[0]) then 0 else 1 + Until(s[1..], stop)
  }

  /** The first ".name" or "[index]" of `s`, and what follows it. */
  function ParseSegment(s: string): (r: (Step, string))
    requires s != ""
    ensures r.0.Key? ==> DelimiterFree(r.0.k)
    ensures |r.1| < |s|
  {
    if s[0] == '[' then
      var n := Until(s[1..], c => c == ']');
      (Index(Number(s[1..][..n])), if n + 2 <= |s| then s[n + 2..] else "")
    else
      var n := Until(s[1..], c => Delimiter(c));
      (Key(s[1..][..n]), s[n + 1..])
  }

  /** A key as a sequence of ".name" and "[index]". */
  function ParseSegments(s: string): seq<Step>
    decreases |s|
  {
    if s == "" then [] else [ParseSegment(s).0] + ParseSegments(ParseSegment(s).1)
  }

  function Parse(key: string): seq<Step> {
    if key == "" then []
    else if key[0] == '[' then ParseSegments(key)
    else ParseSegments("." + key)
  }

  function Segment(step: Step): string {
    match step
    case Key(k) => "." + k
    case Index(i) => "[" + Decimal(i) + "]"
  }

  function Segments(p: seq<Step>): string {
    if p == [] then "" else Segment(p[0]) + Segments(p[1..])
  }

  lemma Associative(a: string, b: string, c: string)
    ensures a + b + c == a + (b + c)
  {
  }

  lemma ExtendIsSegment(prefix: string, step: Step)
    requires prefix != ""
    ensures Extend(prefix, step) == prefix + Segment(step) != ""
  {
    match step
    case Key(k) => Associative(prefix, ".", k);
    case Index(i) =>
      Associative(prefix, "[", Decimal(i));
      Associative(prefix, "[" + Decimal(i), "]");
  }

  lemma {:induction false} ExtendAllIsSegments(prefix: string, p: seq<Step>)
    requires prefix != ""
    ensures ExtendAll(prefix, p) == prefix + Segments(p)
    decreases |p|
  {
    if p == [] {
      assert prefix + "" == prefix;
    } else {
      ExtendIsSegment(prefix, p[0]);
      ExtendAllIsSegments(prefix + Segment(p[0]), p[1..]);
      Associative(prefix, Segment(p[0]), Segments(p[1..]));
    }
  }

  /** A rendered path is its segments, less the leading dot. */
  lemma RenderIsSegments(p: seq<Step>)
    requires p != [] && p[0] != Key("")
    ensures Render(p) != ""
    ensures Segments(p) == if p[0].Key? then "." + Render(p) else Render(p)
    ensures p[0].Key? ==> Render(p)[0] == p[0].k[0]
  {
    var first := Extend("", p[0]);
    assert first == if p[0].Key? then p[0].k else Segment(p[0]) by {
      assert "" + "[" == "[";
    }
    ExtendAllIsSegments(first, p[1..]);
    assert "." + (first + Segments(p[1..])) == "." + first + Segments(p[1..]);
  }

  lemma {:induction false} NumberDecimal(n: nat)
    ensures Number(Decimal(n)) == n
    ensures forall i :: 0 <= i < |Decimal(n)| ==> '0' <= Decimal(n)[i] <= '9'
  {
    if n < 10 {
      assert Decimal(n)[..0] == "";
    } else {
      NumberDecimal(n / 10);
      var s := Decimal(n);
      assert s[..|s| - 1] == Decimal(n / 10) && s[|s| - 1] == Digit(n % 10);
    }
  }

  /** The scan stops at the first stopping character. */
  lemma {:induction false} UntilStops(a: string, b: string, stop: char -> bool)
    requires forall i :: 0 <= i < |a| ==> !stop(a[i])
    requires b != "" ==> stop(b[0])
    ensures Until(a + b, stop) == |a|
  {
    assert forall i :: 0 <= i < |a| ==> (a + b)[i] == a[i];
    assert b != "" ==> (a + b)[|a|] == b[0];
  }

  lemma ParseKeySegment(k: string, tail: string)
    requires DelimiterFree(k) && (tail != "" ==> Delimiter(tail[0]))
    ensures ParseSegment("." + k + tail) == (Key(k), tail)
  {
    var s := "." + k + tail;
    assert s[0] == '.' && s[1..] == k + tail;
    UntilStops(k, tail, c => Delimiter(c));
    assert s[1..][..|k|] == k && s[|k| + 1..] == tail;
  }

  lemma ParseIndexSegment(i: nat, tail: string)
    ensures ParseSegment("[" + Decimal(i) + "]" + tail) == (Index(i), tail)
  {
    var d := Decimal(i);
    var s := "[" + d + "]" + tail;
    NumberDecimal(i);
    assert s[0] == '[' && s[1..] == d + ("]" + tail);
    UntilStops(d, "]" + tail, c => c == ']');
    assert s[1..][..|d|] == d && s[|d| + 2..] == tail;
  }

  lemma SegmentsStart(p: seq<Step>)
    ensures Segments(p) != "" ==> Delimiter(Segments(p)[0])
  {
    if p != [] {
      assert Segments(p)[0] == Segment(p[0])[0];
    }
  }

  lemma SegmentIsParsed(step: Step, tail: string)
    requires step.Key? ==> DelimiterFree(step.k)
    requires tail != "" ==> Delimiter(tail[0])
    ensures ParseSegment(Segment(step) + tail) == (step, tail)
  {
    match step
    case Key(k) => ParseKeySegment(k, tail);
    case Index(i) => ParseIndexSegment(i, tail);
  }

  lemma {:induction false} ParseSegmentsOf(p: seq<Step>)
    requires DelimiterFreePath(p)
    ensures ParseSegments(Segments(p)) == p
  {
    if p != [] {
      ParseSegmentsOf(p[1..]);
      SegmentsStart(p[1..]);
      SegmentIsParsed(p[0], Segments(p[1..]));
      assert p == [p[0]] + p[1..];
    }
  }

  lemma ReadableIsRead(p: seq<Step>)
    requires Readable(p)
    ensures Parse(Render(p)) == p
  {
    if p != [] {
      RenderIsSegments(p);
      ParseSegmentsOf(p);
      if p[0].Key? {
        assert !Delimiter(p[0].k[0]);
      } else {
        assert Segments(p)[0] == Segment(p[0])[0] == '[';
      }
    }
  }

  lemma DelimiterFreeCons(step: Step, p: seq<Step>)
    requires (step.Key? ==> DelimiterFree(step.k)) && DelimiterFreePath(p)
    ensures DelimiterFreePath([step] + p)
  {
  }

  lemma {:induction false} SegmentsReadAreDelimiterFree(s: string)
    ensures DelimiterFreePath(ParseSegments(s))
    decreases |s|
  {
    if s != "" {
      var (step, rest) := ParseSegment(s);
      SegmentsReadAreDelimiterFree(rest);
      DelimiterFreeCons(step, ParseSegments(rest));
    }
  }

  /** Empty keys at the front leave no trace in the key. */
  lemma {:induction false} ReadsNoLonger(p: seq<Step>)
    requires DelimiterFreePath(p)
    ensures |Parse(Render(p))| <= |p|
    ensures p != [] && p[0] == Key("") ==> |Parse(Render(p))| < |p|
  {
    if p != [] && p[0] == Key("") {
      assert Render(p) == Render(p[1..]);
      ReadsNoLonger(p[1..]);
    } else {
      ReadableIsRead(p);
    }
  }

  /** A key reads back as the path it was rendered from exactly when that path is readable. */
  lemma ParseRender(p: seq<Step>)
    ensures Parse(Render(p)) == p <==> Readable(p)
  {
    if Readable(p) {
      ReadableIsRead(p);
    } else if DelimiterFreePath(p) {
      ReadsNoLonger(p);
    } else {
      var key := Render(p);
      SegmentsReadAreDelimiterFree(key);
      SegmentsReadAreDelimiterFree("." + key);
    }
  }

  /** The leaves are the entries, each under its own key, and reading a key as a path leads to its value. */
  ghost predicate Faithful(cfg: Config, d: Value, flattened: map<string, Value>) {
    && (forall p, x :: LeafAt(cfg, d, p, x) ==> Render(p) in flattened && flattened[Render(p)] == x)
    && (forall p, x, q, y :: LeafAt(cfg, d, p, x) && LeafAt(cfg, d, q, y) && Render(p) == Render(q) ==> p == q)
    && (forall key :: key in flattened ==>
          LeafAt(cfg, d, Parse(key), flattened[key]) && Render(Parse(key)) == key)
  }

  ghost predicate LeavesAreReadable(cfg: Config, d: Value) {
    forall p, x :: LeafAt(cfg, d, p, x) ==> Readable(p)
  }

  lemma LeafIsEntry(cfg: Config, d: Value, flattened: map<string, Value>, p: seq<Step>, x: Value)
    requires Merged(map[], flattened, Written(cfg, "", d, 0)) && LeafAt(cfg, d, p, x) && Readable(p)
    ensures Render(p) in flattened && (Render(p), flattened[Render(p)]) in Written(cfg, "", d, 0)
  {
    RenderIsSegments(p);
    LeafIsWritten(cfg, "", d, 0, p, x);
    assert (Render(p), x).0 in KeysOf(Written(cfg, "", d, 0));
  }

  lemma WriteReadsBack(cfg: Config, d: Value, key: string, x: Value)
    requires LeavesAreReadable(cfg, d) && (key, x) in Written(cfg, "", d, 0)
    ensures LeafAt(cfg, d, Parse(key), x) && Render(Parse(key)) == key
  {
    var q := WriteIsLeaf(cfg, "", d, 0, (key, x));
    assert LeafAt(cfg, d, q, x);
    ParseRender(q);
  }

  lemma ReadableIsFaithful(cfg: Config, d: Value, flattened: map<string, Value>)
    requires Merged(map[], flattened, Written(cfg, "", d, 0)) && LeavesAreReadable(cfg, d)
    ensures Faithful(cfg, d, flattened)
  {
    forall p, x | LeafAt(cfg, d, p, x)
      ensures Render(p) in flattened && flattened[Render(p)] == x && Parse(Render(p)) == p
    {
      LeafIsEntry(cfg, d, flattened, p, x);
      WriteReadsBack(cfg, d, Render(p), flattened[Render(p)]);
      ParseRender(p);
    }
    forall key | key in flattened ensures LeafAt(cfg, d, Parse(key), flattened[key]) && Render(Parse(key)) == key {
      assert key in KeysOf(Written(cfg, "", d, 0));
      WriteReadsBack(cfg, d, key, flattened[key]);
    }
  }

  /**
   Whatever the map order, the flattened map is faithful exactly when every leaf above MaxDepth, the root aside,
   has a readable path.
   */
  lemma FlattenIsFaithful(cfg: Config, d: Value, flattened: map<string, Value>)
    requires Merged(map[], flattened, Written(cfg, "", d, 0))
    ensures Faithful(cfg, d, flattened) <==> LeavesAreReadable(cfg, d)
  {
    if LeavesAreReadable(cfg, d) {
      ReadableIsFaithful(cfg, d, flattened);
    } else if Faithful(cfg, d, flattened) {
      var p, x :| LeafAt(cfg, d, p, x) && !Readable(p);
      assert LeafAt(cfg, d, Parse(Render(p)), flattened[Render(p)]);
      ParseRender(p);
      assert false;
    }
  }

  /** No key of an object that the walk may visit contains a delimiter. */
  ghost predicate DelimiterFreeKeys(cfg: Config, v: Value)
    decreases v
  {
    && (v.Obj? ==> forall k :: k in v.fields ==> DelimiterFree(k) && DelimiterFreeKeys(cfg, v.fields[k]))
    && (v.Arr? && cfg.flattenArrays ==> forall i :: 0 <= i < |v.items| ==> DelimiterFreeKeys(cfg, v.items[i]))
  }

  lemma {:induction false} PathsAreDelimiterFree(cfg: Config, v: Value, p: seq<Step>)
    requires DelimiterFreeKeys(cfg, v) && Descend(cfg, v, p).Some?
    ensures DelimiterFreePath(p)
    decreases |p|
  {
    if p != [] {
      PathsAreDelimiterFree(cfg, Child(cfg, v, p[0]).value, p[1..]);
      forall i | 0 <= i < |p| && p[i].Key? ensures DelimiterFree(p[i].k) {
        if i > 0 {
          assert p[i] == p[1..][i - 1];
        }
      }
    }
  }

  /** In particular keys without delimiters suffice, empty ones included except at the root. */
  lemma DelimiterFreeIsReadable(cfg: Config, d: Value)
    requires DelimiterFreeKeys(cfg, d) && (d.Obj? ==> "" !in d.fields)
    ensures LeavesAreReadable(cfg, d)
  {
    forall p, x | LeafAt(cfg, d, p, x) ensures Readable(p) {
      PathsAreDelimiterFree(cfg, d, p);
    }
  }

  /** With unreadable paths two leaves can share a key, and which value survives is Go's map order. */
  lemma CollidingKeys()
    ensures var d := Obj(map["a" := Obj(map["b" := Num(1.0)]), "a.b" := Num(2.0)]);
            var cfg := Config(true, 10);
            && LeafAt(cfg, d, [Key("a"), Key("b")], Num(1.0)) && LeafAt(cfg, d, [Key("a.b")], Num(2.0))
            && Render([Key("a"), Key("b")]) == Render([Key("a.b")])
  {
    var d := Obj(map["a" := Obj(map["b" := Num(1.0)]), "a.b" := Num(2.0)]);
    var cfg := Config(true, 10);
    var p, q := [Key("a"), Key("b")], [Key("a.b")];
    assert p[1..] == [Key("b")] && p[1..][1..] == [] && q[1..] == [];
    assert Descend(cfg, d.fields["a"], [Key("b")]) == Some(Num(1.0));
    assert ExtendAll("a", [Key("b")]) == "a" + "." + "b";
  }
}
