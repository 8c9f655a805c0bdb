/** Document key compaction and expansion in crawler/compression/storage_optimizer.go. */
module Compaction {
  import opened Wrappers
  import opened Values

  // ---------------------------------------------------------------------------------------------
  // The two tables
  // ---------------------------------------------------------------------------------------------

  function CompactKey(key: string): Option<string> {
    match key
    case "task_id" => Some("tid")
    case "venue_id" => Some("vid")
    case "venue_name" => Some("vn")
    case "time_slot" => Some("ts")
    case "status" => Some("st")
    case "price" => Some("pr")
    case "available" => Some("av")
    case "capacity" => Some("cp")
    case "created_at" => Some("ca")
    case "updated_at" => Some("ua")
    case "crawled_at" => Some("cra")
    case "source" => Some("src")
    case "metadata" => Some("md")
    case "raw_data" => Some("rd")
    case "state_md5" => Some("sm5")
    case "error" => Some("err")
    case "result" => Some("res")
    case "data" => Some("d")
    case "parent_id" => Some("pid")
    case "retry_count" => Some("rc")
    case "max_retries" => Some("mr")
    case "priority" => Some("pri")
    case "type" => Some("typ")
    case "url" => Some("u")
    case "method" => Some("m")
    case "headers" => Some("h")
    case "body" => Some("b")
    case "cookies" => Some("ck")
    case _ => None
  }

  function ExpandKey(key: string): Option<string> {
    match key
    case "tid" => Some("task_id")
    case "vid" => Some("venue_id")
    case "vn" => Some("venue_name")
    case "ts" => Some("time_slot")
    case "st" => Some("status")
    case "pr" => Some("price")
    case "av" => Some("available")
    case "cp" => Some("capacity")
    case "ca" => Some("created_at")
    case "ua" => Some("updated_at")
    case "cra" => Some("crawled_at")
    case "src" => Some("source")
    case "md" => Some("metadata")
    case "rd" => Some("raw_data")
    case "sm5" => Some("state_md5")
    case "err" => Some("error")
    case "res" => Some("result")
    case "d" => Some("data")
    case "pid" => Some("parent_id")
    case "rc" => Some("retry_count")
    case "mr" => Some("max_retries")
    case "pri" => Some("priority")
    case "typ" => Some("type")
    case "u" => Some("url")
    case "m" => Some("method")
    case "h" => Some("headers")
    case "b" => Some("body")
    case "ck" => Some("cookies")
    case _ => None
  }

  lemma CompactThenExpand(key: string)
    requires CompactKey(key).Some?
    ensures ExpandKey(CompactKey(key).value) == Some(key)
  {
  }

  lemma ExpandThenCompact(key: string)
    requires ExpandKey(key).Some?
    ensures CompactKey(ExpandKey(key).value) == Some(key)
  {
  }

  /** The keys that have a code; each code is an abbreviation: shorter, with the same first letter. */
  lemma CodesAbbreviate(key: string)
    ensures CompactKey(key).Some? <==> key in {
      "task_id", "venue_id", "venue_name", "time_slot", "status", "price", "available", "capacity", "created_at",
      "updated_at", "crawled_at", "source", "metadata", "raw_data", "state_md5", "error", "result", "data",
      "parent_id", "retry_count", "max_retries", "priority", "type", "url", "method", "headers", "body", "cookies"}
    ensures CompactKey(key).Some? ==> var code := CompactKey(key).value; 0 < |code| < |key| && code[0] == key[0]
  {
  }

  lemma CodesAreDistinct(a: string, b: string)
    requires CompactKey(a).Some? && CompactKey(a) == CompactKey(b)
    ensures a == b
  {
    CompactThenExpand(a);
    CompactThenExpand(b);
  }

  const MARK: string := "_cpt"

  function Short(key: string): string {
    if CompactKey(key).Some? then CompactKey(key).value else key
  }

  function Full(key: string): string {
    if ExpandKey(key).Some? then ExpandKey(key).value else key
  }

  /** How keys are renamed in either direction, which keys are short codes, and the key of the mark. */
  datatype Names = Names(short: string -> string, full: string -> string, code: string -> bool, mark: string)

  const TABLES: Names := Names(k => Short(k), k => Full(k), k => ExpandKey(k).Some?, MARK)

  /**
   Keys that are no codes come back as themselves; expansion never leaves a code; and neither direction makes a
   mark out of another key.
   */
  ghost predicate Sound(n: Names) {
    && (forall k :: !n.code(k) ==> n.full(n.short(k)) == k)
    && (forall k :: !n.code(n.full(k)))
    && (forall k :: n.full(k) == n.mark <==> k == n.mark)
    && (forall k :: n.short(k) == n.mark <==> k == n.mark)
  }

  lemma ShortComesBack(key: string)
    requires ExpandKey(key).None?
    ensures Full(Short(key)) == key
  {
    if CompactKey(key).Some? {
      CompactThenExpand(key);
    }
  }

  lemma FullIsNoCode(key: string)
    ensures ExpandKey(Full(key)).None?
  {
  }

  lemma MarkIsKept(key: string)
    ensures Full(key) == MARK <==> key == MARK
    ensures Short(key) == MARK <==> key == MARK
  {
  }

  lemma TablesAreSound()
    ensures Sound(TABLES)
  {
    var n := TABLES;
    forall k ensures !n.code(k) ==> n.full(n.short(k)) == k {
      if ExpandKey(k).None? {
        ShortComesBack(k);
      }
    }
    forall k ensures !n.code(n.full(k)) {
      FullIsNoCode(k);
    }
    forall k ensures (n.full(k) == n.mark <==> k == n.mark) && (n.short(k) == n.mark <==> k == n.mark) {
      MarkIsKept(k);
    }
  }

  // ---------------------------------------------------------------------------------------------
  // What the two transformations may return.  When two keys of a map get the same name, Go's map order decides
  // which value stays; the relations allow either.
  // ---------------------------------------------------------------------------------------------

  ghost predicate Compacted(n: Names, d: Value, c: Value)
    decreases d, 0
  {
    && d.Obj? && c.Obj?
    && c.fields.Keys == (set k | k in d.fields :: n.short(k)) + {n.mark}
    && c.fields[n.mark] == Bool(true)
    && forall ck :: ck in c.fields && ck != n.mark ==>
         exists k :: k in d.fields && n.short(k) == ck && CompactedValue(n, d.fields[k], c.fields[ck])
  }

  /** Maps and the maps directly inside an array are visited; arrays inside arrays are not. */
  ghost predicate CompactedValue(n: Names, v: Value, w: Value)
    decreases v, 1
  {
    match v
    case Obj(_) => Compacted(n, v, w)
    case Arr(items) =>
      && w.Arr? && |w.items| == |items|
      && forall i :: 0 <= i < |items| ==> CompactedItem(n, items[i], w.items[i])
    case _ => w == v
  }

  ghost predicate CompactedItem(n: Names, v: Value, w: Value)
    decreases v, 1
  {
    if v.Obj? then Compacted(n, v, w) else w == v
  }

  ghost predicate Expanded(n: Names, c: Value, e: Value)
    decreases c, 0
  {
    && c.Obj? && e.Obj?
    && e.fields.Keys == (set k | k in c.fields && k != n.mark :: n.full(k))
    && forall ek :: ek in e.fields ==>
         exists k :: k in c.fields && k != n.mark && n.full(k) == ek && ExpandedValue(n, c.fields[k], e.fields[ek])
  }

  ghost predicate ExpandedValue(n: Names, v: Value, w: Value)
    decreases v, 1
  {
    match v
    case Obj(_) => Expanded(n, v, w)
    case Arr(items) =>
      && w.Arr? && |w.items| == |items|
      && forall i :: 0 <= i < |items| ==> ExpandedItem(n, items[i], w.items[i])
    case _ => w == v
  }

  ghost predicate ExpandedItem(n: Names, v: Value, w: Value)
    decreases v, 1
  {
    if v.Obj? then Expanded(n, v, w) else w == v
  }

  // ---------------------------------------------------------------------------------------------
  // What can be seen of the result alone, and of its keys
  // ---------------------------------------------------------------------------------------------

  /** A visited map of a compacted document: marked, and without a key that has a code. */
  ghost predicate Packed(c: Value)
    decreases c, 0
  {
    && c.Obj?
    && MARK in c.fields && c.fields[MARK] == Bool(true)
    && forall k :: k in c.fields ==> CompactKey(k).None? && PackedValue(c.fields[k])
  }

  ghost predicate PackedValue(w: Value)
    decreases w, 1
  {
    match w
    case Obj(_) => Packed(w)
    case Arr(items) => forall i :: 0 <= i < |items| && items[i].Obj? ==> Packed(items[i])
    case _ => true
  }

  /** A visited map of an expanded document: unmarked, and without a key that is a code. */
  ghost predicate Unpacked(e: Value)
    decreases e, 0
  {
    && e.Obj? && MARK !in e.fields
    && forall k :: k in e.fields ==> ExpandKey(k).None? && UnpackedValue(e.fields[k])
  }

  ghost predicate UnpackedValue(w: Value)
    decreases w, 1
  {
    match w
    case Obj(_) => Unpacked(w)
    case Arr(items) => forall i :: 0 <= i < |items| && items[i].Obj? ==> Unpacked(items[i])
    case _ => true
  }

  /** Every key with a code is renamed to it, and every other key stays. */
  ghost predicate KeysRenamed(name: string -> Option<string>, before: Value, after: Value)
    requires before.Obj? && after.Obj?
  {
    forall k :: k in before.fields && k != MARK ==>
      match name(k)
      case Some(renamed) => renamed in after.fields && k !in after.fields
      case None => k in after.fields
  }

  lemma ShortIsNoName(key: string)
    ensures CompactKey(Short(key)).None?
  {
    if CompactKey(key).Some? {
      CompactThenExpand(key);
    }
  }

  lemma MarkHasNoName()
    ensures CompactKey(MARK).None? && ExpandKey(MARK).None?
  {
  }

  lemma {:induction false} CompactedIsPacked(d: Value, c: Value)
    requires Compacted(TABLES, d, c)
    ensures Packed(c)
    decreases d, 0
  {
    MarkHasNoName();
    forall ck | ck in c.fields && ck != MARK ensures CompactKey(ck).None? && PackedValue(c.fields[ck]) {
      var k :| k in d.fields && TABLES.short(k) == ck && CompactedValue(TABLES, d.fields[k], c.fields[ck]);
      ShortIsNoName(k);
      CompactedValueIsPacked(d.fields[k], c.fields[ck]);
    }
  }

  lemma {:induction false} CompactedValueIsPacked(v: Value, w: Value)
    requires CompactedValue(TABLES, v, w)
    ensures PackedValue(w)
    decreases v, 1
  {
    match v
    case Obj(_) => CompactedIsPacked(v, w);
    case Arr(items) =>
      forall i | 0 <= i < |items| && w.items[i].Obj? ensures Packed(w.items[i]) {
        assert CompactedItem(TABLES, items[i], w.items[i]);
        CompactedIsPacked(items[i], w.items[i]);
      }
    case _ =>
  }

  lemma {:induction false} ExpandedIsUnpacked(c: Value, e: Value)
    requires Expanded(TABLES, c, e)
    ensures Unpacked(e)
    decreases c, 0
  {
    forall ek | ek in e.fields ensures ExpandKey(ek).None? && ek != MARK && UnpackedValue(e.fields[ek]) {
      var k :| k in c.fields && k != MARK && TABLES.full(k) == ek && ExpandedValue(TABLES, c.fields[k], e.fields[ek]);
      FullIsNoCode(k);
      MarkIsKept(k);
      ExpandedValueIsUnpacked(c.fields[k], e.fields[ek]);
    }
  }

  lemma {:induction false} ExpandedValueIsUnpacked(v: Value, w: Value)
    requires ExpandedValue(TABLES, v, w)
    ensures UnpackedValue(w)
    decreases v, 1
  {
    match v
    case Obj(_) => ExpandedIsUnpacked(v, w);
    case Arr(items) =>
      forall i | 0 <= i < |items| && w.items[i].Obj? ensures Unpacked(w.items[i]) {
        assert ExpandedItem(TABLES, items[i], w.items[i]);
        ExpandedIsUnpacked(items[i], w.items[i]);
      }
    case _ =>
  }

  lemma CompactedRenames(d: Value, c: Value)
    requires Compacted(TABLES, d, c)
    ensures KeysRenamed(k => CompactKey(k), d, c)
  {
    CompactedIsPacked(d, c);
    forall k | k in d.fields ensures Short(k) in c.fields {
      assert TABLES.short(k) in c.fields;
    }
  }

  lemma ExpandedRenames(c: Value, e: Value)
    requires Expanded(TABLES, c, e)
    ensures KeysRenamed(k => ExpandKey(k), c, e)
  {
    ExpandedIsUnpacked(c, e);
    forall k | k in c.fields && k != MARK ensures Full(k) in e.fields {
      assert TABLES.full(k) in e.fields;
    }
  }

  // ---------------------------------------------------------------------------------------------
  // The Go methods
  // ---------------------------------------------------------------------------------------------

  method CompactItems(items: seq<Value>) returns (arr: seq<Value>)
    ensures |arr| == |items| && forall i :: 0 <= i < |items| ==> CompactedItem(TABLES, items[i], arr[i])
    decreases items, 0
  {
    arr := [];
    for i := 0 to |items|
      invariant |arr| == i && forall j :: 0 <= j < i ==> CompactedItem(TABLES, items[j], arr[j])
    {
      if items[i].Obj? {
        var m := CompactDocumentKeys(items[i]);
        arr := arr + [m];
      } else {
        arr := arr + [items[i]];
      }
    }
  }

  /** The switch on the value's type. */
  method CompactValue(value: Value) returns (w: Value)
    ensures CompactedValue(TABLES, value, w)
    decreases value, 1
  {
    match value {
      case Obj(_) =>
        w := CompactDocumentKeys(value);
      case Arr(items) =>
        var arr := CompactItems(items);
        w := Arr(arr);
      case _ =>
        w := value;
    }
  }

  method CompactDocumentKeys(doc: Value) returns (compacted: Value)
    requires doc.Obj?
    ensures Compacted(TABLES, doc, compacted)
    ensures Packed(compacted)
    ensures forall k :: k in doc.fields ==>
              match CompactKey(k)
              case Some(code) => code in compacted.fields && k !in compacted.fields
              case None => k in compacted.fields
    decreases doc, 0
  {
    var result: map<string, Value> := map[];
    var rest := doc.fields.Keys;
    while rest != {}
      invariant rest <= doc.fields.Keys
      invariant result.Keys == set k | k in doc.fields && k !in rest :: TABLES.short(k)
      invariant forall ck :: ck in result ==>
                  exists k ::
                    k in doc.fields && TABLES.short(k) == ck && CompactedValue(TABLES, doc.fields[k], result[ck])
    {
      var key :| key in rest;
      var value := doc.fields[key];
      var compactKey := TABLES.short(key);
      var w := CompactValue(value);
      result := result[compactKey := w];
      assert CompactedValue(TABLES, doc.fields[key], result[compactKey]);
      rest := rest - {key};
    }
    compacted := Obj(result[MARK := Bool(true)]);
    CompactedIsPacked(doc, compacted);
    CompactedRenames(doc, compacted);
  }

  method ExpandItems(items: seq<Value>) returns (arr: seq<Value>)
    ensures |arr| == |items| && forall i :: 0 <= i < |items| ==> ExpandedItem(TABLES, items[i], arr[i])
    decreases items, 0
  {
    arr := [];
    for i := 0 to |items|
      invariant |arr| == i && forall j :: 0 <= j < i ==> ExpandedItem(TABLES, items[j], arr[j])
    {
      if items[i].Obj? {
        var m := ExpandDocumentKeys(items[i]);
        arr := arr + [m];
      } else {
        arr := arr + [items[i]];
      }
    }
  }

  /** The switch on the value's type. */
  method ExpandValue(value: Value) returns (w: Value)
    ensures ExpandedValue(TABLES, value, w)
    decreases value, 1
  {
    match value {
      case Obj(_) =>
        w := ExpandDocumentKeys(value);
      case Arr(items) =>
        var arr := ExpandItems(items);
        w := Arr(arr);
      case _ =>
        w := value;
    }
  }

  method ExpandDocumentKeys(doc: Value) returns (expanded: Value)
    requires doc.Obj?
    ensures Expanded(TABLES, doc, expanded)
    ensures Unpacked(expanded)
    ensures forall k :: k in doc.fields && k != MARK ==>
              match ExpandKey(k)
              case Some(full) => full in expanded.fields && k !in expanded.fields
              case None => k in expanded.fields
    decreases doc, 0
  {
    var result: map<string, Value> := map[];
    var rest := doc.fields.Keys;
    while rest != {}
      invariant rest <= doc.fields.Keys
      invariant result.Keys == set k | k in doc.fields && k !in rest && k != MARK :: TABLES.full(k)
      invariant forall ek :: ek in result ==>
                  exists k :: k in doc.fields && k != MARK && TABLES.full(k) == ek
                              && ExpandedValue(TABLES, doc.fields[k], result[ek])
    {
      var key :| key in rest;
      rest := rest - {key};
      if key != MARK {
        var value := doc.fields[key];
        var expandedKey := TABLES.full(key);
        var w := ExpandValue(value);
        result := result[expandedKey := w];
        assert ExpandedValue(TABLES, doc.fields[key], result[expandedKey]);
      }
    }
    expanded := Obj(result);
    ExpandedIsUnpacked(doc, expanded);
    ExpandedRenames(doc, expanded);
  }

  // ---------------------------------------------------------------------------------------------
  // Round trip
  // ---------------------------------------------------------------------------------------------

  /** No visited map has a key that is a short code or the mark. */
  ghost predicate Clean(n: Names, d: Value)
    decreases d, 0
  {
    && d.Obj?
    && forall k :: k in d.fields ==> !n.code(k) && k != n.mark && CleanValue(n, d.fields[k])
  }

  ghost predicate CleanValue(n: Names, v: Value)
    decreases v, 1
  {
    match v
    case Obj(_) => Clean(n, v)
    case Arr(items) => forall i :: 0 <= i < |items| && items[i].Obj? ==> Clean(n, items[i])
    case _ => true
  }

  ghost predicate CleanKeys(n: Names, d: Value)
    requires d.Obj?
  {
    forall k :: k in d.fields ==> !n.code(k) && k != n.mark
  }

  lemma KeyComesBack(n: Names, d: Value, c: Value, e: Value, k: string)
    requires Sound(n) && Compacted(n, d, c) && Expanded(n, c, e) && CleanKeys(n, d) && k in d.fields
    ensures k in e.fields
  {
    assert n.short(k) in c.fields && n.full(n.short(k)) == k;
  }

  lemma KeyCameFrom(n: Names, d: Value, c: Value, e: Value, k: string)
    requires Sound(n) && Compacted(n, d, c) && Expanded(n, c, e) && CleanKeys(n, d) && k in e.fields
    ensures k in d.fields
  {
    var ck :| ck in c.fields && ck != n.mark && n.full(ck) == k && ExpandedValue(n, c.fields[ck], e.fields[k]);
    var k' :| k' in d.fields && n.short(k') == ck && CompactedValue(n, d.fields[k'], c.fields[ck]);
  }

  lemma AllComeBack(n: Names, d: Value, c: Value, e: Value)
    requires Sound(n) && Compacted(n, d, c) && Expanded(n, c, e) && CleanKeys(n, d)
    ensures d.fields.Keys <= e.fields.Keys
  {
    forall k | k in d.fields ensures k in e.fields {
      KeyComesBack(n, d, c, e, k);
    }
  }

  lemma AllCameFrom(n: Names, d: Value, c: Value, e: Value)
    requires Sound(n) && Compacted(n, d, c) && Expanded(n, c, e) && CleanKeys(n, d)
    ensures e.fields.Keys <= d.fields.Keys
  {
    forall k | k in e.fields ensures k in d.fields {
      KeyCameFrom(n, d, c, e, k);
    }
  }

  lemma KeysComeBack(n: Names, d: Value, c: Value, e: Value)
    requires Sound(n) && Compacted(n, d, c) && Expanded(n, c, e) && CleanKeys(n, d)
    ensures e.fields.Keys == d.fields.Keys
  {
    AllComeBack(n, d, c, e);
    AllCameFrom(n, d, c, e);
  }

  /** With clean keys each value goes through its own compacted value. */
  lemma ValueBetween(n: Names, d: Value, c: Value, e: Value, k: string) returns (w: Value)
    requires Sound(n) && Compacted(n, d, c) && Expanded(n, c, e) && CleanKeys(n, d)
    requires k in d.fields && k in e.fields
    ensures CompactedValue(n, d.fields[k], w) && ExpandedValue(n, w, e.fields[k])
  {
    var ck :| ck in c.fields && ck != n.mark && n.full(ck) == k && ExpandedValue(n, c.fields[ck], e.fields[k]);
    var k' :| k' in d.fields && n.short(k') == ck && CompactedValue(n, d.fields[k'], c.fields[ck]);
    assert k' == k;
    w := c.fields[ck];
  }

  lemma UncleanKeyIsGone(n: Names, d: Value, c: Value, e: Value)
    requires Sound(n) && Compacted(n, d, c) && Expanded(n, c, e) && !CleanKeys(n, d)
    ensures e != d
  {
    forall ek | ek in e.fields ensures !n.code(ek) && ek != n.mark {
      var ck :| ck in c.fields && ck != n.mark && n.full(ck) == ek && ExpandedValue(n, c.fields[ck], e.fields[ek]);
    }
    var k :| k in d.fields && (n.code(k) || k == n.mark);
  }

  lemma SameExactlyIfClean(n: Names, d: Value, e: Value)
    requires d.Obj? && e.Obj? && e.fields.Keys == d.fields.Keys && CleanKeys(n, d)
    requires forall k :: k in d.fields ==> (e.fields[k] == d.fields[k] <==> CleanValue(n, d.fields[k]))
    ensures e == d <==> Clean(n, d)
  {
    if Clean(n, d) {
      assert e.fields == d.fields;
    }
  }

  lemma {:induction false} RoundTripOf(n: Names, d: Value, c: Value, e: Value)
    requires Sound(n) && Compacted(n, d, c) && Expanded(n, c, e)
    ensures e == d <==> Clean(n, d)
    decreases d, 0
  {
    if CleanKeys(n, d) {
      KeysComeBack(n, d, c, e);
      forall k | k in d.fields ensures e.fields[k] == d.fields[k] <==> CleanValue(n, d.fields[k]) {
        var w := ValueBetween(n, d, c, e, k);
        ValueRoundTrip(n, d.fields[k], w, e.fields[k]);
      }
      SameExactlyIfClean(n, d, e);
    } else {
      UncleanKeyIsGone(n, d, c, e);
    }
  }

  lemma {:induction false} ValueRoundTrip(n: Names, v: Value, w: Value, x: Value)
    requires Sound(n) && CompactedValue(n, v, w) && ExpandedValue(n, w, x)
    ensures x == v <==> CleanValue(n, v)
    decreases v, 1
  {
    match v
    case Obj(_) => RoundTripOf(n, v, w, x);
    case Arr(items) =>
      forall i | 0 <= i < |items| ensures x.items[i] == items[i] <==> (items[i].Obj? ==> Clean(n, items[i])) {
        assert CompactedItem(n, items[i], w.items[i]) && ExpandedItem(n, w.items[i], x.items[i]);
        if items[i].Obj? {
          RoundTripOf(n, items[i], w.items[i], x.items[i]);
        }
      }
      if CleanValue(n, v) {
        assert x.items == items;
      }
    case _ =>
  }

  /**
   Expanding a compacted document gives the document back exactly when no map that is visited has a key that is
   a short code or the mark; with one such key anywhere, no map order restores it.
   */
  lemma RoundTrip(d: Value, c: Value, e: Value)
    requires Compacted(TABLES, d, c) && Expanded(TABLES, c, e)
    ensures e == d <==> Clean(TABLES, d)
  {
    TablesAreSound();
    RoundTripOf(TABLES, d, c, e);
  }
}
