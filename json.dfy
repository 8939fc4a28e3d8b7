/**
 * The hand-rolled JSON codec the ledger files are stored with: `JSONObject` (a hash map written
 * as `{"key":value,...}`), `JSONArray` (a list of objects written as `[...,...]`) and `JSONParser`,
 * which reads back exactly the shape the model writes, `{"stocks":[{...},...]}`, and returns every
 * value as a string. There are no escapes and no nesting beyond that shape.
 */
module Json {
  import opened Wrappers
  import Text

  /**
   * A value held by a JSONObject: a Java String, or any other object (a Double, a null price, an
   * array's text), represented by the text `StringBuilder.append` writes for it.
   */
  datatype JsonValue = JString(s: string) | JText(t: string)

  /** The text of a value without quotes. */
  function Raw(v: JsonValue): string {
    match v
    case JString(s) => s
    case JText(t) => t
  }

  /** How toJSONString writes a value: Strings in quotes when the flag is set, everything else as is. */
  function ValueText(v: JsonValue, flag: bool): string {
    if v.JString? && flag then "\"" + v.s + "\"" else Raw(v)
  }

  function EntryText(key: string, v: JsonValue, flag: bool): string {
    "\"" + key + "\":" + ValueText(v, flag)
  }

  predicate KeysIn(order: seq<string>, entries: map<string, JsonValue>) {
    forall k :: k in order ==> k in entries
  }

  /** An enumeration of the keys of a map, each exactly once: one possible HashMap iteration order. */
  predicate IsKeyOrder(order: seq<string>, entries: map<string, JsonValue>) {
    KeysIn(order, entries)
    && (forall k :: k in entries ==> k in order)
    && (forall i, j :: 0 <= i < j < |order| ==> order[i] != order[j])
  }

  function EntryTexts(entries: map<string, JsonValue>, order: seq<string>, flag: bool): (r: seq<string>)
    requires KeysIn(order, entries)
    ensures |r| == |order|
    ensures forall i :: 0 <= i < |order| ==> r[i] == EntryText(order[i], entries[order[i]], flag)
    decreases |order|
  {
    if order == [] then [] else [EntryText(order[0], entries[order[0]], flag)] + EntryTexts(entries, order[1..], flag)
  }

  /** The text toJSONString writes for a map whose keys it visits in `order`. */
  function ObjectText(entries: map<string, JsonValue>, order: seq<string>, flag: bool): string
    requires KeysIn(order, entries)
  {
    "{" + Text.Join(EntryTexts(entries, order, flag), ",") + "}"
  }

  predicate OrdersFit(objs: seq<map<string, JsonValue>>, orders: seq<seq<string>>) {
    |orders| == |objs| && forall i :: 0 <= i < |objs| ==> IsKeyOrder(orders[i], objs[i])
  }

  function ObjectTexts(objs: seq<map<string, JsonValue>>, orders: seq<seq<string>>): (r: seq<string>)
    requires OrdersFit(objs, orders)
    ensures |r| == |objs|
    decreases |objs|
  {
    if objs == [] then [] else [ObjectText(objs[0], orders[0], true)] + ObjectTexts(objs[1..], orders[1..])
  }

  /** The text JSONArray.toJSONString writes: each element's text with quoted Strings, comma-separated. */
  function ArrayText(objs: seq<map<string, JsonValue>>, orders: seq<seq<string>>): string
    requires OrdersFit(objs, orders)
  {
    "[" + Text.Join(ObjectTexts(objs, orders), ",") + "]"
  }

  lemma ObjectTextShape(entries: map<string, JsonValue>, order: seq<string>, flag: bool)
    requires IsKeyOrder(order, entries)
    ensures var s := ObjectText(entries, order, flag); |s| >= 2 && s[0] == '{' && s[|s| - 1] == '}'
    ensures entries == map[] ==> ObjectText(entries, order, flag) == "{}"
  {
  }

  /** One step of the writing loops: the comma left after the previous element, then the next element. */
  lemma JoinStep(open: string, texts: seq<string>, e: string, more: bool)
    ensures open + Text.Join(texts, ",") + (if |texts| > 0 then "," else "") + e + (if more then "," else "")
         == open + Text.Join(texts + [e], ",") + (if more then "," else "")
  {
    Text.JoinSnoc(texts, e, ",");
    var tail := if more then "," else "";
    var j := Text.Join(texts, ",");
    var j2 := Text.Join(texts + [e], ",");
    if texts == [] {
      assert j == "" && j2 == e;
      assert open + "" + "" == open;
    } else {
      assert j2 == j + "," + e;
      CommaAssoc(open, j, e, tail);
    }
  }

  lemma CommaAssoc(open: string, j: string, e: string, tail: string)
    ensures open + j + "," + e + tail == open + (j + "," + e) + tail
  {
  }

  lemma ArrayTextShape(objs: seq<map<string, JsonValue>>, orders: seq<seq<string>>)
    requires OrdersFit(objs, orders)
    ensures var s := ArrayText(objs, orders); |s| >= 2 && s[0] == '[' && s[|s| - 1] == ']'
    ensures objs == [] ==> ArrayText(objs, orders) == "[]"
  {
  }

  lemma ArrayTextOf(s: string, body: string, texts: seq<string>, objs: seq<map<string, JsonValue>>, orders: seq<seq<string>>)
    requires OrdersFit(objs, orders) && texts == ObjectTexts(objs, orders)
    requires body == "[" + Text.Join(texts, ",") + "" && s == body + "]"
    ensures s == ArrayText(objs, orders)
  {
  }

  lemma {:induction false} EntryTextsSnoc(entries: map<string, JsonValue>, order: seq<string>, key: string, flag: bool)
    requires KeysIn(order, entries) && key in entries
    ensures KeysIn(order + [key], entries)
    ensures EntryTexts(entries, order + [key], flag) == EntryTexts(entries, order, flag) + [EntryText(key, entries[key], flag)]
  {
  }

  lemma {:induction false} ObjectTextsSnoc(objs: seq<map<string, JsonValue>>, orders: seq<seq<string>>,
                                           m: map<string, JsonValue>, order: seq<string>)
    requires OrdersFit(objs, orders) && IsKeyOrder(order, m)
    ensures OrdersFit(objs + [m], orders + [order])
    ensures ObjectTexts(objs + [m], orders + [order]) == ObjectTexts(objs, orders) + [ObjectText(m, order, true)]
    decreases |objs|
  {
    if objs != [] {
      assert (objs + [m])[1..] == objs[1..] + [m];
      assert (orders + [order])[1..] == orders[1..] + [order];
      ObjectTextsSnoc(objs[1..], orders[1..], m, order);
    }
  }

  // ---------------------------------------------------------------------------------------------
  // JSONObject

  class JsonObject {
    var entries: map<string, JsonValue>

    constructor()
      ensures entries == map[]
    {
      entries := map[];
    }

    method Put(key: string, value: JsonValue)
      modifies this
      ensures entries == old(entries)[key := value]
    {
      entries := entries[key := value];
    }

    /** HashMap.get: the stored value, None standing for null. */
    function Get(key: string): (r: Option<JsonValue>)
      reads this
      ensures r.None? <==> key !in entries
      ensures r.Some? ==> key in entries && r.value == entries[key]
    {
      if key in entries then Some(entries[key]) else None
    }

    /**
     * toJSONString: `{`, then `"key":value` for every key in some iteration order of the map with a
     * comma between consecutive entries, then `}`.
     */
    method ToJsonString(flag: bool) returns (s: string, ghost order: seq<string>)
      ensures IsKeyOrder(order, entries)
      ensures s == ObjectText(entries, order, flag)
    {
      s := "{";
      var index := 0;
      var remaining := entries.Keys;
      order := [];
      while remaining != {}
        invariant |remaining| + index == |entries| && index == |order|
        invariant Visiting(order, remaining, entries)
        invariant s == ObjectPrefix(entries, order, flag)
        decreases |remaining|
      {
        var key :| key in remaining;
        s := WriteEntry(entries, order, remaining, flag, key, index, s);
        index := index + 1;
        order := order + [key];
        remaining := remaining - {key};
      }
      VisitDone(order, entries, flag);
      s := s + "}";
    }
  }

  /** One pass of toJSONString's loop: the entry for `key`, then a comma when more entries follow. */
  method WriteEntry(entries: map<string, JsonValue>, ghost order: seq<string>, remaining: set<string>, flag: bool,
                    key: string, index: nat, s: string) returns (s2: string)
    requires Visiting(order, remaining, entries) && |remaining| + |order| == |entries| && key in remaining
    requires index == |order| && s == ObjectPrefix(entries, order, flag)
    ensures KeysIn(order + [key], entries)
    ensures Visiting(order + [key], remaining - {key}, entries)
    ensures |remaining - {key}| + index + 1 == |entries|
    ensures s2 == ObjectPrefix(entries, order + [key], flag)
  {
    ObjectStep(entries, order, remaining, flag, key);
    var e := EntryText(key, entries[key], flag);
    s2 := s + e;
    if index + 1 < |entries| {
      s2 := s2 + ",";
    }
  }

  /** What toJSONString has written after visiting `order`: the entries, and a comma when more follow. */
  function ObjectPrefix(entries: map<string, JsonValue>, order: seq<string>, flag: bool): string
    requires KeysIn(order, entries)
  {
    "{" + Text.Join(EntryTexts(entries, order, flag), ",") + (if 0 < |order| < |entries| then "," else "")
  }

  /** One pass of toJSONString's loop keeps the loop's invariants. */
  lemma ObjectStep(entries: map<string, JsonValue>, order: seq<string>, remaining: set<string>, flag: bool, key: string)
    requires Visiting(order, remaining, entries) && |remaining| + |order| == |entries| && key in remaining
    ensures key in entries && KeysIn(order + [key], entries)
    ensures Visiting(order + [key], remaining - {key}, entries)
    ensures |remaining - {key}| + |order| + 1 == |entries|
    ensures var s := ObjectPrefix(entries, order, flag) + EntryText(key, entries[key], flag);
      ObjectPrefix(entries, order + [key], flag) == if |order| + 1 < |entries| then s + "," else s
  {
    var before := EntryTexts(entries, order, flag);
    var e := EntryText(key, entries[key], flag);
    var more := |order| + 1 < |entries|;
    assert 0 < |order| < |entries| <==> |before| > 0 by {
      assert |remaining| > 0;
    }
    JoinStep("{", before, e, more);
    VisitStep(order, remaining, entries, key);
    EntryTextsSnoc(entries, order, key, flag);
  }

  /** The keys visited so far, in order and each once, and the keys still to visit partition the map's keys. */
  predicate Visiting(order: seq<string>, remaining: set<string>, entries: map<string, JsonValue>) {
    remaining <= entries.Keys
    && KeysIn(order, entries)
    && (forall k :: k in entries ==> k in order || k in remaining)
    && (forall i :: 0 <= i < |order| ==> order[i] !in remaining)
    && (forall i, j :: 0 <= i < j < |order| ==> order[i] != order[j])
  }

  lemma VisitStep(order: seq<string>, remaining: set<string>, entries: map<string, JsonValue>, key: string)
    requires Visiting(order, remaining, entries) && key in remaining
    ensures Visiting(order + [key], remaining - {key}, entries)
  {
  }

  /** When no key remains, every key has been visited once and no comma is pending. */
  lemma VisitDone(order: seq<string>, entries: map<string, JsonValue>, flag: bool)
    requires Visiting(order, {}, entries) && |order| == |entries|
    ensures IsKeyOrder(order, entries)
    ensures ObjectPrefix(entries, order, flag) + "}" == ObjectText(entries, order, flag)
  {
  }

  /** A new object holds nothing; a put is seen by get on that key and no other. */
  method PutThenGet(key: string, value: JsonValue, other: string) returns (o: JsonObject)
    ensures fresh(o)
    ensures o.Get(key) == Some(value)
    ensures other != key ==> o.Get(other) == None
  {
    o := new JsonObject();
    assert o.Get(other) == None;
    o.Put(key, value);
  }

  method PutKeepsOthers(o: JsonObject, key: string, value: JsonValue, other: string)
    modifies o
    ensures o.Get(key) == Some(value)
    ensures other != key ==> o.Get(other) == old(o.Get(other))
  {
    o.Put(key, value);
  }

  function EntriesOf(objs: seq<JsonObject>): (r: seq<map<string, JsonValue>>)
    reads objs
    ensures |r| == |objs| && forall i :: 0 <= i < |objs| ==> r[i] == objs[i].entries
  {
    if objs == [] then [] else EntriesOf(objs[..|objs| - 1]) + [objs[|objs| - 1].entries]
  }

  // ---------------------------------------------------------------------------------------------
  // JSONArray

  class JsonArray {
    var items: seq<JsonObject>

    constructor()
      ensures items == []
    {
      items := [];
    }

    method Add(value: JsonObject)
      modifies this
      ensures items == old(items) + [value]
    {
      items := items + [value];
    }

    /** ArrayList.get; an index outside the list throws in the source. */
    function Get(index: int): (r: JsonObject)
      reads this
      requires 0 <= index < |items|
      ensures r == items[index]
    {
      items[index]
    }

    /** ArrayList.set, returning the list itself as the source does. */
    method Set(index: int, value: JsonObject) returns (list: seq<JsonObject>)
      requires 0 <= index < |items|
      modifies this
      ensures items == old(items)[index := value]
      ensures list == items
    {
      items := items[index := value];
      list := items;
    }

    function Size(): (n: nat)
      reads this
      ensures n == |items|
    {
      |items|
    }

    /** toJSONString: `[`, every element's text with quoted Strings, commas between, `]`. */
    method ToJsonString() returns (s: string, ghost orders: seq<seq<string>>)
      ensures OrdersFit(EntriesOf(items), orders)
      ensures s == ArrayText(EntriesOf(items), orders)
    {
      var list := items;
      ghost var all := EntriesOf(list);
      s := "[";
      var index := 0;
      orders := [];
      ghost var texts: seq<string> := [];
      while index < |list|
        invariant 0 <= index <= |list| && |orders| == index
        invariant OrdersFit(all[..index], orders) && texts == ObjectTexts(all[..index], orders)
        invariant s == "[" + Text.Join(texts, ",") + (if 0 < index < |list| then "," else "")
      {
        s, orders, texts := WriteElement(list, index, s, orders, texts);
        index := index + 1;
      }
      assert all[..|list|] == all;
      ghost var body := s;
      s := s + "]";
      ArrayTextOf(s, body, texts, all, orders);
      assert EntriesOf(items) == all;
    }
  }

  /** One pass of JSONArray.toJSONString's loop: the element's text, then a comma when more elements follow. */
  method WriteElement(list: seq<JsonObject>, index: nat, s: string, ghost orders: seq<seq<string>>, ghost texts: seq<string>)
    returns (s2: string, ghost orders2: seq<seq<string>>, ghost texts2: seq<string>)
    requires index < |list| && |orders| == index
    requires OrdersFit(EntriesOf(list)[..index], orders) && texts == ObjectTexts(EntriesOf(list)[..index], orders)
    requires s == "[" + Text.Join(texts, ",") + (if 0 < index < |list| then "," else "")
    ensures |orders2| == index + 1
    ensures OrdersFit(EntriesOf(list)[..index + 1], orders2) && texts2 == ObjectTexts(EntriesOf(list)[..index + 1], orders2)
    ensures s2 == "[" + Text.Join(texts2, ",") + (if index + 1 < |list| then "," else "")
  {
    ghost var all := EntriesOf(list);
    var t, order := list[index].ToJsonString(true);
    var more := index + 1 < |list|;
    s2 := s + t + (if more then "," else "");
    assert s2 == "[" + Text.Join(texts + [t], ",") + (if more then "," else "") by {
      assert s == "[" + Text.Join(texts, ",") + (if |texts| > 0 then "," else "");
      JoinStep("[", texts, t, more);
    }
    ObjectTextsSnoc(all[..index], orders, all[index], order);
    assert all[..index + 1] == all[..index] + [all[index]];
    orders2 := orders + [order];
    texts2 := texts + [t];
  }

  /** A new array is empty; add appends and keeps earlier elements; set replaces one element. */
  method ArrayOperations(a: JsonArray, o: JsonObject, index: int)
    requires 0 <= index < |a.items|
    modifies a
    ensures a.Size() == old(a.Size()) + 1
    ensures a.Get(a.Size() - 1) == o
    ensures a.items[..old(a.Size())] == old(a.items)[index := o]
  {
    var _ := a.Set(index, o);
    a.Add(o);
  }

  // ---------------------------------------------------------------------------------------------
  // JSONParser, as specification functions

  /** What getHashMap does with the file text. */
  datatype HashMapStep =
    | Stored(key: string, value: string)  // the key-value pair put into the parser's map
    | NotJson                             // IllegalArgumentException, caught by parse
    | EmptyText                           // charAt(0) on an empty text: an exception parse lets propagate

  function HashMapStepOf(content: string): HashMapStep {
    if |content| == 0 then EmptyText
    else if |content| >= 2 && content[0] == '{' && content[|content| - 1] == '}' then
      var kv := Text.SplitOnce(Text.RemoveAll(content[1..|content| - 1], '"'), ':');
      if |kv| == 2 then Stored(kv[0], kv[1]) else NotJson
    else NotJson
  }

  /** The body of one "},"-separated segment: its first character dropped, and for the last segment the final one too. */
  function SegmentBody(seg: string, last: bool): Option<string> {
    if |seg| == 0 then None
    else if last then (if |seg| == 1 then None else Some(seg[1..|seg| - 1]))
    else Some(seg[1..])
  }

  /**
   * The pieces of a segment put into `acc` left to right, each split at its first ':' into a key
   * and a String value; None when a piece has no ':' (the source indexes past the end of its array).
   */
  function PairsInto(pieces: seq<string>, acc: map<string, JsonValue>): Option<map<string, JsonValue>>
    decreases |pieces|
  {
    if pieces == [] then Some(acc)
    else
      var kv := Text.SplitOnce(pieces[0], ':');
      if |kv| == 2 then PairsInto(pieces[1..], acc[kv[0] := JString(kv[1])]) else None
  }

  /** The object one segment gives: cut, split at commas, and each piece put in as a pair. */
  function SegmentObject(seg: string, last: bool): Option<map<string, JsonValue>> {
    match SegmentBody(seg, last)
    case None => None
    case Some(body) => PairsInto(Text.Split(body, ","), map[])
  }

  /** What each segment gives, the last one cut without its closing brace. */
  function SegmentObjects(segs: seq<string>): (objs: seq<Option<map<string, JsonValue>>>)
    ensures |objs| == |segs|
  {
    seq(|segs|, j requires 0 <= j < |segs| => SegmentObject(segs[j], j == |segs| - 1))
  }

  /** The objects of segments i.. appended to `acc`; None when a segment is too short to cut. */
  function SegmentsFrom(objs: seq<Option<map<string, JsonValue>>>, i: nat, acc: seq<map<string, JsonValue>>)
    : Option<seq<map<string, JsonValue>>>
    requires i <= |objs|
    decreases |objs| - i
  {
    if i == |objs| then Some(acc)
    else match objs[i]
      case None => None
      case Some(m) => SegmentsFrom(objs, i + 1, acc + [m])
  }

  /** The segments of the "stocks" text once its first and last characters are dropped. */
  function StocksSegments(stocks: string): seq<string>
    requires |stocks| >= 2
  {
    Text.Split(stocks[1..|stocks| - 1], "},")
  }

  /** getJsonArray over the parser's map; None for the exceptions it lets propagate. */
  function StocksObjects(parsed: map<string, JsonValue>): Option<seq<map<string, JsonValue>>> {
    if "stocks" !in parsed || !parsed["stocks"].JString? || |parsed["stocks"].s| < 2 then None
    else SegmentsFrom(SegmentObjects(StocksSegments(parsed["stocks"].s)), 0, [])
  }

  /** parse: an empty array when getHashMap rejects the text; None when an exception escapes. */
  function ParseWith(parsed: map<string, JsonValue>, content: string): Option<seq<map<string, JsonValue>>> {
    match HashMapStepOf(content)
    case EmptyText => None
    case NotJson => Some([])
    case Stored(k, v) => StocksObjects(parsed[k := JString(v)])
  }

  lemma HashMapRejects(content: string)
    ensures HashMapStepOf(content).Stored? ==> content[0] == '{' && content[|content| - 1] == '}'
    ensures HashMapStepOf(content).Stored? <==>
      |content| >= 2 && content[0] == '{' && content[|content| - 1] == '}'
      && ':' in Text.RemoveAll(content[1..|content| - 1], '"')
    ensures HashMapStepOf(content).Stored? ==>
      var inner := Text.RemoveAll(content[1..|content| - 1], '"');
      inner == HashMapStepOf(content).key + ":" + HashMapStepOf(content).value && ':' !in HashMapStepOf(content).key
  {
  }

  // ---------------------------------------------------------------------------------------------
  // JSONParser, the class

  class JsonParser {
    var parsed: map<string, JsonValue>

    constructor()
      ensures parsed == map[]
    {
      parsed := map[];
    }

    method GetHashMap(jsonString: string) returns (step: HashMapStep)
      modifies this
      ensures step == HashMapStepOf(jsonString)
      ensures parsed == if step.Stored? then old(parsed)[step.key := JString(step.value)] else old(parsed)
    {
      if |jsonString| == 0 {
        return EmptyText;
      }
      if jsonString[0] == '{' && jsonString[|jsonString| - 1] == '}' {
        if |jsonString| < 2 {
          return NotJson;
        }
        var inner := jsonString[1..|jsonString| - 1];
        inner := Text.RemoveAll(inner, '"');
        var keyValues := Text.SplitOnce(inner, ':');
        if |keyValues| == 2 {
          parsed := parsed[keyValues[0] := JString(keyValues[1])];
          step := Stored(keyValues[0], keyValues[1]);
        } else {
          step := NotJson;
        }
      } else {
        step := NotJson;
      }
    }

    method GetJsonArray() returns (r: Option<JsonArray>)
      ensures r.None? <==> StocksObjects(parsed).None?
      ensures r.Some? ==> fresh(r.value) && StocksObjects(parsed) == Some(EntriesOf(r.value.items))
    {
      if "stocks" !in parsed || !parsed["stocks"].JString? || |parsed["stocks"].s| < 2 {
        return None;
      }
      ghost var goal := StocksObjects(parsed);
      var stocksArray := StocksSegments(parsed["stocks"].s);
      var jsonArray := new JsonArray();
      ghost var objs := SegmentObjects(stocksArray);
      ghost var acc: seq<map<string, JsonValue>> := [];
      for i := 0 to |stocksArray|
        invariant fresh(jsonArray)
        invariant EntriesOf(jsonArray.items) == acc
        invariant SegmentsFrom(objs, i, acc) == goal
      {
        var temp := ReadSegment(stocksArray, i);
        if temp.None? {
          return None;
        }
        ghost var items := jsonArray.items;
        jsonArray.Add(temp.value);
        assert jsonArray.items[..|items|] == items;
        acc := acc + [temp.value.entries];
      }
      return Some(jsonArray);
    }

    /** The body of getJsonArray's loop: one segment cut and read into a new object. */
    static method ReadSegment(stocksArray: seq<string>, i: nat) returns (r: Option<JsonObject>)
      requires i < |stocksArray|
      ensures r.None? <==> SegmentObjects(stocksArray)[i].None?
      ensures r.Some? ==> fresh(r.value) && SegmentObjects(stocksArray)[i] == Some(r.value.entries)
    {
      var temp := new JsonObject();
      var individualStock := stocksArray[i];
      var body := SegmentBody(individualStock, i == |stocksArray| - 1);
      if body.None? {
        return None;
      }
      var ok := PutPairs(temp, Text.Split(body.value, ","));
      if !ok {
        return None;
      }
      return Some(temp);
    }

    /** The inner loop of getJsonArray: every piece split at its first ':' and put into the object. */
    static method PutPairs(temp: JsonObject, tickerDate: seq<string>) returns (ok: bool)
      modifies temp
      ensures ok <==> PairsInto(tickerDate, old(temp.entries)).Some?
      ensures ok ==> PairsInto(tickerDate, old(temp.entries)) == Some(temp.entries)
    {
      for j := 0 to |tickerDate|
        invariant PairsInto(tickerDate[j..], temp.entries) == PairsInto(tickerDate, old(temp.entries))
      {
        var keyValuePairs := Text.SplitOnce(tickerDate[j], ':');
        if |keyValuePairs| < 2 {
          return false;
        }
        temp.Put(keyValuePairs[0], JString(keyValuePairs[1]));
        assert tickerDate[j..][1..] == tickerDate[j + 1..];
      }
      assert tickerDate[|tickerDate|..] == [];
      return true;
    }

    /** parse, the file read aside: getHashMap, then getJsonArray, an empty array if the text is rejected. */
    method Parse(content: string) returns (r: Option<JsonArray>)
      modifies this
      ensures r.None? <==> ParseWith(old(parsed), content).None?
      ensures r.Some? ==> fresh(r.value) && ParseWith(old(parsed), content) == Some(EntriesOf(r.value.items))
    {
      var jsonArray := new JsonArray();
      var step := GetHashMap(content);
      if step.EmptyText? {
        return None;
      }
      if step.NotJson? {
        return Some(jsonArray);
      }
      r := GetJsonArray();
    }
  }

  // ---------------------------------------------------------------------------------------------
  // Round trip: what the ledger writer stores, the parser reads back

  /** A key or value text the codec can carry: non-empty, and free of `"`, `,`, `:`, `{` and `}`. */
  predicate CleanText(s: string) {
    |s| > 0 && forall j :: 0 <= j < |s| ==> s[j] != '"' && s[j] != ',' && s[j] != ':' && s[j] != '{' && s[j] != '}'
  }

  predicate CleanObject(m: map<string, JsonValue>) {
    |m| > 0 && forall k :: k in m ==> CleanText(k) && CleanText(Raw(m[k]))
  }

  /** Every value replaced by the String holding its text: what the parser gives back. */
  function AsStrings(m: map<string, JsonValue>): map<string, JsonValue> {
    map k | k in m :: JString(Raw(m[k]))
  }

  function AllAsStrings(objs: seq<map<string, JsonValue>>): (r: seq<map<string, JsonValue>>)
    ensures |r| == |objs| && forall i :: 0 <= i < |objs| ==> r[i] == AsStrings(objs[i])
  {
    seq(|objs|, i requires 0 <= i < |objs| => AsStrings(objs[i]))
  }

  /**
   * The text writePortfolioToJson stores for a ledger: an object whose single key "stocks" holds
   * the array's text as a String, written with the quoting flag off.
   */
  function LedgerText(objs: seq<map<string, JsonValue>>, orders: seq<seq<string>>): string
    requires OrdersFit(objs, orders)
  {
    ObjectText(map["stocks" := JString(ArrayText(objs, orders))], ["stocks"], false)
  }

  /** The entries with quotes deleted: `key:value` pieces. */
  function PairTexts(m: map<string, JsonValue>, order: seq<string>): (r: seq<string>)
    requires KeysIn(order, m)
    ensures |r| == |order|
    decreases |order|
  {
    if order == [] then [] else [order[0] + ":" + Raw(m[order[0]])] + PairTexts(m, order[1..])
  }

  function BodyText(m: map<string, JsonValue>, order: seq<string>): string
    requires KeysIn(order, m)
  {
    Text.Join(PairTexts(m, order), ",")
  }

  predicate CleanKeys(m: map<string, JsonValue>, order: seq<string>) {
    forall k :: k in order ==> k in m && CleanText(k) && CleanText(Raw(m[k]))
  }

  lemma Unquote(s: string)
    requires CleanText(s)
    ensures Text.RemoveAll(s, '"') == s
  {
    assert '"' !in s by {
      forall j | 0 <= j < |s| ensures s[j] != '"' { }
    }
    Text.RemoveAllAbsent(s, '"');
  }

  lemma UnquoteValue(v: JsonValue)
    requires CleanText(Raw(v))
    ensures Text.RemoveAll(ValueText(v, true), '"') == Raw(v)
  {
    Unquote(Raw(v));
    if v.JString? {
      var q := "\"";
      var t := v.s;
      assert ValueText(v, true) == q + t + q;
      assert Text.RemoveAll(q, '"') == "";
      Text.RemoveAllConcat(q, t, '"');
      assert Text.RemoveAll(q + t, '"') == t;
      Text.RemoveAllConcat(q + t, q, '"');
    }
  }

  lemma UnquoteKey(k: string)
    requires CleanText(k)
    ensures Text.RemoveAll("\"" + k + "\":", '"') == k + ":"
  {
    var q := "\"";
    var c := "\":";
    Unquote(k);
    assert Text.RemoveAll(q, '"') == "";
    assert Text.RemoveAll(c, '"') == ":";
    Text.RemoveAllConcat(q, k, '"');
    Text.RemoveAllConcat(q + k, c, '"');
  }

  lemma UnquoteEntry(k: string, v: JsonValue)
    requires CleanText(k) && CleanText(Raw(v))
    ensures Text.RemoveAll(EntryText(k, v, true), '"') == k + ":" + Raw(v)
  {
    UnquoteKey(k);
    UnquoteValue(v);
    Text.RemoveAllConcat("\"" + k + "\":", ValueText(v, true), '"');
  }

  lemma {:induction false} UnquoteEntries(m: map<string, JsonValue>, order: seq<string>)
    requires CleanKeys(m, order)
    ensures KeysIn(order, m)
    ensures Text.RemoveEach(EntryTexts(m, order, true), '"') == PairTexts(m, order)
    decreases |order|
  {
    if order != [] {
      UnquoteEntry(order[0], m[order[0]]);
      UnquoteEntries(m, order[1..]);
      assert EntryTexts(m, order, true)[1..] == EntryTexts(m, order[1..], true);
    }
  }

  lemma UnquoteObject(m: map<string, JsonValue>, order: seq<string>)
    requires CleanKeys(m, order)
    ensures KeysIn(order, m)
    ensures Text.RemoveAll(ObjectText(m, order, true), '"') == "{" + BodyText(m, order) + "}"
  {
    UnquoteEntries(m, order);
    var j := Text.Join(EntryTexts(m, order, true), ",");
    Text.RemoveAllJoin(EntryTexts(m, order, true), ",", '"');
    Text.RemoveAllConcat("{", j, '"');
    Text.RemoveAllConcat("{" + j, "}", '"');
    assert Text.RemoveAll("{", '"') == "{";
    assert Text.RemoveAll("}", '"') == "}";
  }

  /** The object bodies wrapped in braces. */
  function BracedBodies(objs: seq<map<string, JsonValue>>, orders: seq<seq<string>>): (r: seq<string>)
    requires OrdersFit(objs, orders)
    ensures |r| == |objs|
    decreases |objs|
  {
    if objs == [] then [] else ["{" + BodyText(objs[0], orders[0]) + "}"] + BracedBodies(objs[1..], orders[1..])
  }

  predicate CleanObjects(objs: seq<map<string, JsonValue>>) {
    forall i :: 0 <= i < |objs| ==> CleanObject(objs[i])
  }

  lemma CleanObjectKeys(m: map<string, JsonValue>, order: seq<string>)
    requires CleanObject(m) && IsKeyOrder(order, m)
    ensures CleanKeys(m, order) && |order| > 0
  {
    var k :| k in m;
    assert k in order;
  }

  lemma {:induction false} UnquoteObjects(objs: seq<map<string, JsonValue>>, orders: seq<seq<string>>)
    requires OrdersFit(objs, orders) && CleanObjects(objs)
    ensures Text.RemoveEach(ObjectTexts(objs, orders), '"') == BracedBodies(objs, orders)
    decreases |objs|
  {
    if objs != [] {
      CleanObjectKeys(objs[0], orders[0]);
      UnquoteObject(objs[0], orders[0]);
      UnquoteObjects(objs[1..], orders[1..]);
      assert ObjectTexts(objs, orders)[1..] == ObjectTexts(objs[1..], orders[1..]);
    }
  }

  /** The "},"-separated segments of joined braced bodies: the opening brace kept, the closing one only on the last. */
  function Segments(bodies: seq<string>): (r: seq<string>)
    ensures |r| == |bodies|
    decreases |bodies|
  {
    if |bodies| == 0 then []
    else if |bodies| == 1 then ["{" + bodies[0] + "}"]
    else ["{" + bodies[0]] + Segments(bodies[1..])
  }

  function Bodies(objs: seq<map<string, JsonValue>>, orders: seq<seq<string>>): (r: seq<string>)
    requires OrdersFit(objs, orders)
    ensures |r| == |objs|
    decreases |objs|
  {
    if objs == [] then [] else [BodyText(objs[0], orders[0])] + Bodies(objs[1..], orders[1..])
  }

  function Wrap(bodies: seq<string>): (r: seq<string>)
    ensures |r| == |bodies|
    decreases |bodies|
  {
    if bodies == [] then [] else ["{" + bodies[0] + "}"] + Wrap(bodies[1..])
  }

  lemma {:induction false} BracedAreWrapped(objs: seq<map<string, JsonValue>>, orders: seq<seq<string>>)
    requires OrdersFit(objs, orders)
    ensures BracedBodies(objs, orders) == Wrap(Bodies(objs, orders))
    decreases |objs|
  {
    if objs != [] {
      BracedAreWrapped(objs[1..], orders[1..]);
      assert Bodies(objs, orders)[1..] == Bodies(objs[1..], orders[1..]);
    }
  }

  lemma {:induction false} WrapJoin(bodies: seq<string>)
    requires |bodies| > 0
    ensures Text.Join(Wrap(bodies), ",") == Text.Join(Segments(bodies), "},")
    decreases |bodies|
  {
    if |bodies| > 1 {
      WrapJoin(bodies[1..]);
      assert Wrap(bodies)[1..] == Wrap(bodies[1..]);
      assert Segments(bodies)[1..] == Segments(bodies[1..]);
      var b := bodies[0];
      var rest := Text.Join(Wrap(bodies[1..]), ",");
      assert "{" + b + "}" + "," + rest == "{" + b + "}," + rest;
    }
  }

  lemma {:induction false} PairTextsAvoid(m: map<string, JsonValue>, order: seq<string>, c: char)
    requires CleanKeys(m, order) && (c == '}' || c == ',')
    ensures KeysIn(order, m)
    ensures forall i :: 0 <= i < |order| ==> Text.Avoids(PairTexts(m, order)[i], c)
    decreases |order|
  {
    if order != [] {
      PairTextsAvoid(m, order[1..], c);
      var k := order[0];
      var r := PairTexts(m, order);
      assert r == [k + ":" + Raw(m[k])] + PairTexts(m, order[1..]);
      assert CleanText(k) && CleanText(Raw(m[k]));
      Text.AvoidsConcat(k, ":", c);
      Text.AvoidsConcat(k + ":", Raw(m[k]), c);
      forall i | 0 <= i < |order| ensures Text.Avoids(r[i], c) {
        if i > 0 {
          assert r[i] == PairTexts(m, order[1..])[i - 1];
        }
      }
    }
  }

  lemma BodyAvoidsBrace(m: map<string, JsonValue>, order: seq<string>)
    requires CleanKeys(m, order)
    ensures KeysIn(order, m) && Text.Avoids(BodyText(m, order), '}')
  {
    PairTextsAvoid(m, order, '}');
    Text.JoinAvoids(PairTexts(m, order), ",", '}');
  }

  lemma {:induction false} BodiesAvoidBrace(objs: seq<map<string, JsonValue>>, orders: seq<seq<string>>)
    requires OrdersFit(objs, orders) && CleanObjects(objs)
    ensures forall i :: 0 <= i < |objs| ==> Text.Avoids(Bodies(objs, orders)[i], '}')
    decreases |objs|
  {
    if objs != [] {
      CleanObjectKeys(objs[0], orders[0]);
      BodyAvoidsBrace(objs[0], orders[0]);
      BodiesAvoidBrace(objs[1..], orders[1..]);
      assert Bodies(objs, orders)[1..] == Bodies(objs[1..], orders[1..]);
    }
  }

  lemma {:induction false} SegmentsShape(bodies: seq<string>)
    requires |bodies| > 0 && forall i :: 0 <= i < |bodies| ==> Text.Avoids(bodies[i], '}')
    ensures forall i :: 0 <= i < |bodies| - 1 ==> Segments(bodies)[i] == "{" + bodies[i]
    ensures Segments(bodies)[|bodies| - 1] == "{" + bodies[|bodies| - 1] + "}"
    decreases |bodies|
  {
    if |bodies| > 1 {
      SegmentsShape(bodies[1..]);
      assert Segments(bodies)[1..] == Segments(bodies[1..]);
    }
  }

  lemma LastSegmentHasNoSeparator(b: string)
    requires Text.Avoids(b, '}')
    ensures Text.IndexOf("{" + b + "}", "},").None?
  {
    var last := "{" + b + "}";
    Text.IndexOfFirst(last, "},");
    forall j ensures !Text.OccursAt(last, "},", j) {
      if 0 <= j && j + 2 <= |last| {
        assert last[j..j + 2][0] == last[j];
        if j == 0 {
          assert last[j] == '{';
        } else {
          assert last[j] == b[j - 1];
        }
      }
    }
  }

  /** The segments split back apart: only the closing brace of the last one could start a "},". */
  lemma SplitSegments(bodies: seq<string>)
    requires |bodies| > 0 && forall i :: 0 <= i < |bodies| ==> Text.Avoids(bodies[i], '}')
    ensures Text.Split(Text.Join(Segments(bodies), "},"), "},") == Segments(bodies)
  {
    var segs := Segments(bodies);
    var n := |bodies|;
    SegmentsShape(bodies);
    forall k, j | 0 <= k < n - 1 && 0 <= j < |segs[k]| ensures segs[k][j] != "},"[0] {
      assert segs[k] == "{" + bodies[k];
      if j > 0 {
        assert segs[k][j] == bodies[k][j - 1];
      }
    }
    LastSegmentHasNoSeparator(bodies[n - 1]);
    Text.SplitJoin(segs, "},");
  }

  lemma SplitBody(m: map<string, JsonValue>, order: seq<string>)
    requires CleanKeys(m, order) && |order| > 0
    ensures KeysIn(order, m) && Text.Split(BodyText(m, order), ",") == PairTexts(m, order)
  {
    var pieces := PairTexts(m, order);
    PairTextsAvoid(m, order, ',');
    assert pieces[|pieces| - 1] != "" by {
      assert PairTexts(m, order)[|order| - 1] == order[|order| - 1] + ":" + Raw(m[order[|order| - 1]]) by {
        PairTextsLast(m, order);
      }
    }
    forall k, j | 0 <= k < |pieces| - 1 && 0 <= j < |pieces[k]| ensures pieces[k][j] != ","[0] {
      assert Text.Avoids(pieces[k], ',');
    }
    Text.AvoidsNoOccurrence(pieces[|pieces| - 1], ",");
    Text.SplitJoin(pieces, ",");
  }

  lemma {:induction false} PairTextsLast(m: map<string, JsonValue>, order: seq<string>)
    requires KeysIn(order, m) && |order| > 0
    ensures PairTexts(m, order)[|order| - 1] == order[|order| - 1] + ":" + Raw(m[order[|order| - 1]])
    decreases |order|
  {
    if |order| > 1 {
      PairTextsLast(m, order[1..]);
      assert PairTexts(m, order)[1..] == PairTexts(m, order[1..]);
    }
  }

  /** The strings of the first keys of `order`. */
  function AsStringsOn(m: map<string, JsonValue>, order: seq<string>): map<string, JsonValue>
    requires KeysIn(order, m)
  {
    map k | k in order :: JString(Raw(m[k]))
  }

  lemma AsStringsOnStep(m: map<string, JsonValue>, order: seq<string>, acc: map<string, JsonValue>)
    requires KeysIn(order, m) && |order| > 0
    ensures KeysIn(order[1..], m)
    ensures acc[order[0] := JString(Raw(m[order[0]]))] + AsStringsOn(m, order[1..]) == acc + AsStringsOn(m, order)
  {
    assert forall k :: k in order <==> k == order[0] || k in order[1..];
  }

  lemma {:induction false} PairsIntoPairTexts(m: map<string, JsonValue>, order: seq<string>, acc: map<string, JsonValue>)
    requires CleanKeys(m, order)
    ensures KeysIn(order, m) && PairsInto(PairTexts(m, order), acc) == Some(acc + AsStringsOn(m, order))
    decreases |order|
  {
    if order == [] {
      assert acc + AsStringsOn(m, order) == acc;
    } else {
      var k := order[0];
      var v := JString(Raw(m[k]));
      assert Text.Avoids(k, ':') by {
        assert CleanText(k);
      }
      Text.SplitOnceAt(k, ':', Raw(m[k]));
      assert k + ":" + Raw(m[k]) == k + [':'] + Raw(m[k]);
      assert PairTexts(m, order)[1..] == PairTexts(m, order[1..]);
      PairsIntoPairTexts(m, order[1..], acc[k := v]);
      AsStringsOnStep(m, order, acc);
    }
  }

  /** Segment i, cut and split, gives the strings of object i. */
  lemma SegmentRead(objs: seq<map<string, JsonValue>>, orders: seq<seq<string>>, i: nat)
    requires OrdersFit(objs, orders) && CleanObjects(objs) && i < |objs|
    ensures forall j :: 0 <= j < |objs| ==> Text.Avoids(Bodies(objs, orders)[j], '}')
    ensures var segs := Segments(Bodies(objs, orders));
      SegmentBody(segs[i], i == |segs| - 1) == Some(Bodies(objs, orders)[i])
      && PairsInto(Text.Split(Bodies(objs, orders)[i], ","), map[]) == Some(AsStrings(objs[i]))
  {
    BodiesAvoidBrace(objs, orders);
    var bodies := Bodies(objs, orders);
    SegmentsShape(bodies);
    BodiesAt(objs, orders, i);
    CleanObjectKeys(objs[i], orders[i]);
    SplitBody(objs[i], orders[i]);
    PairsIntoPairTexts(objs[i], orders[i], map[]);
    assert map[] + AsStringsOn(objs[i], orders[i]) == AsStrings(objs[i]);
  }

  /** When every segment from i on reads as its object, the objects are collected in order. */
  lemma {:induction false} SegmentsRead(objs: seq<Option<map<string, JsonValue>>>, ms: seq<map<string, JsonValue>>, i: nat,
                                       acc: seq<map<string, JsonValue>>)
    requires |ms| == |objs| && i <= |objs|
    requires forall j :: i <= j < |objs| ==> objs[j] == Some(ms[j])
    ensures SegmentsFrom(objs, i, acc) == Some(acc + ms[i..])
    decreases |objs| - i
  {
    if i == |objs| {
      assert acc + ms[i..] == acc;
    } else {
      SegmentsRead(objs, ms, i + 1, acc + [ms[i]]);
      assert acc + [ms[i]] + ms[i + 1..] == acc + ms[i..];
    }
  }

  lemma {:induction false} BodiesAt(objs: seq<map<string, JsonValue>>, orders: seq<seq<string>>, i: nat)
    requires OrdersFit(objs, orders) && i < |objs|
    ensures Bodies(objs, orders)[i] == BodyText(objs[i], orders[i])
    decreases i
  {
    if i > 0 {
      BodiesAt(objs[1..], orders[1..], i - 1);
      assert Bodies(objs, orders)[1..] == Bodies(objs[1..], orders[1..]);
    }
  }

  lemma UnquoteArray(objs: seq<map<string, JsonValue>>, orders: seq<seq<string>>)
    requires OrdersFit(objs, orders) && CleanObjects(objs)
    ensures Text.RemoveAll(ArrayText(objs, orders), '"') == "[" + Text.Join(BracedBodies(objs, orders), ",") + "]"
  {
    var j := Text.Join(ObjectTexts(objs, orders), ",");
    UnquoteObjects(objs, orders);
    Text.RemoveAllJoin(ObjectTexts(objs, orders), ",", '"');
    Text.RemoveAllConcat("[", j, '"');
    Text.RemoveAllConcat("[" + j, "]", '"');
    assert Text.RemoveAll("[", '"') == "[";
    assert Text.RemoveAll("]", '"') == "]";
  }

  /** getHashMap on the stored text keeps "stocks" and the array text without its quotes. */
  lemma StocksIsClean()
    ensures CleanText("stocks")
  {
    var k := "stocks";
    forall j | 0 <= j < |k| ensures k[j] in {'s', 't', 'o', 'c', 'k'} { }
  }

  lemma StoredStocks(a: string)
    ensures HashMapStepOf(ObjectText(map["stocks" := JString(a)], ["stocks"], false))
         == Stored("stocks", Text.RemoveAll(a, '"'))
  {
    var k := "stocks";
    var top := map[k := JString(a)];
    var content := ObjectText(top, [k], false);
    var key := "\"" + k + "\":";
    var e := key + a;
    assert [k][1..] == [];
    assert EntryTexts(top, [k], false) == [e];
    assert content == "{" + e + "}";
    assert content[1..|content| - 1] == e;
    var ra := Text.RemoveAll(a, '"');
    Text.RemoveAllConcat(key, a, '"');
    StocksIsClean();
    UnquoteKey(k);
    Text.SplitOnceAt(k, ':', ra);
    assert k + ":" + ra == k + [':'] + ra;
  }

  /**
   * Parsing the stored text gives back the same objects in the same order, every value as its
   * text in a String, whatever order the hash maps were written in.
   */
  lemma ParseLedgerText(parsed: map<string, JsonValue>, objs: seq<map<string, JsonValue>>, orders: seq<seq<string>>)
    requires OrdersFit(objs, orders) && |objs| > 0 && CleanObjects(objs)
    ensures ParseWith(parsed, LedgerText(objs, orders)) == Some(AllAsStrings(objs))
  {
    var a := ArrayText(objs, orders);
    var ra := Text.RemoveAll(a, '"');
    StoredStocks(a);
    var p := parsed["stocks" := JString(ra)];
    assert ParseWith(parsed, LedgerText(objs, orders)) == StocksObjects(p);
    UnquoteArray(objs, orders);
    var inside := Text.Join(BracedBodies(objs, orders), ",");
    assert ra == "[" + inside + "]";
    assert ra[1..|ra| - 1] == inside;
    BracedAreWrapped(objs, orders);
    var bodies := Bodies(objs, orders);
    WrapJoin(bodies);
    BodiesAvoidBrace(objs, orders);
    SplitSegments(bodies);
    var segs := Segments(bodies);
    assert StocksSegments(ra) == segs;
    assert StocksObjects(p) == SegmentsFrom(SegmentObjects(segs), 0, []);
    AllSegmentsRead(objs, orders);
  }

  /** The segments of the stored array read back as the objects' strings, in order. */
  lemma AllSegmentsRead(objs: seq<map<string, JsonValue>>, orders: seq<seq<string>>)
    requires OrdersFit(objs, orders) && CleanObjects(objs)
    ensures SegmentsFrom(SegmentObjects(Segments(Bodies(objs, orders))), 0, []) == Some(AllAsStrings(objs))
  {
    var segs := Segments(Bodies(objs, orders));
    var read := SegmentObjects(segs);
    var ms := AllAsStrings(objs);
    forall j | 0 <= j < |segs| ensures read[j] == Some(ms[j]) {
      SegmentRead(objs, orders, j);
    }
    SegmentsRead(read, ms, 0, []);
    assert [] + ms[0..] == ms;
  }
}
