/**
  Decoding of OVSDB values (`deserialization.rs` and the router's own decoder) against the value
  notation of section 5.1 of RFC 7047. A panic of an `expect`, `unwrap` or `assert_eq!` is
  `Panicked`; a missing or mistyped column is `DeserializationFailed`.
 */
module Json {
  import opened Prelude

  datatype Value =
    | Null
    | Bool(b: bool)
    | Number(n: int)
    | Str(s: string)
    | Arr(items: seq<Value>)
    | Obj(fields: map<string, Value>)

  type Row = map<string, Value>

  /** `array.get(i)` on a value that is an array. */
  function Item(v: Value, i: nat): Option<Value> {
    if v.Arr? && i < |v.items| then Some(v.items[i]) else None
  }

  /** `deserialize_uuid` */
  function DeserializeUuid(row: Row): Result<string> {
    var u := if "_uuid" in row then Item(row["_uuid"], 1) else None;
    if u.Some? && u.value.Str? then Ok(u.value.s) else Err(DeserializationFailed)
  }

  /** One element of a set of UUIDs in `deserialize_uuid_set`. */
  function UuidItem(v: Value): Result<string> {
    if Item(v, 0) == Some(Str("uuid")) && Item(v, 1).Some? && Item(v, 1).value.Str?
    then Ok(Item(v, 1).value.s)
    else Err(Panicked)
  }

  /** All elements in order, or the first failure. */
  function Collect(items: seq<Value>, decode: Value -> Result<string>): Result<seq<string>> {
    if items == [] then Ok([])
    else
      var head := decode(items[0]);
      if head.Err? then Err(head.error) else
        var tail := Collect(items[1..], decode);
        if tail.Err? then tail else Ok([head.value] + tail.value)
  }

  /** `deserialize_uuid_set` */
  function DeserializeUuidSet(row: Row, field: string): Result<seq<string>> {
    if field !in row || !row[field].Arr? then Err(DeserializationFailed)
    else
      var column := row[field];
      var second := Item(column, 1);
      match Item(column, 0)
      case Some(Str(subtype)) =>
        if subtype == "uuid" then
          (if second.Some? && second.value.Str? then Ok([second.value.s]) else Err(Panicked))
        else if subtype == "set" then
          (if second.Some? && second.value.Arr? then Collect(second.value.items, UuidItem) else Err(Panicked))
        else Err(Panicked)
      case _ => Err(Panicked)
  }

  /** One element of the route set in `LogicalRouter::deserialize`, which does not look at the tag. */
  function RouteItem(v: Value): Result<string> {
    if Item(v, 1).Some? && Item(v, 1).value.Str? then Ok(Item(v, 1).value.s) else Err(Panicked)
  }

  /** The decoding of `static_routes` in `LogicalRouter::deserialize`. */
  function DeserializeRoutes(row: Row): Result<seq<string>> {
    var routes := if "static_routes" in row then Item(row["static_routes"], 1) else None;
    match routes
    case Some(Str(uuid)) => Ok([uuid])
    case Some(Arr(items)) => Collect(items, RouteItem)
    case Some(_) => Err(Panicked)
    case None => Err(DeserializationFailed)
  }

  /** The entries of a map; a later entry replaces an earlier one with the same key. */
  function CollectMap(entries: seq<Value>): Result<map<string, string>> {
    if entries == [] then Ok(map[])
    else
      var last := entries[|entries| - 1];
      var init := CollectMap(entries[..|entries| - 1]);
      if init.Err? then init
      else if last.Arr? && |last.items| == 2 && last.items[0].Str? && last.items[1].Str?
      then Ok(init.value[last.items[0].s := last.items[1].s])
      else Err(Panicked)
  }

  /** `deserialize_map` */
  function DeserializeMap(row: Row, field: string): Result<map<string, string>> {
    if field !in row || !row[field].Arr? then Err(DeserializationFailed)
    else if |row[field].items| != 2 || row[field].items[0] != Str("map") then Err(Panicked)
    else if !row[field].items[1].Arr? then Err(DeserializationFailed)
    else CollectMap(row[field].items[1].items)
  }

  function EncodeUuid(uuid: string): Value {
    Arr([Str("uuid"), Str(uuid)])
  }

  /** A set of UUIDs on the wire: a set of exactly one element may be written as the element. */
  function EncodeUuidSet(uuids: seq<string>, shorthand: bool): Value {
    if shorthand && |uuids| == 1 then EncodeUuid(uuids[0])
    else Arr([Str("set"), Arr(seq(|uuids|, i requires 0 <= i < |uuids| => EncodeUuid(uuids[i])))])
  }

  function EncodeMap(pairs: seq<(string, string)>): Value {
    Arr([Str("map"), Arr(seq(|pairs|, i requires 0 <= i < |pairs| => Arr([Str(pairs[i].0), Str(pairs[i].1)])))])
  }

  lemma {:induction false} CollectDecodes(items: seq<Value>, decode: Value -> Result<string>, uuids: seq<string>)
    requires |items| == |uuids| && forall i :: 0 <= i < |items| ==> decode(items[i]) == Ok(uuids[i])
    ensures Collect(items, decode) == Ok(uuids)
  {
    if items != [] {
      CollectDecodes(items[1..], decode, uuids[1..]);
      assert uuids == [uuids[0]] + uuids[1..];
    }
  }

  /** Decoding either notation of a set of UUIDs gives back the set. */
  lemma UuidSetRoundTrip(row: Row, field: string, uuids: seq<string>, shorthand: bool)
    requires field in row && row[field] == EncodeUuidSet(uuids, shorthand)
    ensures DeserializeUuidSet(row, field) == Ok(uuids)
  {
    if shorthand && |uuids| == 1 {
      assert uuids == [uuids[0]];
    } else {
      var items := row[field].items[1].items;
      CollectDecodes(items, UuidItem, uuids);
    }
  }

  lemma {:induction false} CollectAgrees(items: seq<Value>)
    requires Collect(items, UuidItem).Ok?
    ensures Collect(items, RouteItem) == Collect(items, UuidItem)
  {
    if items != [] {
      CollectAgrees(items[1..]);
    }
  }

  /** The router's decoder gives what `deserialize_uuid_set` gives, on every value that one accepts. */
  lemma RouterDecoderAgrees(row: Row)
    requires DeserializeUuidSet(row, "static_routes").Ok?
    ensures DeserializeRoutes(row) == DeserializeUuidSet(row, "static_routes")
  {
    var column := row["static_routes"];
    if Item(column, 0) == Some(Str("set")) {
      CollectAgrees(Item(column, 1).value.items);
    }
  }

  /** The converse fails: the router's decoder also accepts elements that are not tagged as UUIDs. */
  lemma RouterDecoderIsLaxer(row: Row)
    requires "static_routes" in row
    requires row["static_routes"] == Arr([Str("set"), Arr([Arr([Str("named-uuid"), Str("x")])])])
    ensures DeserializeRoutes(row) == Ok(["x"]) && DeserializeUuidSet(row, "static_routes") == Err(Panicked)
  {
    var item := Arr([Str("named-uuid"), Str("x")]);
    assert Item(row["static_routes"], 1) == Some(Arr([item]));
    assert Collect([item][1..], RouteItem) == Ok([]) && RouteItem(item) == Ok("x");
    assert Collect([item], RouteItem) == Ok(["x"] + []);
    assert "named-uuid"[0] != "uuid"[0];
    assert UuidItem(item) == Err(Panicked);
    assert Collect([item], UuidItem) == Err(Panicked);
    assert |"set"| != |"uuid"|;
    assert Item(row["static_routes"], 0) == Some(Str("set"));
    assert DeserializeUuidSet(row, "static_routes") == Err(Panicked);
    assert ["x"] + [] == ["x"];
  }

  /** `pairs` lists exactly the entries of `m`, in some order. */
  ghost predicate Lists(pairs: seq<(string, string)>, m: map<string, string>) {
    && (forall i :: 0 <= i < |pairs| ==> pairs[i].0 in m && m[pairs[i].0] == pairs[i].1)
    && (forall k :: k in m ==> exists i :: 0 <= i < |pairs| && pairs[i].0 == k)
  }

  /** Decoding entries of `m` gives a part of `m` that has all their keys. */
  lemma {:induction false} CollectMapDecodes(entries: seq<Value>, pairs: seq<(string, string)>, m: map<string, string>)
    requires |entries| == |pairs|
    requires forall i :: 0 <= i < |pairs| ==> entries[i] == Arr([Str(pairs[i].0), Str(pairs[i].1)])
    requires forall i :: 0 <= i < |pairs| ==> pairs[i].0 in m && m[pairs[i].0] == pairs[i].1
    ensures CollectMap(entries).Ok?
    ensures forall k :: k in CollectMap(entries).value ==> k in m && m[k] == CollectMap(entries).value[k]
    ensures forall i :: 0 <= i < |pairs| ==> pairs[i].0 in CollectMap(entries).value
  {
    if entries != [] {
      var n := |entries| - 1;
      CollectMapDecodes(entries[..n], pairs[..n], m);
      forall i | 0 <= i < |pairs|
        ensures pairs[i].0 in CollectMap(entries).value
      {
        if i < n {
          assert pairs[..n][i].0 in CollectMap(entries[..n]).value;
        }
      }
    }
  }

  /** Every string map survives encoding, in any order of its entries, and decoding. */
  lemma MapRoundTrip(row: Row, field: string, m: map<string, string>, pairs: seq<(string, string)>)
    requires Lists(pairs, m) && field in row && row[field] == EncodeMap(pairs)
    ensures DeserializeMap(row, field) == Ok(m)
  {
    var entries := row[field].items[1].items;
    CollectMapDecodes(entries, pairs, m);
    var decoded := CollectMap(entries).value;
    forall k | k in m
      ensures k in decoded
    {
      var i :| 0 <= i < |pairs| && pairs[i].0 == k;
    }
    assert decoded == m;
  }

  /** The row's own UUID decodes from its notation. */
  lemma UuidRoundTrip(row: Row, uuid: string)
    requires "_uuid" in row && row["_uuid"] == EncodeUuid(uuid)
    ensures DeserializeUuid(row) == Ok(uuid)
  {
  }
}
