/** The key-case converters of the front end: `snakeToCamel` renames every
    property of a value read from Supabase to camelCase, `camelToSnake`
    renames every property of a value about to be written back to
    snake_case. Both walk arrays and plain objects recursively and return
    null, primitives and `Date` objects unchanged. */
module CaseTransform {
  import opened Json

  predicate IsLowerAscii(c: char)
  {
    'a' <= c <= 'z'
  }

  predicate IsUpperAscii(c: char)
  {
    'A' <= c <= 'Z'
  }

  function ToUpperAscii(c: char): (u: char)
    requires IsLowerAscii(c)
    ensures IsUpperAscii(u)
  {
    ((c as int) - 32) as char
  }

  function ToLowerAscii(c: char): (l: char)
    requires IsUpperAscii(c)
    ensures IsLowerAscii(l) && ToUpperAscii(l) == c
  {
    ((c as int) + 32) as char
  }

  predicate NoUpper(k: string)
  {
    forall i :: 0 <= i < |k| ==> !IsUpperAscii(k[i])
  }

  predicate NoUnderscore(k: string)
  {
    forall i :: 0 <= i < |k| ==> k[i] != '_'
  }

  /** `key.replace(/_([a-z])/g, (_, letter) => letter.toUpperCase())`: the
      scan goes left to right, each `_` followed by a lower-case letter
      becomes that letter in upper case, and every other character,
      including an unmatched `_`, is copied. */
  function CamelKey(k: string): (r: string)
    ensures |r| <= |k|
    ensures NoUnderscore(k) ==> r == k
  {
    if k == [] then []
    else if |k| >= 2 && k[0] == '_' && IsLowerAscii(k[1]) then [ToUpperAscii(k[1])] + CamelKey(k[2..])
    else [k[0]] + CamelKey(k[1..])
  }

  /** `key.replace(/[A-Z]/g, (letter) => `_${letter.toLowerCase()}`)`: every
      upper-case letter becomes `_` and the letter in lower case. */
  function SnakeKey(k: string): (r: string)
    ensures NoUpper(r)
    ensures |r| >= |k|
    ensures NoUpper(k) ==> r == k
  {
    if k == [] then []
    else if IsUpperAscii(k[0]) then ['_', ToLowerAscii(k[0])] + SnakeKey(k[1..])
    else [k[0]] + SnakeKey(k[1..])
  }

  /** A snake_case key survives the trip to camelCase and back: this is the
      transparency of the column names the converters exist for. */
  lemma {:induction false} SnakeKeyOfCamelKey(k: string)
    requires NoUpper(k)
    ensures SnakeKey(CamelKey(k)) == k
  {
    if k == [] {
    } else if |k| >= 2 && k[0] == '_' && IsLowerAscii(k[1]) {
      SnakeKeyOfCamelKey(k[2..]);
      var u := ToUpperAscii(k[1]);
      var rest := CamelKey(k[2..]);
      assert ([u] + rest)[1..] == rest;
      assert SnakeKey([u] + rest) == ['_', ToLowerAscii(u)] + SnakeKey(rest);
      assert ToLowerAscii(u) == k[1];
      assert k == ['_', k[1]] + k[2..];
    } else {
      SnakeKeyOfCamelKey(k[1..]);
      var rest := CamelKey(k[1..]);
      assert ([k[0]] + rest)[1..] == rest;
      assert k == [k[0]] + k[1..];
    }
  }

  /** A camelCase key without underscores survives the trip to snake_case
      and back. */
  lemma {:induction false} CamelKeyOfSnakeKey(k: string)
    requires NoUnderscore(k)
    ensures CamelKey(SnakeKey(k)) == k
  {
    if k == [] {
    } else if IsUpperAscii(k[0]) {
      CamelKeyOfSnakeKey(k[1..]);
      var l := ToLowerAscii(k[0]);
      var rest := SnakeKey(k[1..]);
      var s := ['_', l] + rest;
      assert s[2..] == rest;
      assert CamelKey(s) == [ToUpperAscii(l)] + CamelKey(rest);
      assert k == [k[0]] + k[1..];
    } else {
      CamelKeyOfSnakeKey(k[1..]);
      var rest := SnakeKey(k[1..]);
      var s := [k[0]] + rest;
      assert s[1..] == rest;
      assert CamelKey(s) == [k[0]] + CamelKey(rest);
      assert k == [k[0]] + k[1..];
    }
  }

  datatype KeyStyle = ToCamel | ToSnake

  function Rename(style: KeyStyle, k: string): string
  {
    match style
    case ToCamel => CamelKey(k)
    case ToSnake => SnakeKey(k)
  }

  /** `result[f.key] = f.value` on an object under construction: an existing
      property keeps its place and takes the new value, a new one is added
      last. */
  function Put(acc: seq<Field>, f: Field): (r: seq<Field>)
    ensures KeySet(r) == KeySet(acc) + {f.key}
    ensures DistinctKeys(acc) ==> DistinctKeys(r)
    ensures f.key !in KeySet(acc) ==> r == acc + [f]
    ensures f.key in KeySet(acc) ==> |r| == |acc|
  {
    if f.key in KeySet(acc) then
      var r := seq(|acc|, i requires 0 <= i < |acc| => if acc[i].key == f.key then f else acc[i]);
      assert forall i :: 0 <= i < |acc| ==> r[i].key == acc[i].key;
      assert KeySet(r) == KeySet(acc) by {
        forall k | k in KeySet(acc) ensures k in KeySet(r) {
          var g :| g in acc && g.key == k;
          var i :| 0 <= i < |acc| && acc[i] == g;
          assert r[i] in r;
        }
        forall k | k in KeySet(r) ensures k in KeySet(acc) {
          var g :| g in r && g.key == k;
          var i :| 0 <= i < |r| && r[i] == g;
          assert acc[i] in acc;
        }
      }
      r
    else
      var r := acc + [f];
      assert KeySet(r) == KeySet(acc) + {f.key} by {
        forall k | k in KeySet(r) ensures k in KeySet(acc) + {f.key} {
          var g :| g in r && g.key == k;
          var i :| 0 <= i < |r| && r[i] == g;
          if i < |acc| { assert acc[i] in acc; }
        }
        assert r[|acc|] in r;
      }
      assert DistinctKeys(acc) ==> DistinctKeys(r) by {
        forall i | 0 <= i < |acc| ensures acc[i].key != f.key {
          assert acc[i] in acc;
        }
      }
      r
  }

  /** The object the `for` loop leaves behind once it has stored `fs` in
      order. */
  function Assemble(fs: seq<Field>): (r: seq<Field>)
    ensures KeySet(r) == KeySet(fs)
    ensures DistinctKeys(r)
  {
    if fs == [] then []
    else
      var init := fs[..|fs| - 1];
      assert fs == init + [fs[|fs| - 1]];
      assert KeySet(fs) == KeySet(init) + {fs[|fs| - 1].key};
      Put(Assemble(init), fs[|fs| - 1])
  }

  /** One more turn of the loop stores one more property. */
  lemma AssembleStep(fs: seq<Field>, i: nat)
    requires i < |fs|
    ensures Assemble(fs[..i + 1]) == Put(Assemble(fs[..i]), fs[i])
  {
    assert fs[..i + 1][..i] == fs[..i];
  }

  /** Storing properties whose names are all different rebuilds them as
      they are: no property is lost and none moves. */
  lemma {:induction false} AssembleDistinct(fs: seq<Field>)
    requires DistinctKeys(fs)
    ensures Assemble(fs) == fs
  {
    if fs != [] {
      var init := fs[..|fs| - 1];
      assert DistinctKeys(init);
      AssembleDistinct(init);
      var last := fs[|fs| - 1];
      assert last.key !in KeySet(init) by {
        forall g | g in init ensures g.key != last.key {
          var j :| 0 <= j < |init| && init[j] == g;
          assert fs[j] == g;
        }
      }
      assert fs == init + [last];
    }
  }

  /** The properties of object `v` under their new names with their values
      converted, in the order the loop visits them. */
  function RenamedFields(v: Value, style: KeyStyle): seq<Field>
    requires v.JObject?
    decreases v, 0
  {
    seq(|v.fields|, i requires 0 <= i < |v.fields| =>
      Field(Rename(style, v.fields[i].key), Rekeyed(v.fields[i].value, style)))
  }

  /** The value `snakeToCamel` (style `ToCamel`) or `camelToSnake` (style
      `ToSnake`) returns. */
  function Rekeyed(v: Value, style: KeyStyle): Value
    decreases v, 1
  {
    match v
    case JArray(items) => JArray(seq(|items|, i requires 0 <= i < |items| => Rekeyed(items[i], style)))
    case JObject(_) => JObject(Assemble(RenamedFields(v, style)))
    case _ => v
  }

  /** Arrays are converted element by element and keep their length; null,
      booleans, numbers, strings and `Date` objects come back unchanged. */
  lemma RekeyedShape(v: Value, style: KeyStyle)
    ensures v.JArray? ==>
      && Rekeyed(v, style).JArray?
      && |Rekeyed(v, style).items| == |v.items|
      && forall i :: 0 <= i < |v.items| ==> Rekeyed(v, style).items[i] == Rekeyed(v.items[i], style)
    ensures !v.JArray? && !v.JObject? ==> Rekeyed(v, style) == v
    ensures v.JObject? ==>
      && Rekeyed(v, style).JObject?
      && KeySet(Rekeyed(v, style).fields) == set f | f in v.fields :: Rename(style, f.key)
  {
    if v.JObject? {
      var rf := RenamedFields(v, style);
      assert KeySet(rf) == set f | f in v.fields :: Rename(style, f.key) by {
        forall k | k in KeySet(rf) ensures k in set f | f in v.fields :: Rename(style, f.key) {
          var g :| g in rf && g.key == k;
          var i :| 0 <= i < |rf| && rf[i] == g;
          assert v.fields[i] in v.fields;
        }
        forall k | k in set f | f in v.fields :: Rename(style, f.key) ensures k in KeySet(rf) {
          var f :| f in v.fields && Rename(style, f.key) == k;
          var i :| 0 <= i < |v.fields| && v.fields[i] == f;
          assert rf[i] in rf;
        }
      }
    }
  }

  /** When no two properties of an object collide after renaming, each
      property reappears in its place, under its converted name, with its
      value converted recursively. */
  lemma RekeyedObject(v: Value, style: KeyStyle)
    requires v.JObject? && DistinctKeys(RenamedFields(v, style))
    ensures Rekeyed(v, style) == JObject(RenamedFields(v, style))
    ensures forall i :: 0 <= i < |v.fields| ==>
      Rekeyed(v, style).fields[i] == Field(Rename(style, v.fields[i].key), Rekeyed(v.fields[i].value, style))
  {
    AssembleDistinct(RenamedFields(v, style));
  }

  /** A value all of whose property names are snake_case (no upper-case
      letter) and distinct within each object. */
  predicate SnakeShaped(v: Value)
  {
    match v
    case JArray(items) => forall i :: 0 <= i < |items| ==> SnakeShaped(items[i])
    case JObject(fields) =>
      && DistinctKeys(fields)
      && (forall i :: 0 <= i < |fields| ==> NoUpper(fields[i].key))
      && (forall i :: 0 <= i < |fields| ==> SnakeShaped(fields[i].value))
    case _ => true
  }

  /** Reading a snake_case row into camelCase and writing it back gives the
      row unchanged. */
  lemma {:induction false} RoundTrip(v: Value)
    requires SnakeShaped(v)
    ensures Rekeyed(Rekeyed(v, ToCamel), ToSnake) == v
  {
    match v
    case JArray(items) =>
      var once := Rekeyed(v, ToCamel);
      forall i | 0 <= i < |items| ensures Rekeyed(once.items[i], ToSnake) == items[i] {
        RoundTrip(items[i]);
      }
    case JObject(fields) =>
      var camel := RenamedFields(v, ToCamel);
      assert DistinctKeys(camel) by {
        forall i, j | 0 <= i < j < |camel| ensures camel[i].key != camel[j].key {
          SnakeKeyOfCamelKey(fields[i].key);
          SnakeKeyOfCamelKey(fields[j].key);
        }
      }
      RekeyedObject(v, ToCamel);
      var once := JObject(camel);
      var snake := RenamedFields(once, ToSnake);
      forall i | 0 <= i < |fields| ensures snake[i] == fields[i] {
        SnakeKeyOfCamelKey(fields[i].key);
        RoundTrip(fields[i].value);
      }
      assert snake == fields;
      RekeyedObject(once, ToSnake);
    case _ =>
  }

  /** The recursive walk as the source runs it: arrays are mapped, objects
      are filled property by property in a loop. */
  method Rekey(v: Value, style: KeyStyle) returns (r: Value)
    ensures r == Rekeyed(v, style)
    decreases v, 1
  {
    match v {
      case JArray(_) => r := RekeyArray(v, style);
      case JObject(_) => r := RekeyObject(v, style);
      case _ => r := v;
    }
  }

  /** `value.map(...)` on an array. */
  method RekeyArray(v: Value, style: KeyStyle) returns (r: Value)
    requires v.JArray?
    ensures r == Rekeyed(v, style)
    decreases v, 0
  {
    var items := v.items;
    var out: seq<Value> := [];
    for i := 0 to |items|
      invariant |out| == i
      invariant forall j :: 0 <= j < i ==> out[j] == Rekeyed(items[j], style)
    {
      var x := Rekey(items[i], style);
      out := out + [x];
    }
    r := JArray(out);
  }

  /** The `for ... in` loop that fills a fresh object. */
  method RekeyObject(v: Value, style: KeyStyle) returns (r: Value)
    requires v.JObject?
    ensures r == Rekeyed(v, style)
    decreases v, 0
  {
    var fields := v.fields;
    ghost var renamed := RenamedFields(v, style);
    var result: seq<Field> := [];
    for i := 0 to |fields|
      invariant result == Assemble(renamed[..i])
    {
      var key := Rename(style, fields[i].key);
      var value := Rekey(fields[i].value, style);
      assert Field(key, value) == renamed[i];
      AssembleStep(renamed, i);
      result := Put(result, Field(key, value));
    }
    assert renamed[..|fields|] == renamed;
    r := JObject(result);
  }

  /** `snakeToCamel`. */
  method SnakeToCamel(v: Value) returns (r: Value)
    ensures r == Rekeyed(v, ToCamel)
  {
    r := Rekey(v, ToCamel);
  }

  /** `camelToSnake`. */
  method CamelToSnake(v: Value) returns (r: Value)
    ensures r == Rekeyed(v, ToSnake)
  {
    r := Rekey(v, ToSnake);
  }
}
