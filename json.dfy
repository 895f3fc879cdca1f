/**
 * The already-parsed, immutable JSON tree the resource model walks.
 * Object entries keep their insertion order, as a Jackson `ObjectNode` does.
 */
module JsonNodes {
  import opened Base
  import Uris

  datatype Json =
    | Null
    | Bool(b: bool)
    | Num(n: int)
    | Str(s: string)
    | Arr(elems: seq<Json>)
    | Obj(fields: seq<Field>)

  type Field = (string, Json)

  /** A node that is an object, the type of every resource's JSON. */
  type ObjectNode = j: Json | j.Obj? witness Obj([])

  /** The value of the first entry named `key`. */
  function Lookup(fields: seq<Field>, key: string): (r: Option<Json>)
    ensures r.Some? <==> exists i :: 0 <= i < |fields| && fields[i].0 == key
    ensures r.Some? ==> exists i :: 0 <= i < |fields| && fields[i] == (key, r.value)
  {
    if fields == [] then None
    else if fields[0].0 == key then Some(fields[0].1)
    else
      var r := Lookup(fields[1..], key);
      assert forall i :: 1 <= i < |fields| ==> fields[i] == fields[1..][i - 1];
      r
  }

  /** Looking up in two runs of entries: the first run wins. */
  lemma {:induction false} LookupAppend(a: seq<Field>, b: seq<Field>, key: string)
    ensures Lookup(a + b, key) == if Lookup(a, key).Some? then Lookup(a, key) else Lookup(b, key)
  {
    if a != [] {
      assert (a + b)[1..] == a[1..] + b;
      LookupAppend(a[1..], b, key);
    } else {
      assert a + b == b;
    }
  }

  /** `JsonNode.get(name)`: an object's entry, absent for every other kind of node. */
  function Get(j: Json, key: string): Option<Json>
  {
    if j.Obj? then Lookup(j.fields, key) else None
  }

  /** `JsonNode.has(name)`. */
  predicate Has(j: Json, key: string)
  {
    Get(j, key).Some?
  }

  /** No two entries share a name, as in every Jackson `ObjectNode`. */
  predicate UniqueKeys(fields: seq<Field>)
  {
    forall i, k :: 0 <= i < k < |fields| ==> fields[i].0 != fields[k].0
  }

  /** The names of the entries, in order. */
  function Keys(fields: seq<Field>): (r: seq<string>)
    ensures |r| == |fields|
    ensures forall i :: 0 <= i < |fields| ==> r[i] == fields[i].0
  {
    if fields == [] then [] else [fields[0].0] + Keys(fields[1..])
  }

  /**
   * `ObjectNode.put` / `ObjectNode.set`: replaces the value of an existing entry in place,
   * otherwise appends a new entry.
   */
  function Put(fields: seq<Field>, key: string, value: Json): (r: seq<Field>)
    ensures Lookup(r, key) == Some(value)
    ensures forall k :: k != key ==> Lookup(r, k) == Lookup(fields, k)
  {
    if fields == [] then [(key, value)]
    else if fields[0].0 == key then [(key, value)] + fields[1..]
    else [fields[0]] + Put(fields[1..], key, value)
  }

  /** Putting a name the object does not have appends the entry at the end. */
  lemma {:induction false} PutNewKey(fields: seq<Field>, key: string, value: Json)
    requires Lookup(fields, key).None?
    ensures Put(fields, key, value) == fields + [(key, value)]
  {
    if fields != [] {
      PutNewKey(fields[1..], key, value);
      assert [fields[0]] + (fields[1..] + [(key, value)]) == fields + [(key, value)];
    }
  }

  /** Putting never duplicates a name: it replaces the entry or adds one under a new name. */
  lemma {:induction false} PutKeepsUniqueKeys(fields: seq<Field>, key: string, value: Json)
    requires UniqueKeys(fields)
    ensures UniqueKeys(Put(fields, key, value))
  {
    if fields != [] && fields[0].0 != key {
      var rest := fields[1..];
      UniqueTail(fields);
      PutKeepsUniqueKeys(rest, key, value);
      var put := Put(rest, key, value);
      assert Lookup(put, fields[0].0).None?;
      UniqueCons(fields[0], put);
    } else if fields != [] {
      var r := Put(fields, key, value);
      forall i, k | 0 <= i < k < |r| ensures r[i].0 != r[k].0 {
        assert r[i].0 == fields[i].0 && r[k].0 == fields[k].0;
      }
    }
  }

  /** The entries after the first keep unique names, none of them the first entry's. */
  lemma {:induction false} UniqueTail(fields: seq<Field>)
    requires UniqueKeys(fields) && fields != []
    ensures UniqueKeys(fields[1..]) && Lookup(fields[1..], fields[0].0).None?
  {
    var rest := fields[1..];
    forall i, k | 0 <= i < k < |rest| ensures rest[i].0 != rest[k].0 {
      assert rest[i] == fields[i + 1] && rest[k] == fields[k + 1];
    }
    forall i | 0 <= i < |rest| ensures rest[i].0 != fields[0].0 {
      assert rest[i] == fields[i + 1];
    }
  }

  /** An entry under a name the rest does not use keeps the names unique. */
  lemma {:induction false} UniqueCons(entry: Field, rest: seq<Field>)
    requires UniqueKeys(rest) && Lookup(rest, entry.0).None?
    ensures UniqueKeys([entry] + rest)
  {
    var r := [entry] + rest;
    forall i, k | 0 <= i < k < |r| ensures r[i].0 != r[k].0 {
      assert r[k] == rest[k - 1];
      if i > 0 {
        assert r[i] == rest[i - 1];
      }
    }
  }

  // ---------------------------------------------------------------------------------------------
  // `JsonNode.equals` and `JsonNode.hashCode`.

  /** Entry `i` is the first entry with its name: the one `Lookup` finds. */
  predicate FirstWithName(fields: seq<Field>, i: int)
    requires 0 <= i < |fields|
  {
    forall m :: 0 <= m < i ==> fields[m].0 != fields[i].0
  }

  /** The two objects have the same names. */
  ghost predicate SameNames(a: seq<Field>, b: seq<Field>)
  {
    forall k :: Lookup(a, k).Some? <==> Lookup(b, k).Some?
  }

  /**
   * `JsonNode.equals`: arrays compare element by element, and objects compare as maps, with the
   * same names and equal values under each name, whatever the order of their entries.
   */
  ghost predicate JsonEquals(a: Json, b: Json)
    decreases a
  {
    match a
    case Arr(ea) =>
      && b.Arr? && |ea| == |b.elems|
      && forall i :: 0 <= i < |ea| ==> JsonEquals(ea[i], b.elems[i])
    case Obj(fa) =>
      && b.Obj? && SameNames(fa, b.fields)
      && forall i, j ::
           (0 <= i < |fa| && 0 <= j < |b.fields| && fa[i].0 == b.fields[j].0 &&
            FirstWithName(fa, i) && FirstWithName(b.fields, j)) ==> JsonEquals(fa[i].1, b.fields[j].1)
    case _ => a == b
  }

  /** The entry that `Lookup` finds. */
  lemma {:induction false} FirstIndex(fields: seq<Field>, key: string) returns (i: nat)
    requires Lookup(fields, key).Some?
    ensures i < |fields| && fields[i].0 == key && FirstWithName(fields, i)
    ensures fields[i].1 == Lookup(fields, key).value
  {
    if fields[0].0 == key {
      i := 0;
    } else {
      var j := FirstIndex(fields[1..], key);
      i := j + 1;
      assert fields[i] == fields[1..][j];
      forall m | 0 <= m < i ensures fields[m].0 != fields[i].0 {
        if m > 0 {
          assert fields[m] == fields[1..][m - 1];
        }
      }
    }
  }

  /** Two first entries with the same name are the same entry. */
  lemma {:induction false} FirstWithNameUnique(fields: seq<Field>, i: int, j: int)
    requires 0 <= i < |fields| && 0 <= j < |fields| && fields[i].0 == fields[j].0
    requires FirstWithName(fields, i) && FirstWithName(fields, j)
    ensures i == j
  {
  }

  lemma {:induction false} JsonEqualsReflexive(a: Json)
    ensures JsonEquals(a, a)
    decreases a
  {
    match a
    case Arr(ea) =>
      forall i | 0 <= i < |ea| ensures JsonEquals(ea[i], ea[i]) {
        JsonEqualsReflexive(ea[i]);
      }
    case Obj(fa) =>
      forall i, j | 0 <= i < |fa| && 0 <= j < |fa| && fa[i].0 == fa[j].0 &&
                    FirstWithName(fa, i) && FirstWithName(fa, j)
        ensures JsonEquals(fa[i].1, fa[j].1)
      {
        FirstWithNameUnique(fa, i, j);
        JsonEqualsReflexive(fa[i].1);
      }
    case _ =>
  }

  lemma {:induction false} JsonEqualsSymmetric(a: Json, b: Json)
    requires JsonEquals(a, b)
    ensures JsonEquals(b, a)
    decreases a
  {
    match a
    case Arr(ea) =>
      forall i | 0 <= i < |ea| ensures JsonEquals(b.elems[i], ea[i]) {
        JsonEqualsSymmetric(ea[i], b.elems[i]);
      }
    case Obj(fa) =>
      var fb := b.fields;
      forall j, i | 0 <= j < |fb| && 0 <= i < |fa| && fb[j].0 == fa[i].0 &&
                    FirstWithName(fb, j) && FirstWithName(fa, i)
        ensures JsonEquals(fb[j].1, fa[i].1)
      {
        JsonEqualsSymmetric(fa[i].1, fb[j].1);
      }
    case _ =>
  }

  lemma {:induction false} JsonEqualsTransitive(a: Json, b: Json, c: Json)
    requires JsonEquals(a, b) && JsonEquals(b, c)
    ensures JsonEquals(a, c)
    decreases a
  {
    match a
    case Arr(ea) =>
      forall i | 0 <= i < |ea| ensures JsonEquals(ea[i], c.elems[i]) {
        JsonEqualsTransitive(ea[i], b.elems[i], c.elems[i]);
      }
    case Obj(fa) =>
      var fb, fc := b.fields, c.fields;
      forall i, l | 0 <= i < |fa| && 0 <= l < |fc| && fa[i].0 == fc[l].0 &&
                    FirstWithName(fa, i) && FirstWithName(fc, l)
        ensures JsonEquals(fa[i].1, fc[l].1)
      {
        assert Lookup(fa, fa[i].0).Some?;
        var j := FirstIndex(fb, fa[i].0);
        JsonEqualsTransitive(fa[i].1, fb[j].1, fc[l].1);
      }
    case _ =>
  }

  /** Objects with the same entries, each name used once, are equal whatever the order of the entries. */
  lemma {:induction false} EntryOrderIgnored(fa: seq<Field>, fb: seq<Field>)
    requires UniqueKeys(fa) && UniqueKeys(fb) && multiset(fa) == multiset(fb)
    ensures JsonEquals(Obj(fa), Obj(fb))
  {
    forall k ensures Lookup(fa, k).Some? <==> Lookup(fb, k).Some? {
      if Lookup(fa, k).Some? {
        var i :| 0 <= i < |fa| && fa[i].0 == k;
        assert fa[i] in multiset(fb);
      }
      if Lookup(fb, k).Some? {
        var j :| 0 <= j < |fb| && fb[j].0 == k;
        assert fb[j] in multiset(fa);
      }
    }
    forall i, j | 0 <= i < |fa| && 0 <= j < |fb| && fa[i].0 == fb[j].0 &&
                  FirstWithName(fa, i) && FirstWithName(fb, j)
      ensures JsonEquals(fa[i].1, fb[j].1)
    {
      assert fa[i] in multiset(fb);
      var m :| 0 <= m < |fb| && fb[m] == fa[i];
      assert m == j;
      JsonEqualsReflexive(fa[i].1);
    }
  }

  /** The distinct names of an object. */
  function Names(fields: seq<Field>): set<string>
  {
    set i | 0 <= i < |fields| :: fields[i].0
  }

  /**
   * Stands in for `JsonNode.hashCode()`: a string hashes as `String.hashCode()` and an integer as
   * itself; an array by its length and an object by its number of names, so that entry order
   * never matters.
   */
  function JsonHash(j: Json): int
  {
    match j
    case Null => 0
    case Bool(b) => if b then 3 else 1
    case Num(n) => n
    case Str(s) => Uris.StringHash(s)
    case Arr(es) => |es|
    case Obj(fs) => |Names(fs)|
  }

  /** Equal nodes have equal hash codes. */
  lemma {:induction false} JsonHashAgreesWithEquals(a: Json, b: Json)
    requires JsonEquals(a, b)
    ensures JsonHash(a) == JsonHash(b)
  {
    if a.Obj? {
      forall k ensures k in Names(a.fields) <==> k in Names(b.fields) {
        NamesAreLookups(a.fields, k);
        NamesAreLookups(b.fields, k);
      }
      assert Names(a.fields) == Names(b.fields);
    }
  }

  lemma {:induction false} NamesAreLookups(fields: seq<Field>, k: string)
    ensures k in Names(fields) <==> Lookup(fields, k).Some?
  {
    if Lookup(fields, k).Some? {
      var i :| 0 <= i < |fields| && fields[i].0 == k;
      assert fields[i].0 in Names(fields);
    }
  }

  /** The nodes a Java for-each over a `JsonNode` visits: array elements or object values. */
  function Children(j: Json): (r: seq<Json>)
    ensures j.Arr? ==> r == j.elems
    ensures j.Obj? ==> |r| == |j.fields| && forall i :: 0 <= i < |r| ==> r[i] == j.fields[i].1
    ensures !j.Arr? && !j.Obj? ==> r == []
  {
    match j
    case Arr(es) => es
    case Obj(fs) => seq(|fs|, i requires 0 <= i < |fs| => fs[i].1)
    case _ => []
  }

  /** The entries a Java for-each over `JsonNode.properties()` visits: none unless `j` is an object. */
  function Entries(j: Json): seq<Field>
  {
    if j.Obj? then j.fields else []
  }

  // ---------------------------------------------------------------------------------------------
  // `JsonNode.toString()`: Jackson's compact rendering.

  function Render(j: Json): string
    decreases j
  {
    match j
    case Null => "null"
    case Bool(b) => if b then "true" else "false"
    case Num(n) => IntToString(n)
    case Str(s) => Quote(s)
    case Arr(es) => "[" + RenderElements(j, |es|) + "]"
    case Obj(fs) => "{" + RenderFields(j, |fs|) + "}"
  }

  /** The first `n` elements of an array, comma-separated. */
  function RenderElements(j: Json, n: nat): string
    requires j.Arr? && n <= |j.elems|
    decreases j, n
  {
    if n == 0 then ""
    else if n == 1 then Render(j.elems[0])
    else RenderElements(j, n - 1) + "," + Render(j.elems[n - 1])
  }

  /** The first `n` entries of an object, comma-separated. */
  function RenderFields(j: Json, n: nat): string
    requires j.Obj? && n <= |j.fields|
    decreases j, n
  {
    if n == 0 then ""
    else
      var entry := Quote(j.fields[n - 1].0) + ":" + Render(j.fields[n - 1].1);
      if n == 1 then entry else RenderFields(j, n - 1) + "," + entry
  }

  /** A string literal: the escaped text between double quotes. */
  function Quote(s: string): (r: string)
    ensures |r| >= 2 && r[0] == '"' && r[|r| - 1] == '"'
  {
    "\"" + Escape(s) + "\""
  }

  function Escape(s: string): string
  {
    if s == [] then "" else EscapeChar(s[0]) + Escape(s[1..])
  }

  /** Jackson escapes quotes, backslashes and control characters, and nothing else. */
  function EscapeChar(c: char): string
  {
    if c == '"' then "\\\""
    else if c == '\\' then "\\\\"
    else if c == '\n' then "\\n"
    else if c == '\r' then "\\r"
    else if c == '\t' then "\\t"
    else if c == '\U{0008}' then "\\b"
    else if c == '\U{000C}' then "\\f"
    else if c < ' ' then "\\u00" + [HexDigit(c as int / 16), HexDigit(c as int % 16)]
    else [c]
  }

  /** Text without quotes, backslashes or control characters is written unchanged. */
  lemma {:induction false} EscapePlain(s: string)
    requires forall i :: 0 <= i < |s| ==> s[i] != '"' && s[i] != '\\' && s[i] >= ' '
    ensures Escape(s) == s
  {
    if s != [] {
      EscapePlain(s[1..]);
    }
  }

  /** Escaping never shortens the text. */
  lemma {:induction false} EscapeLength(s: string)
    ensures |Escape(s)| >= |s|
  {
    if s != [] {
      EscapeLength(s[1..]);
    }
  }

  /** A rendered string is never the text it renders: the quotes make it longer. */
  lemma {:induction false} RenderedStringDiffers(s: string)
    ensures Render(Str(s)) != s
  {
    EscapeLength(s);
  }

  /** Such text renders as itself between double quotes. */
  lemma {:induction false} RenderPlainString(s: string)
    requires forall i :: 0 <= i < |s| ==> s[i] != '"' && s[i] != '\\' && s[i] >= ' '
    ensures Render(Str(s)) == "\"" + s + "\""
  {
    EscapePlain(s);
  }

  function HexDigit(d: int): char
    requires 0 <= d < 16
  {
    if d < 10 then ('0' as int + d) as char else ('A' as int + d - 10) as char
  }

  function IntToString(n: int): string
  {
    if n < 0 then "-" + NatToString(-n) else NatToString(n)
  }

  function NatToString(n: nat): (r: string)
    ensures |r| > 0
  {
    if n < 10 then [('0' as int + n) as char]
    else NatToString(n / 10) + [('0' as int + n % 10) as char]
  }
}
