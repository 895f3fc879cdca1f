/**
 * A property view: a name, the value node and whether the property was found inside a `@state`
 * container. It classifies itself as metadata or state and coerces its value to typed results.
 */
module Properties {
  import opened Base
  import opened JsonNodes
  import opened Uris
  import Metadata

  datatype Property = Property(name: string, value: Json, insideState: bool)

  /** A metadata property: named like metadata and not found inside `@state`. */
  predicate IsMetadata(p: Property)
  {
    !p.insideState && Metadata.IsReserved(p.name)
  }

  predicate IsState(p: Property)
  {
    !IsMetadata(p)
  }

  /** Classification depends only on the name and the flag, never on the value. */
  lemma {:induction false} ClassificationIgnoresValue(p: Property, v: Json)
    ensures IsState(p) <==> IsState(p.(value := v))
    ensures IsState(p) <==> (p.insideState || !Metadata.IsReserved(p.name))
    ensures p.insideState ==> IsState(p)
  {
  }

  /** The text of a string value; any other value is a type mismatch. */
  function StringValue(p: Property): (r: Result<string>)
    ensures r.Ok? <==> p.value.Str?
    ensures r.Ok? ==> p.value == Str(r.value)
    ensures r.Err? ==> r.error == TypeMismatch
  {
    if p.value.Str? then Ok(p.value.s) else Err(TypeMismatch)
  }

  /** The string value parsed as a URI. */
  function UriValue(p: Property): (r: Result<Uri>)
    ensures StringValue(p).Err? ==> r == Err(TypeMismatch)
    ensures r.Ok? <==> StringValue(p).Ok? && ValidUri(StringValue(p).value)
    ensures r.Ok? ==> StringValue(p) == Ok(r.value.text)
    ensures StringValue(p).Ok? && r.Err? ==> r.error == InvalidUri
  {
    match StringValue(p)
    case Err(e) => Err(e)
    case Ok(s) => match Parse(s)
      case Some(u) => Ok(u)
      case None => Err(InvalidUri)
  }

  /** The elements of an array value, each of which must be a string, in array order. */
  method StringValues(p: Property) returns (r: Result<seq<string>>)
    ensures r.Ok? <==> p.value.Arr? && forall i :: 0 <= i < |p.value.elems| ==> p.value.elems[i].Str?
    ensures r.Ok? ==> |r.value| == |p.value.elems| &&
                      forall i :: 0 <= i < |r.value| ==> p.value.elems[i] == Str(r.value[i])
    ensures r.Err? ==> r.error == TypeMismatch
  {
    if !p.value.Arr? {
      return Err(TypeMismatch);
    }
    var elements: seq<string> := [];
    for i := 0 to |p.value.elems|
      invariant |elements| == i
      invariant forall k :: 0 <= k < i ==> p.value.elems[k] == Str(elements[k])
    {
      var element := StringValue(Property(p.name, p.value.elems[i], p.insideState));
      if element.Err? {
        return Err(element.error);
      }
      elements := elements + [element.value];
    }
    return Ok(elements);
  }

  // ---------------------------------------------------------------------------------------------
  // Integer-keyed maps.

  /**
   * `Integer.parseInt`: an optional sign, then one or more decimal digits, within the signed
   * 32-bit range.
   */
  function ParseInt(s: string): (r: Option<int>)
    ensures r.Some? ==> -0x8000_0000 <= r.value < 0x8000_0000
  {
    var signed := |s| > 0 && (s[0] == '-' || s[0] == '+');
    var digits := if signed then s[1..] else s;
    if digits == [] || !AllDigits(digits) then None
    else
      var v: int := if signed && s[0] == '-' then -(DigitsValue(digits) as int) else DigitsValue(digits);
      if -0x8000_0000 <= v < 0x8000_0000 then Some(v) else None
  }

  predicate AllDigits(s: string)
  {
    forall i :: 0 <= i < |s| ==> '0' <= s[i] <= '9'
  }

  function DigitsValue(s: string): nat
    requires AllDigits(s)
  {
    if s == [] then 0 else 10 * DigitsValue(s[..|s| - 1]) + (s[|s| - 1] as int - '0' as int)
  }

  /** One entry's effect on the map: parse the key, then demand a string value. */
  function PutEntry(m: map<int, string>, entry: Field): Result<map<int, string>>
  {
    match ParseInt(entry.0)
    case None => Err(InvalidInteger)
    case Some(key) => if entry.1.Str? then Ok(m[key := entry.1.s]) else Err(TypeMismatch)
  }

  /** The map built from `entries`, in order: a later entry replaces an earlier one with the same key. */
  function IntegerMap(entries: seq<Field>): Result<map<int, string>>
  {
    if entries == [] then Ok(map[])
    else match IntegerMap(entries[..|entries| - 1])
      case Err(e) => Err(e)
      case Ok(m) => PutEntry(m, entries[|entries| - 1])
  }

  predicate GoodEntry(entry: Field)
  {
    ParseInt(entry.0).Some? && entry.1.Str?
  }

  /** No later entry's key parses to the same integer as entry `i`'s. */
  predicate LastWithKey(entries: seq<Field>, i: int)
    requires 0 <= i < |entries|
  {
    forall j :: i < j < |entries| ==> ParseInt(entries[j].0) != ParseInt(entries[i].0)
  }

  /** The map succeeds exactly when every key is an integer and every value a string. */
  lemma {:induction false} IntegerMapSucceeds(entries: seq<Field>)
    ensures IntegerMap(entries).Ok? <==> forall i :: 0 <= i < |entries| ==> GoodEntry(entries[i])
  {
    if entries != [] {
      var init := entries[..|entries| - 1];
      IntegerMapSucceeds(init);
      assert forall i :: 0 <= i < |init| ==> init[i] == entries[i];
    }
  }

  /** On success the keys of the map are exactly the parsed keys of the entries. */
  lemma {:induction false} IntegerMapKeys(entries: seq<Field>)
    requires IntegerMap(entries).Ok?
    ensures forall n :: n in IntegerMap(entries).value <==>
                          exists i :: 0 <= i < |entries| && ParseInt(entries[i].0) == Some(n)
  {
    if entries != [] {
      var init := entries[..|entries| - 1];
      IntegerMapKeys(init);
      assert forall i :: 0 <= i < |init| ==> init[i] == entries[i];
    }
  }

  /** On success each key holds the text of the last entry whose key parses to it. */
  lemma {:induction false} IntegerMapLastWins(entries: seq<Field>, i: int)
    requires IntegerMap(entries).Ok?
    requires 0 <= i < |entries| && LastWithKey(entries, i)
    ensures ParseInt(entries[i].0).Some? && entries[i].1.Str?
    ensures ParseInt(entries[i].0).value in IntegerMap(entries).value
    ensures IntegerMap(entries).value[ParseInt(entries[i].0).value] == entries[i].1.s
  {
    var init := entries[..|entries| - 1];
    assert forall k :: 0 <= k < |init| ==> init[k] == entries[k];
    if i < |init| {
      assert LastWithKey(init, i);
      IntegerMapLastWins(init, i);
    }
  }

  /** Once a prefix of the entries fails, the whole map fails with the same error. */
  lemma {:induction false} IntegerMapFailureSticks(entries: seq<Field>, n: nat)
    requires n <= |entries| && IntegerMap(entries[..n]).Err?
    ensures IntegerMap(entries) == IntegerMap(entries[..n])
    decreases |entries| - n
  {
    if n == |entries| {
      assert entries[..n] == entries;
    } else {
      assert entries[..n + 1][..n] == entries[..n];
      IntegerMapFailureSticks(entries, n + 1);
    }
  }

  /**
   * The map from integer keys to string values. Every kind of value is accepted: one without entries,
   * such as a string, yields the empty map.
   */
  method IntegerToStringValue(p: Property) returns (r: Result<map<int, string>>)
    ensures r == IntegerMap(Entries(p.value))
    ensures !p.value.Obj? ==> r == Ok(map[])
  {
    var entries := Entries(p.value);
    var m: map<int, string> := map[];
    for i := 0 to |entries|
      invariant IntegerMap(entries[..i]) == Ok(m)
    {
      var (key, value) := entries[i];
      assert entries[..i + 1][..i] == entries[..i];
      assert IntegerMap(entries[..i + 1]) == PutEntry(m, entries[i]);
      var version := ParseInt(key);
      if version.None? {
        IntegerMapFailureSticks(entries, i + 1);
        return Err(InvalidInteger);
      }
      var nested := StringValue(Property(key, value, p.insideState));
      if nested.Err? {
        IntegerMapFailureSticks(entries, i + 1);
        return Err(nested.error);
      }
      m := m[version.value := nested.value];
    }
    assert entries[..|entries|] == entries;
    return Ok(m);
  }
}
