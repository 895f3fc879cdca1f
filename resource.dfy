/**
 * A resource: a JSON object with its canonical URI and its path within the enclosing document.
 * This module holds the resource's state-aware property lookup; links and the relation search
 * live in the modules that build on it.
 */
module Resources {
  import opened Base
  import opened JsonNodes
  import opened Uris
  import opened Properties
  import Metadata

  /** A JSON pointer from the document root, carried as an opaque value. */
  datatype Pointer = Pointer(steps: seq<string>)

  datatype Resource = Resource(json: ObjectNode, uri: Uri, path: Pointer)

  /** The `@state` entry of the resource, if any. */
  function State(res: Resource): Option<Json>
  {
    Get(res.json, Metadata.STATE)
  }

  /** The resource's state: the `@state` value when present, otherwise the resource's own object. */
  function StateContainer(res: Resource): (r: Json)
    ensures State(res).Some? ==> r == State(res).value
    ensures State(res).None? ==> r == res.json
  {
    match State(res)
    case Some(state) => state
    case None => res.json
  }

  /** A name that counts as state at the top of a resource: not metadata-shaped, or `@state` itself. */
  predicate StateKey(name: string)
  {
    !Metadata.IsReserved(name) || name == Metadata.STATE
  }

  predicate HasState(res: Resource)
  {
    exists i :: 0 <= i < |res.json.fields| && StateKey(res.json.fields[i].0)
  }

  /** True iff some own property is state, including an empty `@state` container. */
  method ContainsState(res: Resource) returns (b: bool)
    ensures b == HasState(res)
  {
    var fields := res.json.fields;
    for i := 0 to |fields|
      invariant forall k :: 0 <= k < i ==> !StateKey(fields[k].0)
    {
      var name := fields[i].0;
      if !Metadata.IsReserved(name) || name == Metadata.STATE {
        return true;
      }
    }
    return false;
  }

  /** An entry as a property whose flag is set only for `@state` itself. */
  function StateFlagged(entry: Field): Property
  {
    Property(entry.0, entry.1, entry.0 == Metadata.STATE)
  }

  /**
   * A resource contains state exactly when one of its own properties, classified with the flag the
   * relation search gives it (set for `@state` itself), is a state property. A resource with a
   * `@state` entry always contains state.
   */
  lemma {:induction false} ContainsStateAgreesWithClassification(res: Resource)
    ensures HasState(res) <==>
              exists i :: 0 <= i < |res.json.fields| && IsState(StateFlagged(res.json.fields[i]))
    ensures State(res).Some? ==> HasState(res)
  {
    if State(res).Some? {
      var i :| 0 <= i < |res.json.fields| && res.json.fields[i] == (Metadata.STATE, State(res).value);
      assert StateKey(res.json.fields[i].0);
    }
  }

  /**
   * A direct property wins and is not inside state; otherwise the name is looked up one level
   * inside `@state` and the property is marked as inside state; otherwise there is none.
   */
  function GetOptionalProperty(res: Resource, name: string): (r: Option<Property>)
    ensures Has(res.json, name) ==> r == Some(Property(name, Get(res.json, name).value, false))
    ensures !Has(res.json, name) && State(res).Some? && Has(State(res).value, name) ==>
              r == Some(Property(name, Get(State(res).value, name).value, true))
    ensures !Has(res.json, name) && (State(res).None? || !Has(State(res).value, name)) ==> r == None
  {
    match Get(res.json, name)
    case Some(direct) => Some(Property(name, direct, false))
    case None =>
      match State(res)
      case None => None
      case Some(state) =>
        match Get(state, name)
        case None => None
        case Some(nested) => Some(Property(name, nested, true))
  }

  /**
   * The state container is where a property lookup looks once the resource's own object has no
   * entry of that name: the lookup then finds the container's entry, marked as inside state, when
   * there is a `@state` entry, and nothing otherwise. Without `@state` the container is the
   * resource's own object and the lookup finds exactly its entries.
   */
  lemma {:induction false} StateContainerLookup(res: Resource, name: string)
    ensures !Has(res.json, name) ==>
              (GetOptionalProperty(res, name).Some? <==> State(res).Some? && Has(StateContainer(res), name))
    ensures !Has(res.json, name) && GetOptionalProperty(res, name).Some? ==>
              GetOptionalProperty(res, name).value == Property(name, Get(StateContainer(res), name).value, true)
    ensures State(res).None? ==>
              (GetOptionalProperty(res, name).Some? <==> Has(StateContainer(res), name))
  {
  }

  /** Fails with NoSuchProperty exactly when the optional lookup finds nothing. */
  function GetProperty(res: Resource, name: string): (r: Result<Property>)
    ensures r.Err? <==> GetOptionalProperty(res, name).None?
    ensures r.Err? ==> r.error == NoSuchProperty
    ensures r.Ok? ==> GetOptionalProperty(res, name) == Some(r.value)
  {
    match GetOptionalProperty(res, name)
    case None => Err(NoSuchProperty)
    case Some(p) => Ok(p)
  }

  /** The metadata of a resource: entries whose names are metadata-shaped, other than `@state`. */
  predicate PlainMetadata(fields: seq<Field>)
  {
    forall i :: 0 <= i < |fields| ==> Metadata.IsReserved(fields[i].0) && fields[i].0 != Metadata.STATE
  }

  /**
   * Representation equivalence: state written inline and the same state wrapped in a `@state`
   * container give the same value for every state name, and both are classified as state. Inline
   * state is only possible when no state name is metadata-shaped.
   */
  lemma {:induction false} StateRepresentationsAgree(meta: seq<Field>, state: seq<Field>,
                                                    uri: Uri, path: Pointer, name: string)
    requires PlainMetadata(meta) && !Metadata.IsReserved(name)
    requires forall i :: 0 <= i < |state| ==> !Metadata.IsReserved(state[i].0)
    ensures var inline := GetOptionalProperty(Resource(Obj(meta + state), uri, path), name);
            var wrapped := GetOptionalProperty(
              Resource(Obj(meta + [(Metadata.STATE, Obj(state))]), uri, path), name);
            && inline.Some? == wrapped.Some?
            && (inline.Some? ==> inline.value.value == wrapped.value.value &&
                                 IsState(inline.value) && IsState(wrapped.value))
  {
    InlineStateLookup(meta, state, uri, path, name);
    WrappedStateLookup(meta, state, uri, path, name);
  }

  lemma {:induction false} InlineStateLookup(meta: seq<Field>, state: seq<Field>, uri: Uri, path: Pointer, name: string)
    requires PlainMetadata(meta) && !Metadata.IsReserved(name)
    requires forall i :: 0 <= i < |state| ==> !Metadata.IsReserved(state[i].0)
    ensures GetOptionalProperty(Resource(Obj(meta + state), uri, path), name) ==
            if Lookup(state, name).Some? then Some(Property(name, Lookup(state, name).value, false)) else None
  {
    LookupAppend(meta, state, name);
    LookupAppend(meta, state, Metadata.STATE);
    assert Lookup(meta, name).None?;
    assert Lookup(meta, Metadata.STATE).None?;
    assert Lookup(state, Metadata.STATE).None?;
  }

  lemma {:induction false} WrappedStateLookup(meta: seq<Field>, state: seq<Field>, uri: Uri, path: Pointer, name: string)
    requires PlainMetadata(meta) && !Metadata.IsReserved(name)
    ensures GetOptionalProperty(Resource(Obj(meta + [(Metadata.STATE, Obj(state))]), uri, path), name) ==
            if Lookup(state, name).Some? then Some(Property(name, Lookup(state, name).value, true)) else None
  {
    var container: seq<Field> := [(Metadata.STATE, Obj(state))];
    LookupAppend(meta, container, name);
    LookupAppend(meta, container, Metadata.STATE);
    assert Lookup(meta, name).None?;
    assert Lookup(meta, Metadata.STATE).None?;
    assert Lookup(container, Metadata.STATE) == Some(Obj(state));
    assert Lookup(container, name).None?;
  }

  /** The resource's state as strings: `@state` must be an elems of strings. */
  method GetStringValues(res: Resource) returns (r: Result<seq<string>>)
    ensures State(res).None? ==> r == Err(MissingState)
    ensures State(res).Some? && !State(res).value.Arr? ==> r == Err(StateNotArray)
    ensures State(res).Some? && State(res).value.Arr? && r.Err? ==> r.error == StateElementNotString
    ensures r.Ok? <==> State(res).Some? && State(res).value.Arr? &&
                       forall i :: 0 <= i < |State(res).value.elems| ==> State(res).value.elems[i].Str?
    ensures r.Ok? ==> |r.value| == |State(res).value.elems| &&
                      forall i :: 0 <= i < |r.value| ==> State(res).value.elems[i] == Str(r.value[i])
    ensures r.Err? ==> r.error in {MissingState, StateNotArray, StateElementNotString}
  {
    var state := State(res);
    if state.None? {
      return Err(MissingState);
    }
    if !state.value.Arr? {
      return Err(StateNotArray);
    }
    var elems := state.value.elems;
    var elements: seq<string> := [];
    for i := 0 to |elems|
      invariant |elements| == i
      invariant forall k :: 0 <= k < i ==> elems[k] == Str(elements[k])
    {
      if !elems[i].Str? {
        return Err(StateElementNotString);
      }
      elements := elements + [elems[i].s];
    }
    return Ok(elements);
  }

  /**
   * `Resource.equals`: two resources are equal when their JSON objects are (as Jackson compares
   * nodes: objects as maps from names to values, whatever the order of their entries), whatever
   * their URIs.
   */
  ghost predicate SameResource(a: Resource, b: Resource)
  {
    JsonEquals(a.json, b.json)
  }

  /** Stands in for `Resource.hashCode()`, which is the JSON object's hash code. */
  function ResourceHash(res: Resource): int
  {
    JsonHash(res.json)
  }

  lemma {:induction false} ResourceHashAgreesWithEquals(a: Resource, b: Resource)
    requires SameResource(a, b)
    ensures ResourceHash(a) == ResourceHash(b)
  {
    JsonHashAgreesWithEquals(a.json, b.json);
  }
}
