/**
 * Turning JSON nodes into links (the `getOptionalLink` and `containsLink` overloads of Resource.java),
 * the `@relations` membership test, and the resource's state read as a list of links.
 */
module LinkResolution {
  import opened Base
  import opened JsonNodes
  import opened Uris
  import opened Resources
  import opened Links
  import Metadata

  /** A string node is a link when its text parses as a URI; the link omits the state. */
  function TextLink(text: string): (r: Option<Link>)
    ensures r.Some? <==> ValidUri(text)
    ensures r.Some? ==> r.value == ToUri(Uri(text))
  {
    match Parse(text)
    case Some(u) => Some(ToUri(u))
    case None => None
  }

  /**
   * An object is a link when it has `@link`; a `@link` that is not a string, or not a URI, is an
   * error. The link built from a valid `@link` omits the state: the object's own content is dropped.
   */
  function ObjectLink(obj: Json): (r: Result<Option<Link>>)
    requires obj.Obj?
    ensures Get(obj, Metadata.LINK).None? <==> r == Ok(None)
    ensures r.Ok? && r.value.Some? ==>
              r.value.value.Omitted? && Get(obj, Metadata.LINK) == Some(Str(r.value.value.uri.text)) &&
              ValidUri(r.value.value.uri.text)
    ensures r.Err? <==> Get(obj, Metadata.LINK).Some? &&
                        !(Get(obj, Metadata.LINK).value.Str? && ValidUri(Get(obj, Metadata.LINK).value.s))
    ensures r.Err? ==> r.error == if Get(obj, Metadata.LINK).value.Str? then InvalidUri else LinkNotText
  {
    match Get(obj, Metadata.LINK)
    case None => Ok(None)
    case Some(Str(text)) =>
      (match TextLink(text)
       case None => Err(InvalidUri)
       case Some(l) => Ok(Some(l)))
    case Some(_) => Err(LinkNotText)
  }

  /** Any node: strings and objects as above, every other node is not a link. */
  function NodeLink(node: Json): (r: Result<Option<Link>>)
    ensures !node.Str? && !node.Obj? ==> r == Ok(None)
    ensures node.Str? ==> r == Ok(TextLink(node.s))
    ensures node.Obj? ==> r == ObjectLink(node)
    ensures r.Ok? && r.value.Some? ==> r.value.value.Omitted? && ValidUri(r.value.value.uri.text)
  {
    match node
    case Str(text) => Ok(TextLink(text))
    case Obj(_) => ObjectLink(node)
    case _ => Ok(None)
  }

  /** `containsLink(TextNode)`: the text parses as a URI. */
  predicate ContainsTextLink(text: string)
  {
    Parse(text).Some?
  }

  /** `containsLink(ObjectNode)`: whether the object has `@link`, failing when it is malformed. */
  function ContainsLink(obj: Json): Result<bool>
    requires obj.Obj?
  {
    match Get(obj, Metadata.LINK)
    case None => Ok(false)
    case Some(Str(text)) => if ContainsTextLink(text) then Ok(true) else Err(InvalidUri)
    case Some(_) => Err(LinkNotText)
  }

  /** `containsLink` answers, and fails, exactly as `getOptionalLink` of the same object does. */
  lemma {:induction false} ContainsLinkAgreesWithObjectLink(obj: Json)
    requires obj.Obj?
    ensures ObjectLink(obj).Err? ==> ContainsLink(obj) == Err(ObjectLink(obj).error)
    ensures ObjectLink(obj).Ok? ==> ContainsLink(obj) == Ok(ObjectLink(obj).value.Some?)
  {
    match Get(obj, Metadata.LINK)
    case None =>
    case Some(v) =>
      if v.Str? {
        assert ContainsTextLink(v.s) <==> ValidUri(v.s);
      }
  }

  // ---------------------------------------------------------------------------------------------
  // `@relations` membership.

  /**
   * The object's `@relations` holds a node whose `toString()` equals the relation. Iterating a node
   * visits array elements or object values; any other node has nothing to visit.
   */
  predicate RelationsContain(obj: Json, relation: string)
  {
    && Get(obj, Metadata.RELATIONS).Some?
    && exists i :: 0 <= i < |Children(Get(obj, Metadata.RELATIONS).value)| &&
                   Render(Children(Get(obj, Metadata.RELATIONS).value)[i]) == relation
  }

  method NodeContainsRelation(obj: Json, relation: string) returns (b: bool)
    requires obj.Obj?
    ensures b == RelationsContain(obj, relation)
  {
    var relations := Get(obj, Metadata.RELATIONS);
    if relations.None? {
      return false;
    }
    var values := Children(relations.value);
    for i := 0 to |values|
      invariant forall k :: 0 <= k < i ==> Render(values[k]) != relation
    {
      if Render(values[i]) == relation {
        return true;
      }
    }
    return false;
  }

  /**
   * A string in `@relations` is compared in its quoted form, so it matches only a relation that
   * is itself that quoted text; a `@relations` array of strings never names a relation that does
   * not start with a double quote.
   */
  lemma {:induction false} StringRelationsMatchQuotedText(obj: Json, relation: string)
    requires Get(obj, Metadata.RELATIONS).Some?
    requires forall i :: 0 <= i < |Children(Get(obj, Metadata.RELATIONS).value)| ==>
               Children(Get(obj, Metadata.RELATIONS).value)[i].Str?
    ensures RelationsContain(obj, relation) <==>
              exists i :: 0 <= i < |Children(Get(obj, Metadata.RELATIONS).value)| &&
                          relation == Quote(Children(Get(obj, Metadata.RELATIONS).value)[i].s)
    ensures RelationsContain(obj, relation) ==> |relation| >= 2 && relation[0] == '"'
  {
    var values := Children(Get(obj, Metadata.RELATIONS).value);
    if RelationsContain(obj, relation) {
      var i :| 0 <= i < |values| && Render(values[i]) == relation;
      assert relation == Quote(values[i].s);
    }
  }

  // ---------------------------------------------------------------------------------------------
  // The resource's state as links.

  /** Every element of `@state`, which must be an array, resolved to a link, in array order. */
  method GetResourceLinks(res: Resource) returns (r: Result<seq<Link>>)
    ensures State(res).None? ==> r == Err(MissingState)
    ensures State(res).Some? && !State(res).value.Arr? ==> r == Err(StateNotArray)
    ensures r.Ok? <==> State(res).Some? && State(res).value.Arr? &&
                       forall i :: 0 <= i < |State(res).value.elems| ==>
                         NodeLink(State(res).value.elems[i]).Ok? &&
                         NodeLink(State(res).value.elems[i]).value.Some?
    ensures r.Ok? ==> |r.value| == |State(res).value.elems| &&
                      forall i :: 0 <= i < |r.value| ==> NodeLink(State(res).value.elems[i]) == Ok(Some(r.value[i]))
    ensures r.Err? && State(res).Some? && State(res).value.Arr? ==>
              r.error == StateElementNotResource || r.error == InvalidUri || r.error == LinkNotText
  {
    var state := State(res);
    if state.None? {
      return Err(MissingState);
    }
    if !state.value.Arr? {
      return Err(StateNotArray);
    }
    var values := state.value.elems;
    var links: seq<Link> := [];
    for i := 0 to |values|
      invariant |links| == i
      invariant forall k :: 0 <= k < i ==> NodeLink(values[k]) == Ok(Some(links[k]))
    {
      var link := NodeLink(values[i]);
      if link.Err? {
        return Err(link.error);
      }
      if link.value.None? {
        return Err(StateElementNotResource);
      }
      links := links + [link.value.value];
    }
    return Ok(links);
  }
}
