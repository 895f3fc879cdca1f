/**
 * The relation search of Resource.java: a depth-first walk over the resource's JSON that returns the
 * first link (`getOptionalResource`) or every link (`getOptionalResources`) it accepts.
 *
 * The walk is specified by functions that fold over the first `n` entries of an object or the first
 * `n` elements of an array; the methods, which loop and recurse the way the Java code does, are
 * proved to compute exactly those functions.
 */
module Search {
  import opened Base
  import opened JsonNodes
  import opened Uris
  import opened Properties
  import opened Resources
  import opened Links
  import opened LinkResolution
  import Metadata

  /** Every link the search returns is built from a URI text, so it omits the target's state. */
  predicate Resolved(l: Link)
  {
    l.Omitted? && ValidUri(l.uri.text)
  }

  /** The walk fails only on a malformed `@link` or on an explicit match without a `@link`. */
  predicate WalkFailure(e: Failure)
  {
    e == InvalidUri || e == LinkNotText || e == RelationWithoutLink
  }

  /**
   * An entry the walk does not descend into: a metadata property, other than `@state`, met outside
   * every `@state` container.
   */
  predicate SkipsEntry(name: string, child: Json, inside: bool)
  {
    IsMetadata(Property(name, child, inside || name == Metadata.STATE)) && name != Metadata.STATE
  }

  /**
   * An object that lists the relation in `@relations` is itself the match, and must then carry a
   * valid `@link`.
   */
  function ExplicitMatch(obj: Json, rel: string): (r: Result<Option<Link>>)
    requires obj.Obj?
    ensures !RelationsContain(obj, rel) ==> r == Ok(None)
    ensures RelationsContain(obj, rel) ==> r != Ok(None)
    ensures RelationsContain(obj, rel) && !Has(obj, Metadata.LINK) ==> r == Err(RelationWithoutLink)
    ensures r.Ok? && r.value.Some? ==> Resolved(r.value.value) &&
                                       Get(obj, Metadata.LINK) == Some(Str(r.value.value.uri.text))
  {
    if !RelationsContain(obj, rel) then Ok(None)
    else match ObjectLink(obj)
      case Err(e) => Err(e)
      case Ok(None) => Err(RelationWithoutLink)
      case Ok(Some(l)) => Ok(Some(l))
  }

  // ---------------------------------------------------------------------------------------------
  // The first match.

  /** `getOptionalResource(fromObject, relation, insideStateMetadata)`. */
  function FindOne(obj: Json, rel: string, inside: bool): (r: Result<Option<Link>>)
    requires obj.Obj?
    ensures r.Ok? && r.value.Some? ==> Resolved(r.value.value)
    ensures r.Err? ==> WalkFailure(r.error)
    decreases obj, 2
  {
    FindOneIn(obj, rel, inside, |obj.fields|)
  }

  /** The walk after the explicit check and the first `n` entries: the first outcome other than "none". */
  function FindOneIn(obj: Json, rel: string, inside: bool, n: nat): (r: Result<Option<Link>>)
    requires obj.Obj? && n <= |obj.fields|
    ensures r.Ok? && r.value.Some? ==> Resolved(r.value.value)
    ensures r.Err? ==> WalkFailure(r.error)
    decreases obj, 1, n
  {
    if n == 0 then ExplicitMatch(obj, rel)
    else
      var prior := FindOneIn(obj, rel, inside, n - 1);
      if prior != Ok(None) then prior
      else FindOneEntry(obj.fields[n - 1].0, obj.fields[n - 1].1, rel, inside)
  }

  /**
   * One entry of an object. An entry named after the relation (whose value has no `@relations`) is
   * a match when its value is a link. Otherwise metadata is skipped; a string is a match when it is
   * a URI; an array is searched; an object with a `@link` is a nested resource and is skipped,
   * any other object is searched, inside `@state` when it is (or is within) a `@state` value.
   */
  function FindOneEntry(name: string, child: Json, rel: string, inside: bool): (r: Result<Option<Link>>)
    ensures r.Ok? && r.value.Some? ==> Resolved(r.value.value)
    ensures r.Err? ==> WalkFailure(r.error)
    decreases child, 3
  {
    var named := if name == rel && !Has(child, Metadata.RELATIONS) then NodeLink(child) else Ok(None);
    if named != Ok(None) then named
    else if SkipsEntry(name, child, inside) then Ok(None)
    else match child
      case Str(s) => Ok(TextLink(s))
      case Arr(es) => FindOneInArray(child, rel, |es|)
      case Obj(_) =>
        (match ContainsLink(child)
         case Err(e) => Err(e)
         case Ok(true) => Ok(None)
         case Ok(false) => FindOne(child, rel, inside || name == Metadata.STATE))
      case _ => Ok(None)
  }

  /** `getOptionalResourceFromArray` over the first `n` elements. */
  function FindOneInArray(arr: Json, rel: string, n: nat): (r: Result<Option<Link>>)
    requires arr.Arr? && n <= |arr.elems|
    ensures r.Ok? && r.value.Some? ==> Resolved(r.value.value)
    ensures r.Err? ==> WalkFailure(r.error)
    decreases arr, 1, n
  {
    if n == 0 then Ok(None)
    else
      var prior := FindOneInArray(arr, rel, n - 1);
      if prior != Ok(None) then prior else FindOneElement(arr.elems[n - 1], rel)
  }

  /**
   * One array element: a string is a match when it is a URI, an array is searched, an object with
   * any `@link` is skipped unchecked, any other object is searched as outside `@state`.
   */
  function FindOneElement(e: Json, rel: string): (r: Result<Option<Link>>)
    ensures r.Ok? && r.value.Some? ==> Resolved(r.value.value)
    ensures r.Err? ==> WalkFailure(r.error)
    decreases e, 3
  {
    match e
    case Str(s) => Ok(TextLink(s))
    case Arr(es) => FindOneInArray(e, rel, |es|)
    case Obj(_) => if Has(e, Metadata.LINK) then Ok(None) else FindOne(e, rel, false)
    case _ => Ok(None)
  }

  /** Once an outcome other than "none" is reached, later entries do not change it. */
  lemma {:induction false} FindOneStops(obj: Json, rel: string, inside: bool, i: nat, n: nat)
    requires obj.Obj? && i <= n <= |obj.fields|
    requires FindOneIn(obj, rel, inside, i) != Ok(None)
    ensures FindOneIn(obj, rel, inside, n) == FindOneIn(obj, rel, inside, i)
    decreases n
  {
    if n > i {
      FindOneStops(obj, rel, inside, i, n - 1);
    }
  }

  lemma {:induction false} FindOneInArrayStops(arr: Json, rel: string, i: nat, n: nat)
    requires arr.Arr? && i <= n <= |arr.elems|
    requires FindOneInArray(arr, rel, i) != Ok(None)
    ensures FindOneInArray(arr, rel, n) == FindOneInArray(arr, rel, i)
    decreases n
  {
    if n > i {
      FindOneInArrayStops(arr, rel, i, n - 1);
      assert FindOneInArray(arr, rel, n - 1) != Ok(None);
    }
  }

  // ---------------------------------------------------------------------------------------------
  // Every match.

  /** `getOptionalResources(fromObject, relation, insideStateMetadata)`. */
  function FindAll(obj: Json, rel: string, inside: bool): (r: Result<seq<Link>>)
    requires obj.Obj?
    ensures r.Ok? ==> forall k :: 0 <= k < |r.value| ==> Resolved(r.value[k])
    ensures r.Err? ==> WalkFailure(r.error)
    decreases obj, 2
  {
    FindAllIn(obj, rel, inside, |obj.fields|)
  }

  /** The matches of the explicit check followed by those of the first `n` entries, in order. */
  function FindAllIn(obj: Json, rel: string, inside: bool, n: nat): (r: Result<seq<Link>>)
    requires obj.Obj? && n <= |obj.fields|
    ensures r.Ok? ==> forall k :: 0 <= k < |r.value| ==> Resolved(r.value[k])
    ensures r.Err? ==> WalkFailure(r.error)
    decreases obj, 1, n
  {
    if n == 0 then
      match ExplicitMatch(obj, rel)
      case Err(e) => Err(e)
      case Ok(found) => Ok(if found.Some? then [found.value] else [])
    else
      match FindAllIn(obj, rel, inside, n - 1)
      case Err(e) => Err(e)
      case Ok(prior) =>
        match FindAllEntry(obj, obj.fields[n - 1].0, obj.fields[n - 1].1, rel, inside)
        case Err(e) => Err(e)
        case Ok(found) => Ok(prior + found)
  }

  /**
   * One entry of `obj`. As in the first-match walk, except that an entry named after the relation
   * contributes the link of the enclosing object `obj` (when it has one) and is not searched further.
   */
  function FindAllEntry(obj: Json, name: string, child: Json, rel: string, inside: bool): (r: Result<seq<Link>>)
    requires obj.Obj?
    ensures r.Ok? ==> forall k :: 0 <= k < |r.value| ==> Resolved(r.value[k])
    ensures r.Err? ==> WalkFailure(r.error)
    decreases child, 3
  {
    var named := if name == rel && !Has(child, Metadata.RELATIONS) then ObjectLink(obj) else Ok(None);
    match named
    case Err(e) => Err(e)
    case Ok(Some(l)) => Ok([l])
    case Ok(None) =>
      if SkipsEntry(name, child, inside) then Ok([])
      else match child
        case Str(s) => Ok(if TextLink(s).Some? then [TextLink(s).value] else [])
        case Arr(es) => FindAllInArray(child, rel, |es|)
        case Obj(_) =>
          (match ContainsLink(child)
           case Err(e) => Err(e)
           case Ok(true) => Ok([])
           case Ok(false) => FindAll(child, rel, inside || name == Metadata.STATE))
        case _ => Ok([])
  }

  /** `getOptionalResourcesFromArray` over the first `n` elements. */
  function FindAllInArray(arr: Json, rel: string, n: nat): (r: Result<seq<Link>>)
    requires arr.Arr? && n <= |arr.elems|
    ensures r.Ok? ==> forall k :: 0 <= k < |r.value| ==> Resolved(r.value[k])
    ensures r.Err? ==> WalkFailure(r.error)
    decreases arr, 1, n
  {
    if n == 0 then Ok([])
    else
      match FindAllInArray(arr, rel, n - 1)
      case Err(e) => Err(e)
      case Ok(prior) =>
        match FindAllElement(arr.elems[n - 1], rel)
        case Err(e) => Err(e)
        case Ok(found) => Ok(prior + found)
  }

  function FindAllElement(e: Json, rel: string): (r: Result<seq<Link>>)
    ensures r.Ok? ==> forall k :: 0 <= k < |r.value| ==> Resolved(r.value[k])
    ensures r.Err? ==> WalkFailure(r.error)
    decreases e, 3
  {
    match e
    case Str(s) => Ok(if TextLink(s).Some? then [TextLink(s).value] else [])
    case Arr(es) => FindAllInArray(e, rel, |es|)
    case Obj(_) => if Has(e, Metadata.LINK) then Ok([]) else FindAll(e, rel, false)
    case _ => Ok([])
  }

  /** A failure in the first `n` entries is the failure of the whole walk. */
  lemma {:induction false} FindAllFailureSticks(obj: Json, rel: string, inside: bool, i: nat, n: nat)
    requires obj.Obj? && i <= n <= |obj.fields|
    requires FindAllIn(obj, rel, inside, i).Err?
    ensures FindAllIn(obj, rel, inside, n) == FindAllIn(obj, rel, inside, i)
    decreases n
  {
    if n > i {
      FindAllFailureSticks(obj, rel, inside, i, n - 1);
    }
  }

  lemma {:induction false} FindAllInArrayFailureSticks(arr: Json, rel: string, i: nat, n: nat)
    requires arr.Arr? && i <= n <= |arr.elems|
    requires FindAllInArray(arr, rel, i).Err?
    ensures FindAllInArray(arr, rel, n) == FindAllInArray(arr, rel, i)
    decreases n
  {
    if n > i {
      FindAllInArrayFailureSticks(arr, rel, i, n - 1);
    }
  }

  // ---------------------------------------------------------------------------------------------
  // The walk as the Java code performs it.

  method GetOptionalResourceFrom(obj: Json, rel: string, inside: bool) returns (r: Result<Option<Link>>)
    requires obj.Obj?
    ensures r == FindOne(obj, rel, inside)
    decreases obj, 2
  {
    var explicit := NodeContainsRelation(obj, rel);
    if explicit {
      var link := ObjectLink(obj);
      r := if link.Err? then Err(link.error)
           else if link.value.Some? then Ok(link.value) else Err(RelationWithoutLink);
      FindOneStops(obj, rel, inside, 0, |obj.fields|);
      return;
    }
    for i := 0 to |obj.fields|
      invariant FindOneIn(obj, rel, inside, i) == Ok(None)
    {
      var name := obj.fields[i].0;
      var child := obj.fields[i].1;
      var found: Result<Option<Link>> := Ok(None);
      if name == rel && !Has(child, Metadata.RELATIONS) {
        found := NodeLink(child);
      }
      if found == Ok(None) && !SkipsEntry(name, child, inside) {
        match child
        case Str(s) =>
          found := Ok(TextLink(s));
        case Arr(_) =>
          found := GetOptionalResourceFromArray(child, rel);
        case Obj(_) =>
          var nested := ContainsLink(child);
          if nested.Err? {
            found := Err(nested.error);
          } else if !nested.value {
            found := GetOptionalResourceFrom(child, rel, inside || name == Metadata.STATE);
          }
        case _ =>
      }
      assert found == FindOneEntry(name, child, rel, inside);
      if found != Ok(None) {
        FindOneStops(obj, rel, inside, i + 1, |obj.fields|);
        return found;
      }
    }
    return Ok(None);
  }

  method GetOptionalResourceFromArray(arr: Json, rel: string) returns (r: Result<Option<Link>>)
    requires arr.Arr?
    ensures r == FindOneInArray(arr, rel, |arr.elems|)
    decreases arr, 1
  {
    for i := 0 to |arr.elems|
      invariant FindOneInArray(arr, rel, i) == Ok(None)
    {
      var child := arr.elems[i];
      var found: Result<Option<Link>> := Ok(None);
      match child {
        case Str(s) =>
          found := Ok(TextLink(s));
        case Arr(_) =>
          found := GetOptionalResourceFromArray(child, rel);
        case Obj(_) =>
          if !Has(child, Metadata.LINK) {
            found := GetOptionalResourceFrom(child, rel, false);
          }
        case _ =>
      }
      assert found == FindOneElement(child, rel);
      if found != Ok(None) {
        FindOneInArrayStops(arr, rel, i + 1, |arr.elems|);
        return found;
      }
    }
    return Ok(None);
  }

  method GetOptionalResourcesFrom(obj: Json, rel: string, inside: bool) returns (r: Result<seq<Link>>)
    requires obj.Obj?
    ensures r == FindAll(obj, rel, inside)
    decreases obj, 2
  {
    var matches: seq<Link> := [];
    var explicit := NodeContainsRelation(obj, rel);
    if explicit {
      var link := ObjectLink(obj);
      if link.Err? || link.value.None? {
        r := if link.Err? then Err(link.error) else Err(RelationWithoutLink);
        FindAllFailureSticks(obj, rel, inside, 0, |obj.fields|);
        return;
      }
      matches := [link.value.value];
    }
    for i := 0 to |obj.fields|
      invariant FindAllIn(obj, rel, inside, i) == Ok(matches)
    {
      var found := GetOptionalResourcesFromEntry(obj, obj.fields[i].0, obj.fields[i].1, rel, inside);
      if found.Err? {
        FindAllFailureSticks(obj, rel, inside, i + 1, |obj.fields|);
        return found;
      }
      matches := matches + found.value;
    }
    return Ok(matches);
  }

  /** One entry of `obj`, as `FindAllEntry` describes it. */
  method GetOptionalResourcesFromEntry(obj: Json, name: string, child: Json, rel: string, inside: bool)
    returns (found: Result<seq<Link>>)
    requires obj.Obj?
    ensures found == FindAllEntry(obj, name, child, rel, inside)
    decreases child, 3
  {
    found := Ok([]);
    var named: Result<Option<Link>> := Ok(None);
    if name == rel && !Has(child, Metadata.RELATIONS) {
      named := ObjectLink(obj);
    }
    if named.Err? {
      found := Err(named.error);
    } else if named.value.Some? {
      found := Ok([named.value.value]);
    } else if !SkipsEntry(name, child, inside) {
      match child
      case Str(s) =>
        var link := TextLink(s);
        found := Ok(if link.Some? then [link.value] else []);
      case Arr(_) =>
        found := GetOptionalResourcesFromArray(child, rel);
      case Obj(_) =>
        var nested := ContainsLink(child);
        if nested.Err? {
          found := Err(nested.error);
        } else if !nested.value {
          found := GetOptionalResourcesFrom(child, rel, inside || name == Metadata.STATE);
        }
      case _ =>
    }
  }

  method GetOptionalResourcesFromArray(arr: Json, rel: string) returns (r: Result<seq<Link>>)
    requires arr.Arr?
    ensures r == FindAllInArray(arr, rel, |arr.elems|)
    decreases arr, 1
  {
    var matches: seq<Link> := [];
    for i := 0 to |arr.elems|
      invariant FindAllInArray(arr, rel, i) == Ok(matches)
    {
      var child := arr.elems[i];
      var found: Result<seq<Link>> := Ok([]);
      match child {
        case Str(s) =>
          var link := TextLink(s);
          found := Ok(if link.Some? then [link.value] else []);
        case Arr(_) =>
          found := GetOptionalResourcesFromArray(child, rel);
        case Obj(_) =>
          if !Has(child, Metadata.LINK) {
            found := GetOptionalResourcesFrom(child, rel, false);
          }
        case _ =>
      }
      assert found == FindAllElement(child, rel);
      if found.Err? {
        FindAllInArrayFailureSticks(arr, rel, i + 1, |arr.elems|);
        return found;
      }
      matches := matches + found.value;
    }
    return Ok(matches);
  }

  // ---------------------------------------------------------------------------------------------
  // The public search operations of a resource.

  /** `getOptionalResource(relation)`: the search from the resource's JSON, outside `@state`. */
  method GetOptionalResource(res: Resource, rel: string) returns (r: Result<Option<Link>>)
    ensures r == FindOne(res.json, rel, false)
    ensures r.Ok? && r.value.Some? ==> Resolved(r.value.value)
    ensures r.Err? ==> WalkFailure(r.error)
  {
    r := GetOptionalResourceFrom(res.json, rel, false);
  }

  /** `getOptionalResources(relation)`. */
  method GetOptionalResources(res: Resource, rel: string) returns (r: Result<seq<Link>>)
    ensures r == FindAll(res.json, rel, false)
    ensures r.Ok? ==> forall k :: 0 <= k < |r.value| ==> Resolved(r.value[k])
    ensures r.Err? ==> WalkFailure(r.error)
  {
    r := GetOptionalResourcesFrom(res.json, rel, false);
  }

  /** `getResource(relation)`: the first match, or `NoSuchRelation` when there is none. */
  method GetResource(res: Resource, rel: string) returns (r: Result<Link>)
    ensures FindOne(res.json, rel, false) == Ok(None) <==> r == Err(NoSuchRelation)
    ensures FindOne(res.json, rel, false).Err? ==> r == Err(FindOne(res.json, rel, false).error)
    ensures r.Ok? <==> FindOne(res.json, rel, false).Ok? && FindOne(res.json, rel, false).value.Some?
    ensures r.Ok? ==> FindOne(res.json, rel, false) == Ok(Some(r.value)) && Resolved(r.value)
  {
    var found := GetOptionalResource(res, rel);
    if found.Err? {
      return Err(found.error);
    }
    if found.value.None? {
      return Err(NoSuchRelation);
    }
    return Ok(found.value.value);
  }

  /** `getResources(relation)`: every match, or `NoSuchRelation` when there is none. */
  method GetResources(res: Resource, rel: string) returns (r: Result<seq<Link>>)
    ensures FindAll(res.json, rel, false) == Ok([]) <==> r == Err(NoSuchRelation)
    ensures FindAll(res.json, rel, false).Err? ==> r == FindAll(res.json, rel, false)
    ensures r.Ok? <==> FindAll(res.json, rel, false).Ok? && |FindAll(res.json, rel, false).value| > 0
    ensures r.Ok? ==> r == FindAll(res.json, rel, false)
  {
    var found := GetOptionalResources(res, rel);
    if found.Err? {
      return found;
    }
    if |found.value| == 0 {
      return Err(NoSuchRelation);
    }
    return found;
  }
}
