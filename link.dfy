/**
 * A link to a resource: either the resource's state is included in the document, or only its URI
 * is known and its state was omitted.
 */
module Links {
  import opened Base
  import opened JsonNodes
  import opened Uris
  import opened Properties
  import opened Resources
  import Metadata

  datatype Link =
    | Included(resource: Resource)  // LinkToIncludedState
    | Omitted(uri: Uri)             // LinkToOmittedState

  /** `Link.getResource()`: present exactly for a link whose state is included. */
  function GetResource(l: Link): (r: Option<Resource>)
    ensures r.Some? <==> l.Included?
    ensures l.Included? ==> r.value == l.resource
  {
    match l
    case Included(res) => Some(res)
    case Omitted(_) => None
  }

  /** The value of the resource's `@link`, found as `getOptionalProperty` finds it. */
  function LinkValue(res: Resource): Option<Json>
  {
    match GetOptionalProperty(res, Metadata.LINK)
    case None => None
    case Some(p) => Some(p.value)
  }

  /**
   * `Link.getUri()`. An omitted-state link returns its URI. An included-state link reads the `@link`
   * property of its resource, directly or one level inside `@state`: absent (Java's null) when there
   * is none, a failure when it is not a URI string.
   */
  function GetUri(l: Link): Result<Option<Uri>>
  {
    match l
    case Omitted(u) => Ok(Some(u))
    case Included(res) =>
      match GetOptionalProperty(res, Metadata.LINK)
      case None => Ok(None)
      case Some(p) =>
        match UriValue(p)
        case Ok(u) => Ok(Some(u))
        case Err(e) => Err(e)
  }

  /** `Link.to(Resource)`: a link that includes exactly this resource. */
  function ToResource(res: Resource): (l: Link)
    ensures GetResource(l) == Some(res)
  {
    Included(res)
  }

  /** `Link.to(URI)`: a link that knows exactly this URI and has no resource. */
  function ToUri(u: Uri): (l: Link)
    ensures GetUri(l) == Ok(Some(u))
    ensures GetResource(l) == None
  {
    Omitted(u)
  }

  /** `Resource.asLink()`: the link that includes this resource. */
  function AsLink(res: Resource): (l: Link)
    ensures l == ToResource(res)
  {
    Included(res)
  }

  /**
   * An included-state link has no URI exactly when its resource has no `@link`, directly or one
   * level inside `@state`; it fails exactly when the `@link` it finds is not a valid URI string;
   * otherwise its URI is that string.
   */
  lemma {:induction false} IncludedUri(res: Resource)
    ensures GetUri(Included(res)) == Ok(None) <==>
              !Has(res.json, Metadata.LINK) &&
              (State(res).None? || !Has(State(res).value, Metadata.LINK))
    ensures GetUri(Included(res)).Err? <==>
              LinkValue(res).Some? && !(LinkValue(res).value.Str? && ValidUri(LinkValue(res).value.s))
    ensures GetUri(Included(res)).Ok? && GetUri(Included(res)).value.Some? ==>
              LinkValue(res) == Some(Str(GetUri(Included(res)).value.value.text))
  {
    match GetOptionalProperty(res, Metadata.LINK)
    case None =>
    case Some(p) =>
      assert LinkValue(res) == Some(p.value);
  }

  /**
   * `equals`: included-state links compare their resources (that is, the resources' JSON objects),
   * omitted-state links compare their URIs, and the two variants are never equal.
   */
  ghost predicate Equals(a: Link, b: Link)
  {
    match (a, b)
    case (Included(x), Included(y)) => SameResource(x, y)
    case (Omitted(u), Omitted(v)) => SameUri(u, v)
    case _ => false
  }

  /** `hashCode`: the resource's hash for an included-state link, the URI's otherwise. */
  function HashCode(l: Link): int
  {
    match l
    case Included(res) => ResourceHash(res)
    case Omitted(u) => Uris.Hash(u)
  }

  /** `toString`: the URI's text; an included-state link prints its `Optional<Resource>` field. */
  function ToString(l: Link): (r: string)
    ensures l.Omitted? ==> r == l.uri.text
  {
    match l
    case Included(res) => "Optional[" + res.uri.text + "]"
    case Omitted(u) => u.text
  }

  /** Equality is an equivalence that never relates the two variants, and hash codes respect it. */
  lemma {:induction false} EqualsIsConsistent(a: Link, b: Link, c: Link)
    ensures Equals(a, a)
    ensures Equals(a, b) == Equals(b, a)
    ensures Equals(a, b) && Equals(b, c) ==> Equals(a, c)
    ensures Equals(a, b) ==> a.Included? == b.Included?
    ensures Equals(a, b) ==> HashCode(a) == HashCode(b)
  {
    if a.Included? {
      JsonEqualsReflexive(a.resource.json);
      if b.Included? {
        if Equals(a, b) {
          JsonEqualsSymmetric(a.resource.json, b.resource.json);
          ResourceHashAgreesWithEquals(a.resource, b.resource);
        }
        if Equals(b, a) {
          JsonEqualsSymmetric(b.resource.json, a.resource.json);
        }
        if c.Included? && Equals(a, b) && Equals(b, c) {
          JsonEqualsTransitive(a.resource.json, b.resource.json, c.resource.json);
        }
      }
    }
  }

  /** Two included-state links are equal exactly when their resources' JSON objects are. */
  lemma {:induction false} IncludedEquality(x: Resource, y: Resource)
    ensures Equals(ToResource(x), ToResource(y)) <==> JsonEquals(x.json, y.json)
  {
  }

  /**
   * The order in which a resource's entries were added does not matter: resources whose objects
   * hold the same entries (each name once) give equal links, whatever their URIs.
   */
  lemma {:induction false} IncludedEqualityIgnoresOrder(x: Resource, y: Resource)
    requires UniqueKeys(x.json.fields) && UniqueKeys(y.json.fields)
    requires multiset(x.json.fields) == multiset(y.json.fields)
    ensures Equals(ToResource(x), ToResource(y))
  {
    EntryOrderIgnored(x.json.fields, y.json.fields);
  }

  /**
   * Two omitted-state links are equal exactly when their URIs are, which ignores the case of the
   * scheme, of the host and of escaped octets; `getUri` returns each link's own URI as written.
   */
  lemma {:induction false} OmittedEquality(u: Uri, v: Uri)
    ensures Equals(ToUri(u), ToUri(v)) <==> SameUri(u, v)
    ensures GetUri(ToUri(u)) == GetUri(ToUri(v)) <==> u == v
  {
  }
}
