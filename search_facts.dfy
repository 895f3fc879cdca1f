/**
 * What the relation search of Resource.java guarantees, and where it behaves as written rather than
 * as documented.
 */
module SearchFacts {
  import opened Base
  import opened JsonNodes
  import opened Uris
  import opened Links
  import opened LinkResolution
  import opened Search
  import Metadata

  // ---------------------------------------------------------------------------------------------
  // The first match and the list of matches.

  /** The relation is not the name of any entry anywhere in the tree. */
  predicate NameAbsent(j: Json, rel: string)
    decreases j
  {
    match j
    case Obj(fs) => forall i :: 0 <= i < |fs| ==> fs[i].0 != rel && NameAbsent(fs[i].1, rel)
    case Arr(es) => forall i :: 0 <= i < |es| ==> NameAbsent(es[i], rel)
    case _ => true
  }

  /**
   * The first-match outcome `one` agrees with the all-matches outcome `all`: both find nothing
   * together, a failure of `one` is a failure of `all`, and `one` is the head of a non-empty `all`.
   */
  predicate Agree(one: Result<Option<Link>>, all: Result<seq<Link>>)
  {
    && (one == Ok(None) <==> all == Ok([]))
    && (one.Err? ==> all == Err(one.error))
    && (all.Ok? && all.value != [] ==> one == Ok(Some(all.value[0])))
  }

  /**
   * When no entry is named after the relation, `getOptionalResource` returns the first link that
   * `getOptionalResources` lists, and the two find nothing, or fail, together.
   */
  lemma {:induction false} FirstMatchIsFirstOfAll(obj: Json, rel: string, inside: bool)
    requires obj.Obj? && NameAbsent(obj, rel)
    ensures FindOne(obj, rel, inside) == Ok(None) <==> FindAll(obj, rel, inside) == Ok([])
    ensures FindOne(obj, rel, inside).Err? ==> FindAll(obj, rel, inside) == Err(FindOne(obj, rel, inside).error)
    ensures FindAll(obj, rel, inside).Ok? && FindAll(obj, rel, inside).value != [] ==>
              FindOne(obj, rel, inside) == Ok(Some(FindAll(obj, rel, inside).value[0]))
    decreases obj, 2
  {
    AgreeIn(obj, rel, inside, |obj.fields|);
  }

  lemma {:induction false} AgreeIn(obj: Json, rel: string, inside: bool, n: nat)
    requires obj.Obj? && n <= |obj.fields| && NameAbsent(obj, rel)
    ensures Agree(FindOneIn(obj, rel, inside, n), FindAllIn(obj, rel, inside, n))
    decreases obj, 1, n
  {
    if n > 0 {
      var (name, child) := obj.fields[n - 1];
      AgreeIn(obj, rel, inside, n - 1);
      AgreeEntry(obj, name, child, rel, inside);
      var prior := FindAllIn(obj, rel, inside, n - 1);
      var found := FindAllEntry(obj, name, child, rel, inside);
      if prior.Ok? && found.Ok? {
        AgreeAppend(FindOneIn(obj, rel, inside, n - 1), prior.value, FindOneEntry(name, child, rel, inside), found.value);
      }
    }
  }

  lemma {:induction false} AgreeEntry(obj: Json, name: string, child: Json, rel: string, inside: bool)
    requires obj.Obj? && name != rel && NameAbsent(child, rel)
    ensures Agree(FindOneEntry(name, child, rel, inside), FindAllEntry(obj, name, child, rel, inside))
    decreases child, 3
  {
    if !SkipsEntry(name, child, inside) {
      match child
      case Arr(es) =>
        AgreeInArray(child, rel, |es|);
      case Obj(_) =>
        if ContainsLink(child) == Ok(false) {
          FirstMatchIsFirstOfAll(child, rel, inside || name == Metadata.STATE);
        }
      case _ =>
    }
  }

  lemma {:induction false} AgreeInArray(arr: Json, rel: string, n: nat)
    requires arr.Arr? && n <= |arr.elems| && NameAbsent(arr, rel)
    ensures Agree(FindOneInArray(arr, rel, n), FindAllInArray(arr, rel, n))
    decreases arr, 1, n
  {
    if n > 0 {
      var m := n - 1;
      var e := arr.elems[m];
      AgreeInArray(arr, rel, m);
      AgreeElement(e, rel);
      var prior := FindAllInArray(arr, rel, m);
      var found := FindAllElement(e, rel);
      if prior.Ok? && found.Ok? {
        AgreeAppend(FindOneInArray(arr, rel, m), prior.value, FindOneElement(e, rel), found.value);
      }
    }
  }

  /** The first match of a concatenation comes from its first part unless that part is empty. */
  lemma {:induction false} AgreeAppend(one: Result<Option<Link>>, prior: seq<Link>,
                                       next: Result<Option<Link>>, found: seq<Link>)
    requires Agree(one, Ok(prior)) && Agree(next, Ok(found))
    ensures Agree(if one != Ok(None) then one else next, Ok(prior + found))
  {
    assert prior + found == [] <==> prior == [] && found == [];
    if prior != [] {
      assert (prior + found)[0] == prior[0];
    }
  }

  lemma {:induction false} AgreeElement(e: Json, rel: string)
    requires NameAbsent(e, rel)
    ensures Agree(FindOneElement(e, rel), FindAllElement(e, rel))
    decreases e, 3
  {
    match e
    case Arr(es) =>
      AgreeInArray(e, rel, |es|);
    case Obj(_) =>
      if !Has(e, Metadata.LINK) {
        FirstMatchIsFirstOfAll(e, rel, false);
      }
    case _ =>
  }

  // ---------------------------------------------------------------------------------------------
  // Matches listed through `@relations`.

  /** The matches found in the first `i` entries open the list of matches of the first `n`. */
  lemma {:induction false} FindAllInPrefix(obj: Json, rel: string, inside: bool, i: nat, n: nat)
    requires obj.Obj? && i <= n <= |obj.fields|
    requires FindAllIn(obj, rel, inside, n).Ok?
    ensures FindAllIn(obj, rel, inside, i).Ok?
    ensures FindAllIn(obj, rel, inside, i).value <= FindAllIn(obj, rel, inside, n).value
    decreases n
  {
    if n > i {
      FindAllInPrefix(obj, rel, inside, i, n - 1);
    }
  }

  /**
   * An object whose `@relations` lists the relation is the first match of both searches, identified
   * by its own `@link`; without a `@link` both searches fail.
   */
  lemma {:induction false} ExplicitRelationWins(obj: Json, rel: string, inside: bool, text: string)
    requires obj.Obj? && RelationsContain(obj, rel)
    ensures Get(obj, Metadata.LINK) == Some(Str(text)) && ValidUri(text) ==>
              FindOne(obj, rel, inside) == Ok(Some(Omitted(Uri(text)))) &&
              (FindAll(obj, rel, inside).Ok? ==>
                 |FindAll(obj, rel, inside).value| > 0 && FindAll(obj, rel, inside).value[0] == Omitted(Uri(text)))
    ensures !Has(obj, Metadata.LINK) ==>
              FindOne(obj, rel, inside) == Err(RelationWithoutLink) &&
              FindAll(obj, rel, inside) == Err(RelationWithoutLink)
    ensures FindOne(obj, rel, inside) == ExplicitMatch(obj, rel)
  {
    FindOneStops(obj, rel, inside, 0, |obj.fields|);
    if FindAllIn(obj, rel, inside, 0).Err? {
      FindAllFailureSticks(obj, rel, inside, 0, |obj.fields|);
    } else if FindAll(obj, rel, inside).Ok? {
      FindAllInPrefix(obj, rel, inside, 0, |obj.fields|);
    }
  }

  // ---------------------------------------------------------------------------------------------
  // What the walk never looks at.

  // The walk over an object is a fold over its entries, so an entry whose outcome is "nothing" for
  // every value is an entry whose value is never searched.

  /**
   * A metadata property other than `@state`, outside every `@state` container and not named after
   * the relation, contributes nothing to either search, whatever its value.
   */
  lemma {:induction false} MetadataValuesAreNotSearched(obj: Json, name: string, v: Json, rel: string)
    requires obj.Obj?
    requires Metadata.IsReserved(name) && name != rel && name != Metadata.STATE
    ensures FindOneEntry(name, v, rel, false) == Ok(None)
    ensures FindAllEntry(obj, name, v, rel, false) == Ok([])
  {
    assert SkipsEntry(name, v, false);
  }

  /**
   * A nested resource (an object value with a valid `@link`) not named after the relation
   * contributes nothing to either search, whatever else it holds, inside or outside `@state`.
   */
  lemma {:induction false} NestedResourcesAreNotSearched(obj: Json, name: string, v: Json, rel: string, inside: bool)
    requires obj.Obj? && name != rel
    requires v.Obj? && ContainsLink(v) == Ok(true)
    ensures FindOneEntry(name, v, rel, inside) == Ok(None)
    ensures FindAllEntry(obj, name, v, rel, inside) == Ok([])
  {
  }

  /**
   * A nested object whose `@link` is not a string, or not a URI, makes both searches fail when
   * it is reached at property level, whatever else it holds.
   */
  lemma {:induction false} MalformedNestedLinkFails(obj: Json, name: string, v: Json, rel: string, inside: bool)
    requires obj.Obj? && name != rel
    requires v.Obj? && ContainsLink(v).Err? && !SkipsEntry(name, v, inside)
    ensures FindOneEntry(name, v, rel, inside) == Err(ContainsLink(v).error)
    ensures FindAllEntry(obj, name, v, rel, inside) == Err(ContainsLink(v).error)
  {
  }

  /**
   * Inside a `@state` container nothing is metadata: an entry with a metadata-shaped name is searched
   * like any other, its string value being a match when it is a URI and its object value (without a
   * `@link`) being searched in turn.
   */
  lemma {:induction false} MetadataInsideStateIsSearched(obj: Json, name: string, v: Json, rel: string)
    requires obj.Obj? && name != rel
    ensures !SkipsEntry(name, v, true)
    ensures v.Str? ==> FindOneEntry(name, v, rel, true) == Ok(TextLink(v.s))
    ensures v.Str? ==> FindAllEntry(obj, name, v, rel, true) ==
                       Ok(if TextLink(v.s).Some? then [TextLink(v.s).value] else [])
    ensures v.Obj? && ContainsLink(v) == Ok(false) ==>
              FindOneEntry(name, v, rel, true) == FindOne(v, rel, true) &&
              FindAllEntry(obj, name, v, rel, true) == FindAll(v, rel, true)
  {
  }

  /**
   * An entry named after the relation is tested before the metadata skip: when its value is a link
   * (or a malformed one) that is the first-match outcome, and the all-matches walk takes the
   * enclosing object's link, whether or not the name is metadata-shaped and whether or not the
   * walk is inside `@state`.
   */
  lemma {:induction false} NamedEntryPrecedesMetadataSkip(obj: Json, name: string, child: Json,
                                                          rel: string, inside: bool)
    requires obj.Obj? && name == rel && !Has(child, Metadata.RELATIONS)
    ensures NodeLink(child) != Ok(None) ==> FindOneEntry(name, child, rel, inside) == NodeLink(child)
    ensures ObjectLink(obj).Err? ==> FindAllEntry(obj, name, child, rel, inside) == Err(ObjectLink(obj).error)
    ensures ObjectLink(obj).Ok? && ObjectLink(obj).value.Some? ==>
              FindAllEntry(obj, name, child, rel, inside) == Ok([ObjectLink(obj).value.value])
  {
  }

  /** So a metadata-shaped relation finds the URI in the entry of that name, which is otherwise skipped. */
  lemma {:induction false} ReservedRelationMatches(name: string, text: string)
    requires Metadata.IsReserved(name) && name != Metadata.STATE && ValidUri(text)
    ensures SkipsEntry(name, Str(text), false)
    ensures FindOneEntry(name, Str(text), name, false) == Ok(Some(Omitted(Uri(text))))
  {
    assert !Has(Str(text), Metadata.RELATIONS);
    assert TextLink(text) == Some(Omitted(Uri(text)));
  }

  /**
   * An object inside an array that has any `@link`, well-formed or not, is skipped without being
   * checked or searched by both walks.
   */
  lemma {:induction false} LinkedArrayElementsAreSkipped(e: Json, rel: string)
    requires e.Obj? && Has(e, Metadata.LINK)
    ensures FindOneElement(e, rel) == Ok(None)
    ensures FindAllElement(e, rel) == Ok([])
  {
  }

  // ---------------------------------------------------------------------------------------------
  // What the walk accepts.

  /**
   * Every searched string value that parses as a URI is listed as a match, whatever the relation
   * and whatever the property is called.
   */
  lemma {:induction false} TextValuesMatchAnyRelation(obj: Json, rel: string, inside: bool, i: nat)
    requires obj.Obj? && i < |obj.fields|
    requires obj.fields[i].1.Str? && ValidUri(obj.fields[i].1.s)
    requires obj.fields[i].0 != rel && !SkipsEntry(obj.fields[i].0, obj.fields[i].1, inside)
    requires FindAll(obj, rel, inside).Ok?
    ensures Omitted(Uri(obj.fields[i].1.s)) in FindAll(obj, rel, inside).value
  {
    FindAllInPrefix(obj, rel, inside, i + 1, |obj.fields|);
    var prior := FindAllIn(obj, rel, inside, i).value;
    assert FindAllIn(obj, rel, inside, i + 1).value == prior + [Omitted(Uri(obj.fields[i].1.s))];
    assert FindAllIn(obj, rel, inside, i + 1).value[|prior|] == Omitted(Uri(obj.fields[i].1.s));
  }

  // ---------------------------------------------------------------------------------------------
  // Concrete documents.

  /** A resource whose `manager` property is a nested resource with a `@link`. */
  function ManagerDocument(): (doc: Json)
    ensures doc.Obj?
  {
    Obj([("manager", Employee())])
  }

  function Employee(): Json
  {
    Obj([(Metadata.LINK, Str("https://example.com/employees/123")), ("name", Str("John"))])
  }

  lemma ManagerDocumentLookups()
    ensures Get(ManagerDocument(), Metadata.RELATIONS) == None
    ensures Get(ManagerDocument(), Metadata.LINK) == None
    ensures Get(Employee(), Metadata.RELATIONS) == None
    ensures Get(Employee(), Metadata.LINK) == Some(Str("https://example.com/employees/123"))
    ensures ValidUri("https://example.com/employees/123")
  {
    EmployeeUri();
  }

  lemma EmployeeUri()
    ensures ValidUri("https://example.com/employees/123")
  {
  }

  /**
   * A property named after the relation whose value is a resource with a `@link`: the first-match
   * search returns that resource's link ...
   */
  lemma NamedMatchFindsNestedLink()
    ensures FindOne(ManagerDocument(), "manager", false) ==
            Ok(Some(Omitted(Uri("https://example.com/employees/123"))))
  {
    var doc := ManagerDocument();
    var link := Omitted(Uri("https://example.com/employees/123"));
    ManagerDocumentLookups();
    assert ExplicitMatch(doc, "manager") == Ok(None);
    assert NodeLink(Employee()) == Ok(Some(link));
    assert FindOneEntry("manager", Employee(), "manager", false) == Ok(Some(link));
    assert FindOneIn(doc, "manager", false, 1) == Ok(Some(link));
  }

  /**
   * ... but the all-matches search contributes the link of the enclosing object instead, and the
   * enclosing object has none, so it finds nothing.
   */
  lemma NamedMatchListsNothing()
    ensures FindAll(ManagerDocument(), "manager", false) == Ok([])
  {
    var doc := ManagerDocument();
    ManagerDocumentLookups();
    assert ExplicitMatch(doc, "manager") == Ok(None);
    assert ObjectLink(doc) == Ok(None);
    assert FindAllEntry(doc, "manager", Employee(), "manager", false) == Ok([]);
    assert FindAllIn(doc, "manager", false, 0) == Ok([]);
    var none: seq<Link> := [];
    assert none + none == none;
    assert FindAllIn(doc, "manager", false, 1) == Ok([]);
  }

  /** Any string that parses as a URI is a match, whatever the relation asked for. */
  lemma PlainTextIsAMatch()
    ensures FindOne(Obj([("name", Str("John"))]), "manager", false) == Ok(Some(Omitted(Uri("John"))))
    ensures FindAll(Obj([("name", Str("John"))]), "manager", false) == Ok([Omitted(Uri("John"))])
  {
    var doc := Obj([("name", Str("John"))]);
    assert ValidUri("John");
    assert Get(doc, Metadata.RELATIONS) == None;
    assert ExplicitMatch(doc, "manager") == Ok(None);
    assert FindOneIn(doc, "manager", false, 0) == Ok(None);
    assert !SkipsEntry("name", Str("John"), false);
    assert TextLink("John") == Some(Omitted(Uri("John")));
    assert FindOneEntry("name", Str("John"), "manager", false) == Ok(Some(Omitted(Uri("John"))));
    assert FindOneIn(doc, "manager", false, 1) == Ok(Some(Omitted(Uri("John"))));
    assert FindAllIn(doc, "manager", false, 0) == Ok([]);
    assert FindAllEntry(doc, "name", Str("John"), "manager", false) == Ok([Omitted(Uri("John"))]);
    assert [] + [Omitted(Uri("John"))] == [Omitted(Uri("John"))];
    assert FindAllIn(doc, "manager", false, 1) == Ok([Omitted(Uri("John"))]);
    assert FindAll(doc, "manager", false) == FindAllIn(doc, "manager", false, 1);
  }

  /** An object that lists the relation `rel`, as a JSON string, in `@relations`. */
  function ListingDocument(rel: string, link: string): (doc: Json)
    ensures doc.Obj?
  {
    Obj([(Metadata.RELATIONS, Arr([Str(rel)])), (Metadata.LINK, Str(link))])
  }

  lemma {:induction false} ListingDocumentLookups(rel: string, link: string)
    requires ValidUri(link)
    ensures Get(ListingDocument(rel, link), Metadata.RELATIONS) == Some(Arr([Str(rel)]))
    ensures Get(ListingDocument(rel, link), Metadata.LINK) == Some(Str(link))
    ensures ObjectLink(ListingDocument(rel, link)) == Ok(Some(Omitted(Uri(link))))
  {
    var doc := ListingDocument(rel, link);
    assert Metadata.RELATIONS != Metadata.LINK;
    assert doc.fields[1..] == [(Metadata.LINK, Str(link))];
    assert Lookup(doc.fields[1..], Metadata.LINK) == Some(Str(link));
    assert TextLink(link) == Some(Omitted(Uri(link)));
  }

  /**
   * A relation listed in `@relations` as a JSON string is compared with its quoted rendering, so the
   * bare relation name does not select the object ...
   */
  lemma {:induction false} BareRelationNameIsNotListed(rel: string, link: string)
    requires ValidUri(link) && !Metadata.IsReserved(rel)
    ensures FindOne(ListingDocument(rel, link), rel, false) == Ok(None)
    ensures FindAll(ListingDocument(rel, link), rel, false) == Ok([])
  {
    var doc := ListingDocument(rel, link);
    ListingDocumentLookups(rel, link);
    RenderedStringDiffers(rel);
    assert Children(Get(doc, Metadata.RELATIONS).value) == [Str(rel)];
    assert !RelationsContain(doc, rel);
    assert Metadata.RELATIONS != rel && Metadata.LINK != rel;
    assert SkipsEntry(Metadata.RELATIONS, Arr([Str(rel)]), false);
    assert SkipsEntry(Metadata.LINK, Str(link), false);
    assert FindOneIn(doc, rel, false, 0) == Ok(None);
    assert FindOneIn(doc, rel, false, 1) == Ok(None);
    assert FindOneIn(doc, rel, false, 2) == Ok(None);
    var none: seq<Link> := [];
    assert none + none == none;
    assert FindAllIn(doc, rel, false, 0) == Ok([]);
    assert FindAllIn(doc, rel, false, 1) == Ok([]);
    assert FindAllIn(doc, rel, false, 2) == Ok([]);
  }

  /** ... and the quoted name does: both searches return the object's own link. */
  lemma {:induction false} QuotedRelationNameIsListed(rel: string, link: string)
    requires ValidUri(link)
    requires forall i :: 0 <= i < |rel| ==> rel[i] != '"' && rel[i] != '\\' && rel[i] >= ' '
    ensures FindOne(ListingDocument(rel, link), "\"" + rel + "\"", false) == Ok(Some(Omitted(Uri(link))))
    ensures FindAll(ListingDocument(rel, link), "\"" + rel + "\"", false) == Ok([Omitted(Uri(link))])
  {
    var doc := ListingDocument(rel, link);
    var quoted := "\"" + rel + "\"";
    ListingDocumentLookups(rel, link);
    RenderPlainString(rel);
    assert Children(Get(doc, Metadata.RELATIONS).value)[0] == Str(rel);
    assert RelationsContain(doc, quoted);
    assert FindOneIn(doc, quoted, false, 0) == Ok(Some(Omitted(Uri(link))));
    FindOneStops(doc, quoted, false, 0, 2);
    assert Metadata.RELATIONS != quoted && Metadata.LINK != quoted;
    assert SkipsEntry(Metadata.RELATIONS, Arr([Str(rel)]), false);
    assert SkipsEntry(Metadata.LINK, Str(link), false);
    var found := [Omitted(Uri(link))];
    var none: seq<Link> := [];
    assert found + none == found;
    assert FindAllIn(doc, quoted, false, 0) == Ok(found);
    assert FindAllIn(doc, quoted, false, 1) == Ok(found);
    assert FindAllIn(doc, quoted, false, 2) == Ok(found);
  }

  /**
   * Objects inside an array are searched as outside `@state`, even within a `@state` array, so their
   * metadata is skipped; the same object as the `@state` value itself is searched.
   */
  lemma StateFlagResetsInArrays()
    ensures FindOne(Obj([(Metadata.STATE, Arr([Obj([("@id", Str("u"))])]))]), "x", false) == Ok(None)
    ensures FindOne(Obj([(Metadata.STATE, Obj([("@id", Str("u"))]))]), "x", false) == Ok(Some(Omitted(Uri("u"))))
  {
    var id := Obj([("@id", Str("u"))]);
    var inArray := Obj([(Metadata.STATE, Arr([id]))]);
    var direct := Obj([(Metadata.STATE, id)]);
    assert ValidUri("u");
    assert Metadata.IsReserved("@id");
    assert Get(id, Metadata.RELATIONS) == None && Get(id, Metadata.LINK) == None;
    assert Get(inArray, Metadata.RELATIONS) == None && Get(direct, Metadata.RELATIONS) == None;
    // Searched as outside `@state`, `@id` is skipped.
    assert FindOneIn(id, "x", false, 0) == Ok(None);
    assert SkipsEntry("@id", Str("u"), false);
    assert FindOneIn(id, "x", false, 1) == Ok(None);
    assert FindOneElement(id, "x") == Ok(None);
    assert FindOneInArray(Arr([id]), "x", 1) == Ok(None);
    assert !SkipsEntry(Metadata.STATE, Arr([id]), false);
    assert FindOneEntry(Metadata.STATE, Arr([id]), "x", false) == Ok(None);
    assert FindOneIn(inArray, "x", false, 0) == Ok(None);
    assert FindOneIn(inArray, "x", false, 1) == Ok(None);
    // Searched as inside `@state`, `@id` is a state property and its text a link.
    assert FindOneIn(id, "x", true, 0) == Ok(None);
    assert !SkipsEntry("@id", Str("u"), true);
    assert FindOneIn(id, "x", true, 1) == Ok(Some(Omitted(Uri("u"))));
    assert ContainsLink(id) == Ok(false);
    assert FindOneEntry(Metadata.STATE, id, "x", false) == Ok(Some(Omitted(Uri("u"))));
    assert FindOneIn(direct, "x", false, 0) == Ok(None);
    assert FindOneIn(direct, "x", false, 1) == Ok(Some(Omitted(Uri("u"))));
  }

  /**
   * A malformed `@link` in a nested object is an error where the object is a property value, and is
   * ignored where the object is an array element.
   */
  lemma MalformedNestedLinkOnlyFailsOutsideArrays()
    ensures FindOne(Obj([("a", Obj([(Metadata.LINK, Str(":bad"))]))]), "x", false) == Err(InvalidUri)
    ensures FindOne(Obj([("a", Arr([Obj([(Metadata.LINK, Str(":bad"))])]))]), "x", false) == Ok(None)
  {
    var bad := Obj([(Metadata.LINK, Str(":bad"))]);
    var asValue := Obj([("a", bad)]);
    var asElement := Obj([("a", Arr([bad]))]);
    assert !ValidUri(":bad");
    assert Get(bad, Metadata.LINK) == Some(Str(":bad"));
    assert Get(asValue, Metadata.RELATIONS) == None && Get(asElement, Metadata.RELATIONS) == None;
    assert FindOneIn(asValue, "x", false, 0) == Ok(None);
    assert ContainsLink(bad) == Err(InvalidUri);
    assert FindOneEntry("a", bad, "x", false) == Err(InvalidUri);
    assert FindOneIn(asValue, "x", false, 1) == Err(InvalidUri);
    assert FindOneElement(bad, "x") == Ok(None);
    assert FindOneInArray(Arr([bad]), "x", 1) == Ok(None);
    assert FindOneEntry("a", Arr([bad]), "x", false) == Ok(None);
    assert FindOneIn(asElement, "x", false, 0) == Ok(None);
    assert FindOneIn(asElement, "x", false, 1) == Ok(None);
  }
}
