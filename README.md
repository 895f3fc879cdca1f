# lumina resource model in Dafny

This project models the client-side core of lumina. lumina reads hypermedia JSON documents. Each
document is a tree of *resources*: JSON objects whose metadata properties start with `@`
(`@link`, `@state`, `@relations`, `@description`). The model covers:

- **Resources** (`Resource.java`). The state container, the state-aware property lookup, the
  strings and links listed under `@state`, and equality and hash codes.
  - The relation search is covered too: a depth-first walk that returns the first link, or every
    link, related to the resource by a named relation.
  - The walk is specified by pure fold functions (`Search.FindOne`, `Search.FindAll`, ...). The
    methods that loop and recurse the way the Java code does are proved to compute exactly those
    functions.
- **Properties** (`Property.java`). Classification as metadata or state, and conversion of the value
  to a string, a URI, a list of strings, or a map from integers to strings.
- **Links** (`Link.java`, `LinkToIncludedState.java`, `LinkToOmittedState.java`). A link either
  carries the resource's state or only its URI. The model covers the URI each kind reports, its
  equality and its hash code.
- **Camel case** (`util/Strings.java`) and **relations** (`Relation.java`). The camel-case
  conversion is split at the same separators as the Java regular expression and proved to keep
  exactly the letters of the source. The four relation constants are proved to print as
  `Parent`, `FormCreate`, `FormUpdate` and `FormDelete`.
- **Forms** (`Form.java`). The input properties and the form are classes whose setters update
  fields in place. `toResource` builds the form's JSON. It is specified by what each entry holds
  and by the `@link` the resulting resource carries.

Every exception the Java code throws becomes an `Err` value of `Base.Result`, naming the
exception's cause (`Base.Failure`). A Java `null` becomes `None`. The names of the four metadata
properties are the constants of module `Metadata`; Metadata.java is not part of this model.

The model reproduces two behaviours of the walk exactly as the code has them:

- A string inside `@relations` is compared with the relation through its JSON rendering,
  including the quotes (Resource.java:579). `SearchFacts.BareRelationNameIsNotListed` and
  `SearchFacts.QuotedRelationNameIsListed` show this.
- In the all-matches walk, an entry named after the relation contributes the link of the
  *enclosing* object (Resource.java:425), while the first-match walk takes the entry's own link
  (Resource.java:353). `SearchFacts.NamedMatchFindsNestedLink` and
  `SearchFacts.NamedMatchListsNothing` show one document on which the two walks disagree.
  `SearchFacts.FirstMatchIsFirstOfAll` proves that they agree whenever no entry carries the
  relation's name.

## Model

| member | source | states |
|---|---|---|
| Resources.StateContainerLookup | java/src/main/java/com/github/cowwoc/lumina/Resource.java:102-108 | the state container is where the property lookup looks when the resource's own object lacks the name: the lookup then finds the container's entry, flagged as inside state, exactly when there is a `@state` entry that has the name; without `@state` the container is the resource's own object and the lookup finds exactly its entries |
| Resources.ContainsState | java/src/main/java/com/github/cowwoc/lumina/Resource.java:114-123 | true exactly when some own property name is not metadata-shaped or is `@state` |
| Resources.ContainsStateAgreesWithClassification | java/src/main/java/com/github/cowwoc/lumina/Resource.java:114-123 | containing state means one own property classifies as state; a resource with `@state` always contains state |
| Resources.GetOptionalProperty | java/src/main/java/com/github/cowwoc/lumina/Resource.java:196-213 | a direct property wins and is not inside state; otherwise the name is looked up one level inside `@state` and marked as inside state; otherwise absent |
| Resources.GetProperty | java/src/main/java/com/github/cowwoc/lumina/Resource.java:224-230 | fails with NoSuchProperty exactly when the optional lookup finds nothing, and otherwise returns what it finds |
| Resources.StateRepresentationsAgree | java/src/main/java/com/github/cowwoc/lumina/Resource.java:196-213 | state written inline and the same state wrapped in `@state` give the same value for every state name, and both count as state |
| Resources.InlineStateLookup | java/src/main/java/com/github/cowwoc/lumina/Resource.java:196-213 | with inline state, a state name is found directly with the inside-state flag cleared |
| Resources.WrappedStateLookup | java/src/main/java/com/github/cowwoc/lumina/Resource.java:196-213 | with state wrapped in `@state`, a state name is found inside it with the inside-state flag set |
| Resources.GetStringValues | java/src/main/java/com/github/cowwoc/lumina/Resource.java:236-262 | fails with the missing state when `@state` is missing, with a non-array state when it is not an array, and with a non-string element when an element is not a string; otherwise returns the element texts in array order |
| Resources.ResourceHashAgreesWithEquals | java/src/main/java/com/github/cowwoc/lumina/Resource.java:306-315 | equal resources (JSON objects equal as Jackson compares them: the same names with equal values, in any entry order, whatever the URIs) have equal hash codes |
| JsonNodes.EntryOrderIgnored | java/src/main/java/com/github/cowwoc/lumina/Resource.java:311-315 | two objects holding the same entries, each name once, are equal whatever the order of their entries |
| JsonNodes.JsonEqualsTransitive | java/src/main/java/com/github/cowwoc/lumina/Resource.java:311-315 | JSON equality (arrays element by element, objects as maps from names to values) is transitive; `JsonEqualsReflexive` and `JsonEqualsSymmetric` give the rest of the equivalence |
| JsonNodes.JsonHashAgreesWithEquals | java/src/main/java/com/github/cowwoc/lumina/Resource.java:305-309 | equal JSON values have equal hash codes |
| Properties.ClassificationIgnoresValue | java/src/main/java/com/github/cowwoc/lumina/Property.java:40-51 | a property is state exactly when it is inside `@state` or its name does not start with `@`; the value never matters |
| Properties.StringValue | java/src/main/java/com/github/cowwoc/lumina/Property.java:78-88 | succeeds exactly on a string value and returns its text; otherwise a type mismatch |
| Properties.UriValue | java/src/main/java/com/github/cowwoc/lumina/Property.java:94-98 | a non-string value is a type mismatch; a string succeeds exactly when it parses as a URI, and that URI's text is the string |
| Properties.StringValues | java/src/main/java/com/github/cowwoc/lumina/Property.java:104-118 | succeeds exactly on an array of strings and returns their texts in order; otherwise a type mismatch |
| Properties.ParseInt | java/src/main/java/com/github/cowwoc/lumina/Property.java:147 | a parsed key lies in the signed 32-bit range |
| Properties.IntegerToStringValue | java/src/main/java/com/github/cowwoc/lumina/Property.java:142-152 | the entry-by-entry loop computes the fold `IntegerMap` over the value's entries; a value without entries gives the empty map |
| Properties.IntegerMapSucceeds | java/src/main/java/com/github/cowwoc/lumina/Property.java:142-152 | the map is built exactly when every key is an integer and every value a string |
| Properties.IntegerMapKeys | java/src/main/java/com/github/cowwoc/lumina/Property.java:147-149 | the keys of the built map are exactly the parsed keys of the entries |
| Properties.IntegerMapLastWins | java/src/main/java/com/github/cowwoc/lumina/Property.java:149 | each key holds the text of the last entry whose key parses to it |
| Properties.IntegerMapFailureSticks | java/src/main/java/com/github/cowwoc/lumina/Property.java:145-148 | the first failing entry decides the failure of the whole map |
| Links.GetResource | java/src/main/java/com/github/cowwoc/lumina/internal/LinkToIncludedState.java:65-68 | present exactly for a link whose state is included, and then it is that resource |
| Links.ToResource | java/src/main/java/com/github/cowwoc/lumina/Link.java:37-40 | the link includes exactly the given resource |
| Links.ToUri | java/src/main/java/com/github/cowwoc/lumina/Link.java:49-52 | the link reports exactly the given URI and has no resource |
| Links.AsLink | java/src/main/java/com/github/cowwoc/lumina/Resource.java:64-81 | a resource's own link is `Link.to(resource)`, the link that includes that resource |
| Links.IncludedUri | java/src/main/java/com/github/cowwoc/lumina/internal/LinkToIncludedState.java:54-60 | an included-state link has no URI exactly when its resource has no `@link`, directly or inside `@state`; it fails exactly when that `@link` is not a URI string; otherwise its URI is that string |
| Links.ToString | java/src/main/java/com/github/cowwoc/lumina/internal/LinkToOmittedState.java:73-77 | an omitted-state link prints its URI's text |
| Links.EqualsIsConsistent | java/src/main/java/com/github/cowwoc/lumina/internal/LinkToOmittedState.java:61-71 | link equality is reflexive, symmetric and transitive, never relates the two kinds of link, and equal links have equal hash codes |
| Links.IncludedEquality | java/src/main/java/com/github/cowwoc/lumina/internal/LinkToIncludedState.java:70-80 | two included-state links are equal exactly when their resources' JSON objects are equal as Jackson compares them |
| Links.IncludedEqualityIgnoresOrder | java/src/main/java/com/github/cowwoc/lumina/internal/LinkToIncludedState.java:76-80 | included-state links to resources whose objects hold the same entries in another order, or carry other URIs, are equal |
| Links.OmittedEquality | java/src/main/java/com/github/cowwoc/lumina/internal/LinkToOmittedState.java:61-71 | two omitted-state links are equal exactly when their URIs are equal as `URI.equals` compares them (scheme, host and escaped octets without regard to case), while each reports its own URI as written |
| Uris.SameUriExactly | java/src/main/java/com/github/cowwoc/lumina/internal/LinkToOmittedState.java:67-71 | two URIs are equal exactly when their texts are the same up to ASCII case and the same as written at every position where case matters (outside the scheme, the host and port, and escaped hexadecimal digits) |
| Uris.SchemeCaseIgnored | java/src/main/java/com/github/cowwoc/lumina/internal/LinkToOmittedState.java:67-71 | any two URIs whose texts differ only in the case of the scheme are equal |
| Uris.HostCaseIgnored | java/src/main/java/com/github/cowwoc/lumina/internal/LinkToOmittedState.java:67-71 | any two URIs whose texts differ only in the case of the host and port are equal |
| Uris.EscapeCaseIgnored | java/src/main/java/com/github/cowwoc/lumina/internal/LinkToOmittedState.java:67-71 | any two URIs whose texts differ only in the case of the hexadecimal digits after a `%` are equal |
| Uris.UserInfoCaseKept | java/src/main/java/com/github/cowwoc/lumina/internal/LinkToOmittedState.java:67-71 | any two URIs whose texts differ in the case of a letter of the user information (other than an escaped digit) are not equal |
| Uris.PathCaseKept | java/src/main/java/com/github/cowwoc/lumina/internal/LinkToOmittedState.java:67-71 | any two URIs whose texts differ in the case of a letter after the authority, in the path, query or fragment (other than an escaped digit), are not equal |
| Uris.OpaquePartCaseKept | java/src/main/java/com/github/cowwoc/lumina/internal/LinkToOmittedState.java:67-71 | for URIs without an authority, any two whose texts differ in the case of a letter after the scheme (the opaque part or the path, other than an escaped digit) are not equal |
| Uris.CaseKept | java/src/main/java/com/github/cowwoc/lumina/internal/LinkToOmittedState.java:67-71 | any two texts of the same length that differ at a position where case matters are not equal URIs |
| Uris.CaseIgnoredSame | java/src/main/java/com/github/cowwoc/lumina/internal/LinkToOmittedState.java:67-71 | texts that are the same up to case ignore case at the same positions: the scheme, authority, host and escapes are found in the same places |
| LinkResolution.TextLink | java/src/main/java/com/github/cowwoc/lumina/Resource.java:528-538 | a string is a link exactly when it parses as a URI, and then the link omits the state and reports that URI |
| LinkResolution.ObjectLink | java/src/main/java/com/github/cowwoc/lumina/Resource.java:546-565 | no `@link` gives no link; a `@link` that is not a string, or not a URI, fails with the matching cause; otherwise the link of that URI |
| LinkResolution.NodeLink | java/src/main/java/com/github/cowwoc/lumina/Resource.java:514-522 | a string resolves as a text link, an object as an object link, and every other node is not a link; every link found omits the state and has a valid URI |
| LinkResolution.ContainsLinkAgreesWithObjectLink | java/src/main/java/com/github/cowwoc/lumina/Resource.java:471-508 | `containsLink` answers, and fails, exactly as `getOptionalLink` of the same object does |
| LinkResolution.NodeContainsRelation | java/src/main/java/com/github/cowwoc/lumina/Resource.java:572-583 | true exactly when some node that `@relations` iterates over renders as the relation |
| LinkResolution.StringRelationsMatchQuotedText | java/src/main/java/com/github/cowwoc/lumina/Resource.java:579 | when `@relations` holds only strings, it contains exactly the relations that are one of them in quoted form, so any such relation starts with a double quote |
| LinkResolution.GetResourceLinks | java/src/main/java/com/github/cowwoc/lumina/Resource.java:272-295 | fails when `@state` is missing or not an array, or when an element is not a link; otherwise returns one link per element, in array order, each the element's own link |
| Search.ExplicitMatch | java/src/main/java/com/github/cowwoc/lumina/Resource.java:337-345 | an object whose `@relations` lists the relation is a match, and without `@link` it fails; an object that does not list it yields nothing |
| Search.FindOne | java/src/main/java/com/github/cowwoc/lumina/Resource.java:334-391 | the first link found omits its target's state; failures come only from a malformed `@link` or a listed relation without a link |
| Search.FindOneEntry | java/src/main/java/com/github/cowwoc/lumina/Resource.java:347-388 | one entry's outcome keeps the same guarantees on links and failures |
| Search.FindOneInArray | java/src/main/java/com/github/cowwoc/lumina/Resource.java:592-622 | the array walk keeps the same guarantees on links and failures |
| Search.FindOneStops | java/src/main/java/com/github/cowwoc/lumina/Resource.java:387-388 | once a link or a failure is reached, later entries do not change the outcome |
| Search.FindOneInArrayStops | java/src/main/java/com/github/cowwoc/lumina/Resource.java:617-618 | once a link or a failure is reached, later elements do not change the outcome |
| Search.FindAll | java/src/main/java/com/github/cowwoc/lumina/Resource.java:403-465 | every link listed omits its target's state; failures come only from a malformed `@link` or a listed relation without a link |
| Search.FindAllEntry | java/src/main/java/com/github/cowwoc/lumina/Resource.java:419-462 | one entry's contribution keeps the same guarantees on links and failures |
| Search.FindAllInArray | java/src/main/java/com/github/cowwoc/lumina/Resource.java:631-661 | the array walk keeps the same guarantees on links and failures |
| Search.FindAllFailureSticks | java/src/main/java/com/github/cowwoc/lumina/Resource.java:403-465 | a failure in the first entries is the failure of the whole walk |
| Search.FindAllInArrayFailureSticks | java/src/main/java/com/github/cowwoc/lumina/Resource.java:631-661 | a failure in the first elements is the failure of the whole array walk |
| Search.GetOptionalResourceFrom | java/src/main/java/com/github/cowwoc/lumina/Resource.java:334-391 | the loop over the entries computes exactly the first-match walk `FindOne` |
| Search.GetOptionalResourceFromArray | java/src/main/java/com/github/cowwoc/lumina/Resource.java:592-622 | the loop over the elements computes exactly the first-match array walk |
| Search.GetOptionalResourcesFrom | java/src/main/java/com/github/cowwoc/lumina/Resource.java:403-465 | the loop over the entries computes exactly the all-matches walk `FindAll` |
| Search.GetOptionalResourcesFromEntry | java/src/main/java/com/github/cowwoc/lumina/Resource.java:421-462 | one entry's contribution is exactly `FindAllEntry` |
| Search.GetOptionalResourcesFromArray | java/src/main/java/com/github/cowwoc/lumina/Resource.java:631-661 | the loop over the elements computes exactly the all-matches array walk |
| Search.GetOptionalResource | java/src/main/java/com/github/cowwoc/lumina/Resource.java:134-137 | the walk from the resource's object, outside `@state`; a link found omits its target's state, and a failure is a malformed link |
| Search.GetOptionalResources | java/src/main/java/com/github/cowwoc/lumina/Resource.java:147-150 | every match of the walk from the resource's object, each omitting its target's state |
| Search.GetResource | java/src/main/java/com/github/cowwoc/lumina/Resource.java:162-168 | fails with NoSuchRelation exactly when the walk finds nothing, passes the walk's failure on, and otherwise returns its first match |
| Search.GetResources | java/src/main/java/com/github/cowwoc/lumina/Resource.java:180-186 | fails with NoSuchRelation exactly when the walk lists nothing, passes the walk's failure on, and otherwise returns every match |
| SearchFacts.FirstMatchIsFirstOfAll | java/src/main/java/com/github/cowwoc/lumina/Resource.java:334-465 | when no entry is named after the relation, the first match is the head of the list of all matches; the two walks find nothing, or fail, together |
| SearchFacts.AgreeIn | java/src/main/java/com/github/cowwoc/lumina/Resource.java:347-389 | after any number of entries, the first-match outcome agrees with the all-matches outcome |
| SearchFacts.AgreeInArray | java/src/main/java/com/github/cowwoc/lumina/Resource.java:592-661 | the two array walks agree after any number of elements |
| SearchFacts.FindAllInPrefix | java/src/main/java/com/github/cowwoc/lumina/Resource.java:419-463 | the matches of the first entries open the list of matches of more entries |
| SearchFacts.ExplicitRelationWins | java/src/main/java/com/github/cowwoc/lumina/Resource.java:337-345 | an object listing the relation is the first match of both walks through its own `@link`, and without one both walks fail |
| SearchFacts.MetadataValuesAreNotSearched | java/src/main/java/com/github/cowwoc/lumina/Resource.java:359-363 | a metadata property other than `@state`, outside `@state`, contributes nothing to either walk whatever its value |
| SearchFacts.MetadataInsideStateIsSearched | java/src/main/java/com/github/cowwoc/lumina/Resource.java:357-363 | inside a `@state` container no entry is skipped as metadata: a string value is a match when it is a URI and an object value without `@link` is searched, in both walks |
| SearchFacts.NamedEntryPrecedesMetadataSkip | java/src/main/java/com/github/cowwoc/lumina/Resource.java:351-356 | an entry named after the relation whose value is a link, or a malformed one, decides the first-match outcome before the metadata skip; the all-matches walk then takes the enclosing object's link or its failure |
| SearchFacts.ReservedRelationMatches | java/src/main/java/com/github/cowwoc/lumina/Resource.java:351-363 | a metadata-shaped relation finds the URI held by the entry of that name, although that entry is otherwise skipped |
| SearchFacts.LinkedArrayElementsAreSkipped | java/src/main/java/com/github/cowwoc/lumina/Resource.java:606-615 | an object inside an array that has any `@link`, well-formed or not, contributes nothing to either walk |
| SearchFacts.NestedResourcesAreNotSearched | java/src/main/java/com/github/cowwoc/lumina/Resource.java:375-381 | a nested object with a valid `@link` contributes nothing to either walk, whatever else it holds |
| SearchFacts.MalformedNestedLinkFails | java/src/main/java/com/github/cowwoc/lumina/Resource.java:377 | a nested property object whose `@link` is malformed makes both walks fail |
| SearchFacts.TextValuesMatchAnyRelation | java/src/main/java/com/github/cowwoc/lumina/Resource.java:442-448 | every searched string that parses as a URI is listed, whatever the relation and the property name |
| SearchFacts.NamedMatchFindsNestedLink | java/src/main/java/com/github/cowwoc/lumina/Resource.java:351-356 | a property named after the relation whose value is a linked resource is the first match |
| SearchFacts.NamedMatchListsNothing | java/src/main/java/com/github/cowwoc/lumina/Resource.java:423-431 | on the same document the all-matches walk uses the enclosing object's link, finds none, and lists nothing |
| SearchFacts.PlainTextIsAMatch | java/src/main/java/com/github/cowwoc/lumina/Resource.java:367-373 | any string that parses as a URI is a match, whatever relation was asked for |
| SearchFacts.BareRelationNameIsNotListed | java/src/main/java/com/github/cowwoc/lumina/Resource.java:572-583 | a relation listed as a JSON string does not select the object under its bare name |
| SearchFacts.QuotedRelationNameIsListed | java/src/main/java/com/github/cowwoc/lumina/Resource.java:572-583 | the quoted name does select it, and both walks return the object's own link |
| SearchFacts.StateFlagResetsInArrays | java/src/main/java/com/github/cowwoc/lumina/Resource.java:606-614 | objects inside an array are searched as outside `@state`, so their metadata is skipped, unlike the same object as the `@state` value |
| SearchFacts.MalformedNestedLinkOnlyFailsOutsideArrays | java/src/main/java/com/github/cowwoc/lumina/Resource.java:606-614 | a malformed `@link` fails the walk in a property value and is skipped unchecked in an array element |
| CamelCase.ToCamelCase | java/src/main/java/com/github/cowwoc/lumina/util/Strings.java:48-59 | the token-by-token loop yields the capitalized tokens of the split; the result is letters only, the source's letters up to case, upper-case first |
| CamelCase.RunEnd | java/src/main/java/com/github/cowwoc/lumina/util/Strings.java:30 | the greedy run of non-letters ends at the next letter or the end of the text |
| CamelCase.SplitIntoWords | java/src/main/java/com/github/cowwoc/lumina/util/Strings.java:26-34 | every token of the split is letters only with no lower-then-upper boundary inside, and the tokens together are exactly the source's letters |
| CamelCase.CapitalizeWord | java/src/main/java/com/github/cowwoc/lumina/util/Strings.java:55-56 | a capitalized token is letters only, equal to the token up to case, and upper-case first |
| CamelCase.Letters | java/src/main/java/com/github/cowwoc/lumina/util/Strings.java:50-58 | the letters the result is built from are letters only and never more than the source's characters, so the result is at most as long as the source |
| CamelCase.CaseOfEachLetter | java/src/main/java/com/github/cowwoc/lumina/util/Strings.java:40-59 | the result is the source's letters in order, each upper-cased exactly when it begins a token (the first character, after a non-letter, or upper-case right after a lower-case letter) and lower-cased otherwise |
| CamelCase.LowerThenUpper | java/src/main/java/com/github/cowwoc/lumina/util/Strings.java:40-59 | "fooBar" becomes "FooBar" |
| CamelCase.CamelCaseMeaning | java/src/main/java/com/github/cowwoc/lumina/util/Strings.java:40-59 | the result is the source's letters in order with only their case changed, empty exactly when the source has no letter, and otherwise upper-case first |
| CamelCase.SingleWord | java/src/main/java/com/github/cowwoc/lumina/util/Strings.java:48-59 | a single word converts to its capitalized form |
| CamelCase.SeparatedWords | java/src/main/java/com/github/cowwoc/lumina/util/Strings.java:48-59 | two words joined by non-letters convert to the two capitalized words back to back |
| Relations.ToStringValues | java/src/main/java/com/github/cowwoc/lumina/Relation.java:23-47 | the relations print as `Parent`, `FormCreate`, `FormUpdate` and `FormDelete` |
| Relations.ToStringIdentifies | java/src/main/java/com/github/cowwoc/lumina/Relation.java:42-46 | two relations print the same exactly when they are the same relation |
| Relations.FormWords | java/src/main/java/com/github/cowwoc/lumina/Relation.java:32-40 | `FORM_` followed by an upper-case word prints as `Form` followed by that word capitalized |
| Forms.FormProperty.StringProperty | java/src/main/java/com/github/cowwoc/lumina/Form.java:83-86 | a new string property has type "string", no settings, and a valid type name |
| Forms.FormProperty.UriProperty | java/src/main/java/com/github/cowwoc/lumina/Form.java:171-174 | a new URI property has type "uri" and no settings |
| Forms.FormProperty.MinLength | java/src/main/java/com/github/cowwoc/lumina/Form.java:93-98 | a negative length is rejected and changes nothing; otherwise it sets the minimum and keeps the other settings |
| Forms.FormProperty.MaxLength | java/src/main/java/com/github/cowwoc/lumina/Form.java:105-110 | a negative length is rejected and changes nothing; otherwise it sets the maximum and keeps the other settings |
| Forms.FormProperty.Optional | java/src/main/java/com/github/cowwoc/lumina/Form.java:116-120 | sets the flag and keeps the other settings |
| Forms.FormProperty.Description | java/src/main/java/com/github/cowwoc/lumina/Form.java:129-134 | empty or whitespace-padded text is rejected and changes nothing; otherwise it sets the description and keeps the other settings |
| Forms.FormProperty.ToJson | java/src/main/java/com/github/cowwoc/lumina/Form.java:141-155 | fails exactly when both lengths are set and the minimum exceeds the maximum; otherwise an object holding exactly the type, then each length that is set, `optional` only when true and `@description` when set, in that order |
| Forms.PropertyFieldsShape | java/src/main/java/com/github/cowwoc/lumina/Form.java:144-153 | the conditional puts leave the type first, each optional entry present exactly when its setting is, and no other entry |
| Forms.PutIf | java/src/main/java/com/github/cowwoc/lumina/Form.java:145-152 | putting an optional value sets that name exactly when the value is present, and changes no other name and not the first entry |
| Forms.ResponseJson | java/src/main/java/com/github/cowwoc/lumina/Form.java:370-375 | a response object is `code` first, then `@description` exactly when the description is present, and nothing else |
| Forms.Form.constructor | java/src/main/java/com/github/cowwoc/lumina/Form.java:261-270 | a new form keeps the URI (a parsed URI, so its text is valid), method and content type, with no description, inputs or responses |
| Forms.Form.Create | java/src/main/java/com/github/cowwoc/lumina/Form.java:261-270 | fails exactly when the method or the content type is empty or whitespace-padded; otherwise a fresh empty form |
| Forms.Form.Description | java/src/main/java/com/github/cowwoc/lumina/Form.java:279-284 | empty or whitespace-padded text is rejected and changes nothing; otherwise it sets the description and keeps inputs and responses |
| Forms.Form.AddInput | java/src/main/java/com/github/cowwoc/lumina/Form.java:295-300 | an invalid name is rejected and changes nothing; otherwise the property is stored under the name, replacing any earlier one |
| Forms.Form.AddResponse | java/src/main/java/com/github/cowwoc/lumina/Form.java:311-315 | records the code with its optional description, replacing any earlier one, and keeps everything else |
| Forms.Form.GetInputs | java/src/main/java/com/github/cowwoc/lumina/Form.java:353-359 | fails exactly when some input's `toJson` fails; otherwise an object with one uniquely named entry per input, holding that input's JSON |
| Forms.Form.GetResponses | java/src/main/java/com/github/cowwoc/lumina/Form.java:365-378 | an array with one response object per recorded code, each code exactly once, in some order |
| Forms.Form.ToResource | java/src/main/java/com/github/cowwoc/lumina/Form.java:322-347 | fails exactly when some input fails; otherwise an object whose names are exactly `@description` when set, then `@link`, `method`, `contentType`, `inputs` and `responses`, in that order, each holding what the code puts there, with described inputs and responses wrapped when the form has a description; read back, the result links to the form's URI |
| Forms.TopFields | java/src/main/java/com/github/cowwoc/lumina/Form.java:330-345 | the top-level entries have unique names and hold the description when set, the link, method, content type, inputs and responses |
| Forms.TopFieldsOrder | java/src/main/java/com/github/cowwoc/lumina/Form.java:330-345 | the top-level entries are exactly `@description` when set, then `@link`, `method`, `contentType`, `inputs` and `responses`, in that order, and nothing else |
| Forms.TopFieldsKeys | java/src/main/java/com/github/cowwoc/lumina/Form.java:330-345 | the names of the top-level entries are `@description` when set, then `@link`, `method`, `contentType`, `inputs` and `responses`, and no other |
| Forms.TopEntries | java/src/main/java/com/github/cowwoc/lumina/Form.java:330-345 | the top-level object has unique names, exactly those six (five without a description) in order, and each holds the value the code puts under it |
| Forms.PutChainOrder | java/src/main/java/com/github/cowwoc/lumina/Form.java:341-345 | successive puts of new names append their entries in the order of the puts |
| Forms.DescribedInputs | java/src/main/java/com/github/cowwoc/lumina/Form.java:332-334 | a described form sets the inputs' `@description`, replacing any input of that name, and keeps every other input entry |
| Forms.DescribedResponsesShape | java/src/main/java/com/github/cowwoc/lumina/Form.java:336-338 | a described form wraps the responses array in an object with `@description` and the array as its `@state` |
| Forms.FormResourceBuilt | java/src/main/java/com/github/cowwoc/lumina/Form.java:322-347 | the object built from the inputs and the responses meets the form-resource description: exactly the named entries in order, nothing else, each holding what the code puts there |
| Forms.FormResourceLinksToUri | java/src/main/java/com/github/cowwoc/lumina/Form.java:341 | a form resource, read back as a resource, is a link to the form's URI |
| Forms.EmptyCheckRejectsEveryName | java/src/main/java/com/github/cowwoc/lumina/Form.java:53-57 | the check as written accepts only the empty text, so it rejects "string", "uri" and every valid name |
| JsonNodes.Lookup | java/src/main/java/com/github/cowwoc/lumina/Resource.java:546-548 | a name is found exactly when some entry has it, and the value found is that entry's |
| JsonNodes.Put | java/src/main/java/com/github/cowwoc/lumina/Form.java:145-153 | after a put the name holds the new value and every other name is unchanged |
| JsonNodes.PutNewKey | java/src/main/java/com/github/cowwoc/lumina/Form.java:355-357 | putting a new name appends the entry at the end |
| JsonNodes.PutKeepsUniqueKeys | java/src/main/java/com/github/cowwoc/lumina/Form.java:355-357 | putting never duplicates a name |
| JsonNodes.RenderPlainString | java/src/main/java/com/github/cowwoc/lumina/Resource.java:579 | text without quotes, backslashes or control characters renders as itself between double quotes |
| JsonNodes.RenderedStringDiffers | java/src/main/java/com/github/cowwoc/lumina/Resource.java:579 | a rendered string is never the text it renders |

## Left out

- Parsing JSON text. The model starts from the parsed tree, and numbers are integers only.
  Fractional numbers are not modelled.
- `java.net.URI` parsing is foreign code. `Uris.ValidUri` approximates it by its character rules:
  RFC 3986 characters, percent signs and non-ASCII text, with no scheme delimiter in first position.
- `Properties.ParseInt` accepts ASCII digits only, where `Integer.parseInt` also accepts other
  Unicode digits.
- `uuidValue` and `instantValue` (Property.java:124-136) are left out. They delegate to `UUID` and
  `Instant` parsing, which is foreign code.
- Hash codes of JSON values and URIs are stand-ins (`JsonNodes.JsonHash`, `Uris.Hash`). Only
  their agreement with equality is modelled.
- Links.Equals: JSON numbers are integers only, so Jackson's distinction between numeric node types
  (an `int` node never equals a `long` node of the same value) is not modelled.
- Links.OmittedEquality: the URI comparison lower-cases the scheme, the host and port after the
  last `@` of the authority, and the two characters after each `%`. A registry-based authority, which
  `URI.equals` compares as written, is treated like a server-based one, and the port is compared
  as text rather than as a number. So `URI.equals` calls `http://x:80` and `http://x:080` equal
  and the model does not, and it calls `//A_B` and `//a_b` unequal (a registry-based authority)
  where the model calls them equal.
- Uris.SameUriExactly: exact for the model's comparison, which has the two gaps of the line above
  (port compared as text, registry-based authority case-folded).
- Uris.HostCaseIgnored: also folds the case of a registry-based authority, which `URI.equals`
  compares as written.
- `toString` of a resource and the exception messages are not modelled. Each failure keeps only
  its cause.
- The relation searches document an IllegalArgumentException for a blank relation, but the code
  does not check it. The model follows the code and has no precondition on the relation.
- Forms.FormProperty.ToJson compares the two lengths only when both are set. With one length
  unset, the Java comparison against `null` depends on the requirements library, which is foreign
  code; the model lets it pass.
- Forms.Form.AddResponse: its documentation promises to reject a blank description, but the code
  stores any description. The model follows the code.
- Forms.FormProperty.StringProperty and Forms.FormProperty.UriProperty are one class with a `kind`
  constant. The two Java classes differ only in the type name they publish.
- Forms.Form.GetInputs and Forms.Form.GetResponses follow an arbitrary order of the hash maps.
  Only "each key exactly once" is stated.
- Forms.Form.constructor requires valid text. The checking `new Form(...)` is modelled by
  `Forms.Form.Create`, which returns the error.
- `Forms.IsStripped` treats the ASCII whitespace and the four separator controls as whitespace.
  The Unicode white space beyond ASCII that `String.strip` also removes is not modelled.
- Form.java's Jackson `ObjectMapper` parameters are left out. Object creation is modelled as
  building values.
- `Strings.toCamelCase` is modelled for ASCII input, as its documentation restricts it.
  `Character.toTitleCase` of an ASCII letter is its upper-case form.
- Concurrency and object identity: every resource and link is a value.

## Findings

| source | as written | input that shows it | evidently intended | confidence | as-written member | corrected member |
|---|---|---|---|---|---|---|
| java/src/main/java/com/github/cowwoc/lumina/Form.java:55 | the property type is required to be stripped and *empty* | `new StringProperty()` passes the type "string", which is not empty, so every property constructor fails | the type must be stripped and non-empty, as for every other name in the file | high, not executed | Forms.EmptyCheckRejectsEveryName | Forms.FormProperty.StringProperty |
| java/src/main/java/com/github/cowwoc/lumina/Form.java:297 | the input name is required to be stripped and *empty* | `addInput("name", p)` fails, and only the empty name is accepted | the name must be stripped and non-empty, as the method's documentation says | high, not executed | Forms.EmptyCheckRejectsEveryName | Forms.Form.AddInput |
