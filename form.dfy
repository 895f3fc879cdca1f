/**
 * Forms: how a client submits a request to the server. A form names the URI, the HTTP method and
 * the content type to use, the input properties the request carries and the responses the server
 * may return, and serialises itself to a JSON resource.
 */
module Forms {
  import opened Base
  import opened JsonNodes
  import opened Uris
  import Links
  import LinkResolution
  import Metadata

  /** A Java `int`. */
  newtype int32 = x: int | -0x8000_0000 <= x < 0x8000_0000

  const INPUTS_DESCRIPTION: string := "The list of inputs that the form accepts"
  const RESPONSES_DESCRIPTION: string := "The list of responses that the form may return"

  /** `Character.isWhitespace` on the characters below U+0080. */
  predicate IsWhitespace(c: char)
  {
    c == ' ' || '\t' <= c <= '\r' || '\U{1C}' <= c <= '\U{1F}'
  }

  /** `isStripped()`: no whitespace at either end. */
  predicate IsStripped(s: string)
  {
    s == [] || (!IsWhitespace(s[0]) && !IsWhitespace(s[|s| - 1]))
  }

  /** `isStripped().isNotEmpty()`: text the setters and the constructor accept. */
  predicate ValidText(s: string)
  {
    s != [] && IsStripped(s)
  }

  /** `isStripped().isEmpty()`, the check the property constructor and `addInput` make as written. */
  predicate PassesEmptyCheck(s: string)
  {
    IsStripped(s) && s == []
  }

  /**
   * The check as written accepts the empty name only, so it rejects both property types and every
   * input name a form could use; the model applies the documented check, `ValidText`, instead.
   */
  lemma {:induction false} EmptyCheckRejectsEveryName(s: string)
    ensures PassesEmptyCheck(s) <==> s == []
    ensures !PassesEmptyCheck("string") && !PassesEmptyCheck("uri")
    ensures ValidText(s) ==> !PassesEmptyCheck(s)
    ensures ValidText("string") && ValidText("uri")
  {
    assert "string"[0] == 's' && "string"[5] == 'g';
    assert "uri"[0] == 'u' && "uri"[2] == 'i';
  }

  // ---------------------------------------------------------------------------------------------
  // Input properties.

  /**
   * `Form.StringProperty` and `Form.UriProperty`: both keep the same four optional settings and
   * differ only in the JSON type they publish.
   */
  class FormProperty {
    /** The JSON type of the property: "string" or "uri". */
    const kind: string
    var minLength: Option<int32>
    var maxLength: Option<int32>
    var optional: Option<bool>
    var description: Option<string>

    /** What the setters guarantee of the settings. */
    ghost predicate Valid()
      reads this
    {
      && ValidText(kind)
      && (minLength.Some? ==> minLength.value >= 0)
      && (maxLength.Some? ==> maxLength.value >= 0)
      && (description.Some? ==> ValidText(description.value))
    }

    /** `new StringProperty()`: nothing set yet. */
    constructor StringProperty()
      ensures Valid() && kind == "string"
      ensures minLength.None? && maxLength.None? && optional.None? && description.None?
    {
      kind := "string";
      minLength, maxLength, optional, description := None, None, None, None;
      new;
      EmptyCheckRejectsEveryName(kind);
    }

    /** `new UriProperty()`: nothing set yet. */
    constructor UriProperty()
      ensures Valid() && kind == "uri"
      ensures minLength.None? && maxLength.None? && optional.None? && description.None?
    {
      kind := "uri";
      minLength, maxLength, optional, description := None, None, None, None;
      new;
      EmptyCheckRejectsEveryName(kind);
    }

    /** `minLength(int)`: a negative length is rejected and leaves the property as it was. */
    method MinLength(n: int32) returns (r: Result<()>)
      requires Valid()
      modifies this
      ensures Valid()
      ensures r.Err? <==> n < 0
      ensures r.Err? ==> r.error == InvalidArgument && unchanged(this)
      ensures r.Ok? ==> minLength == Some(n) && maxLength == old(maxLength) &&
                        optional == old(optional) && description == old(description)
    {
      if n < 0 {
        return Err(InvalidArgument);
      }
      minLength := Some(n);
      return Ok(());
    }

    /** `maxLength(int)`: a negative length is rejected and leaves the property as it was. */
    method MaxLength(n: int32) returns (r: Result<()>)
      requires Valid()
      modifies this
      ensures Valid()
      ensures r.Err? <==> n < 0
      ensures r.Err? ==> r.error == InvalidArgument && unchanged(this)
      ensures r.Ok? ==> maxLength == Some(n) && minLength == old(minLength) &&
                        optional == old(optional) && description == old(description)
    {
      if n < 0 {
        return Err(InvalidArgument);
      }
      maxLength := Some(n);
      return Ok(());
    }

    /** `optional(boolean)`: always accepted. */
    method Optional(b: bool)
      requires Valid()
      modifies this
      ensures Valid()
      ensures optional == Some(b) && minLength == old(minLength) && maxLength == old(maxLength) &&
              description == old(description)
    {
      optional := Some(b);
    }

    /** `description(String)`: empty or whitespace-padded text is rejected and changes nothing. */
    method Description(text: string) returns (r: Result<()>)
      requires Valid()
      modifies this
      ensures Valid()
      ensures r.Err? <==> !ValidText(text)
      ensures r.Err? ==> r.error == InvalidArgument && unchanged(this)
      ensures r.Ok? ==> description == Some(text) && minLength == old(minLength) &&
                        maxLength == old(maxLength) && optional == old(optional)
    {
      if !ValidText(text) {
        return Err(InvalidArgument);
      }
      description := Some(text);
      return Ok(());
    }

    /**
     * `toJson`: the type first, then each length that is set, `optional` only when it is true and
     * `@description` when set; it fails when both lengths are set and the minimum exceeds the
     * maximum.
     */
    function ToJson(): (r: Result<Json>)
      reads this
      ensures r.Err? <==> minLength.Some? && maxLength.Some? && minLength.value > maxLength.value
      ensures r.Err? ==> r.error == InvalidArgument
      ensures r.Ok? ==> DescribesProperty(r.value, kind, minLength, maxLength, optional, description)
    {
      if minLength.Some? && maxLength.Some? && minLength.value > maxLength.value then Err(InvalidArgument)
      else
        PropertyFieldsShape(kind, minLength, maxLength, optional, description);
        Ok(Obj(PropertyFields(kind, minLength, maxLength, optional, description)))
    }
  }

  /**
   * The JSON of an input property: the type first, then each length that is set, `optional` only
   * when it is set to true and `@description` when set, in that order, and no other entry.
   */
  ghost predicate DescribesProperty(j: Json, kind: string, minLength: Option<int32>, maxLength: Option<int32>,
                                    optional: Option<bool>, description: Option<string>)
  {
    && j.Obj?
    && j.fields == [("type", Str(kind))]
                   + EntryIf("minLength", if minLength.Some? then Some(Num(minLength.value as int)) else None)
                   + EntryIf("maxLength", if maxLength.Some? then Some(Num(maxLength.value as int)) else None)
                   + EntryIf("optional", if optional == Some(true) then Some(Bool(true)) else None)
                   + EntryIf(Metadata.DESCRIPTION, if description.Some? then Some(Str(description.value)) else None)
    && Entries5(j.fields, ("type", Str(kind)),
                "minLength", if minLength.Some? then Some(Num(minLength.value as int)) else None,
                "maxLength", if maxLength.Some? then Some(Num(maxLength.value as int)) else None,
                "optional", if optional == Some(true) then Some(Bool(true)) else None,
                Metadata.DESCRIPTION, if description.Some? then Some(Str(description.value)) else None)
  }

  /**
   * Unique names, `first` as the first entry, each `ki` holding `vi` (absent when `vi` is `None`)
   * and no name other than these five.
   */
  ghost predicate Entries5(f: seq<Field>, first: Field, k1: string, v1: Option<Json>, k2: string, v2: Option<Json>,
                           k3: string, v3: Option<Json>, k4: string, v4: Option<Json>)
  {
    && UniqueKeys(f) && f != [] && f[0] == first
    && Lookup(f, k1) == v1 && Lookup(f, k2) == v2 && Lookup(f, k3) == v3 && Lookup(f, k4) == v4
    && forall k :: (k != first.0 && k != k1 && k != k2 && k != k3 && k != k4) ==> Lookup(f, k).None?
  }

  /** The entries `toJson` puts, one after the other. */
  function PropertyFields(kind: string, minLength: Option<int32>, maxLength: Option<int32>,
                          optional: Option<bool>, description: Option<string>): seq<Field>
  {
    var min := if minLength.Some? then Some(Num(minLength.value as int)) else None;
    var max := if maxLength.Some? then Some(Num(maxLength.value as int)) else None;
    var opt := if optional == Some(true) then Some(Bool(true)) else None;
    var text := if description.Some? then Some(Str(description.value)) else None;
    PutIf(PutIf(PutIf(PutIf([("type", Str(kind))], "minLength", min), "maxLength", max), "optional", opt),
          Metadata.DESCRIPTION, text)
  }

  lemma {:induction false} PropertyFieldsShape(kind: string, minLength: Option<int32>, maxLength: Option<int32>,
                                               optional: Option<bool>, description: Option<string>)
    ensures DescribesProperty(Obj(PropertyFields(kind, minLength, maxLength, optional, description)),
                              kind, minLength, maxLength, optional, description)
  {
    var min := if minLength.Some? then Some(Num(minLength.value as int)) else None;
    var max := if maxLength.Some? then Some(Num(maxLength.value as int)) else None;
    var opt := if optional == Some(true) then Some(Bool(true)) else None;
    var text := if description.Some? then Some(Str(description.value)) else None;
    PropertyNamesDistinct();
    PutIfChain(("type", Str(kind)), "minLength", min, "maxLength", max, "optional", opt, Metadata.DESCRIPTION, text);
    PutIfChainOrder(("type", Str(kind)), "minLength", min, "maxLength", max, "optional", opt, Metadata.DESCRIPTION, text);
  }

  /** The names `toJson` writes are pairwise distinct. */
  lemma {:induction false} PropertyNamesDistinct()
    ensures "type" != "minLength" && "type" != "maxLength" && "type" != "optional"
    ensures "type" != Metadata.DESCRIPTION && "minLength" != Metadata.DESCRIPTION
    ensures "maxLength" != Metadata.DESCRIPTION && "optional" != Metadata.DESCRIPTION
    ensures "minLength" != "maxLength" && "minLength" != "optional" && "maxLength" != "optional"
  {
    assert "minLength"[1] != "maxLength"[1];
    assert "minLength"[0] != "optional"[0] && "maxLength"[0] != "optional"[0];
  }

  /** Four conditional puts after a first entry, under five distinct names. */
  lemma {:induction false} PutIfChain(first: Field, k1: string, v1: Option<Json>, k2: string, v2: Option<Json>,
                                      k3: string, v3: Option<Json>, k4: string, v4: Option<Json>)
    requires first.0 != k1 && first.0 != k2 && first.0 != k3 && first.0 != k4
    requires k1 != k2 && k1 != k3 && k1 != k4 && k2 != k3 && k2 != k4 && k3 != k4
    ensures Entries5(PutIf(PutIf(PutIf(PutIf([first], k1, v1), k2, v2), k3, v3), k4, v4), first, k1, v1, k2, v2, k3, v3, k4, v4)
  {
    var f0 := [first];
    var f1 := PutIf(f0, k1, v1);
    var f2 := PutIf(f1, k2, v2);
    var f3 := PutIf(f2, k3, v3);
    var f := PutIf(f3, k4, v4);
    LookupSingle(first, k1);
    LookupSingle(first, k2);
    LookupSingle(first, k3);
    LookupSingle(first, k4);
    assert Lookup(f3, k4) == Lookup(f0, k4);
    assert Lookup(f3, k3) == v3 && Lookup(f2, k3) == Lookup(f0, k3);
    assert Lookup(f2, k2) == v2 && Lookup(f1, k2) == Lookup(f0, k2);
    assert Lookup(f1, k1) == v1;
    forall k | k != first.0 && k != k1 && k != k2 && k != k3 && k != k4 ensures Lookup(f, k).None? {
      LookupSingle(first, k);
      assert Lookup(f, k) == Lookup(f0, k);
    }
  }

  /** The same puts append their entries in order. */
  lemma {:induction false} PutIfChainOrder(first: Field, k1: string, v1: Option<Json>, k2: string, v2: Option<Json>,
                                           k3: string, v3: Option<Json>, k4: string, v4: Option<Json>)
    requires first.0 != k1 && first.0 != k2 && first.0 != k3 && first.0 != k4
    requires k1 != k2 && k1 != k3 && k1 != k4 && k2 != k3 && k2 != k4 && k3 != k4
    ensures PutIf(PutIf(PutIf(PutIf([first], k1, v1), k2, v2), k3, v3), k4, v4) ==
            [first] + EntryIf(k1, v1) + EntryIf(k2, v2) + EntryIf(k3, v3) + EntryIf(k4, v4)
  {
    var f0 := [first];
    var f1 := PutIf(f0, k1, v1);
    var f2 := PutIf(f1, k2, v2);
    var f3 := PutIf(f2, k3, v3);
    LookupSingle(first, k1);
    PutIfAppends(f0, k1, v1);
    assert Lookup(f1, k2).None? by {
      LookupSingle(first, k2);
      assert Lookup(f1, k2) == Lookup(f0, k2);
    }
    PutIfAppends(f1, k2, v2);
    assert Lookup(f2, k3).None? by {
      LookupSingle(first, k3);
      assert Lookup(f2, k3) == Lookup(f1, k3) == Lookup(f0, k3);
    }
    PutIfAppends(f2, k3, v3);
    assert Lookup(f3, k4).None? by {
      LookupSingle(first, k4);
      assert Lookup(f3, k4) == Lookup(f2, k4) == Lookup(f1, k4) == Lookup(f0, k4);
    }
    PutIfAppends(f3, k4, v4);
  }

  /** The entry `key: value` when there is a value, and nothing otherwise. */
  function EntryIf(key: string, value: Option<Json>): seq<Field>
  {
    if value.Some? then [(key, value.value)] else []
  }

  /** A conditional put of a name the object does not have yet appends the entry at the end. */
  lemma {:induction false} PutIfAppends(fields: seq<Field>, key: string, value: Option<Json>)
    requires UniqueKeys(fields) && Lookup(fields, key).None?
    ensures PutIf(fields, key, value) == fields + EntryIf(key, value)
  {
    if value.Some? {
      PutNewKey(fields, key, value.value);
    } else {
      assert fields + [] == fields;
    }
  }

  lemma {:induction false} LookupSingle(entry: Field, k: string)
    ensures Lookup([entry], k) == if entry.0 == k then Some(entry.1) else None
  {
    assert [entry][1..] == [];
  }

  /** `if (value != null) json.put(key, value)`. */
  function PutIf(fields: seq<Field>, key: string, value: Option<Json>): (r: seq<Field>)
    requires UniqueKeys(fields)
    ensures Lookup(r, key) == if value.Some? then value else Lookup(fields, key)
    ensures forall k :: k != key ==> Lookup(r, k) == Lookup(fields, k)
    ensures UniqueKeys(r)
    ensures fields != [] && fields[0].0 != key ==> r != [] && r[0] == fields[0]
  {
    if value.Some? then
      PutKeepsUniqueKeys(fields, key, value.value);
      Put(fields, key, value.value)
    else fields
  }

  // ---------------------------------------------------------------------------------------------
  // Responses.

  /** `getResponses` for one entry: the code, then `@description` when the description is present. */
  function ResponseJson(code: int32, description: Option<string>): (r: Json)
    ensures r.Obj? && UniqueKeys(r.fields) && r.fields != [] && r.fields[0] == ("code", Num(code as int))
    ensures Get(r, "code") == Some(Num(code as int))
    ensures Get(r, Metadata.DESCRIPTION) == if description.Some? then Some(Str(description.value)) else None
    ensures forall k :: k != "code" && k != Metadata.DESCRIPTION ==> Get(r, k).None?
  {
    var code := ("code", Num(code as int));
    var text := if description.Some? then Some(Str(description.value)) else None;
    LookupSingle(code, Metadata.DESCRIPTION);
    var fields := PutIf([code], Metadata.DESCRIPTION, text);
    ResponseFields(code, text);
    Obj(fields)
  }

  lemma {:induction false} ResponseFields(code: Field, text: Option<Json>)
    requires code.0 == "code"
    ensures var f := PutIf([code], Metadata.DESCRIPTION, text);
              f != [] && f[0] == code && forall k :: k != "code" && k != Metadata.DESCRIPTION ==> Lookup(f, k).None?
  {
    forall k | k != "code" && k != Metadata.DESCRIPTION ensures Lookup(PutIf([code], Metadata.DESCRIPTION, text), k).None? {
      LookupSingle(code, k);
    }
  }

  /**
   * `elems` holds one response object per code of `responses`, in the order `codes`, which lists
   * every code exactly once.
   */
  ghost predicate ResponsesInOrder(elems: seq<Json>, codes: seq<int32>, responses: map<int32, Option<string>>)
  {
    && |elems| == |codes|
    && (forall i, j :: 0 <= i < j < |codes| ==> codes[i] != codes[j])
    && (forall i :: 0 <= i < |codes| ==> codes[i] in responses && elems[i] == ResponseJson(codes[i], responses[codes[i]]))
    && (forall c :: c in responses ==> c in codes)
  }

  /** `elems` lists the responses in some order: a hash map promises none. */
  ghost predicate ListsResponses(elems: seq<Json>, responses: map<int32, Option<string>>)
  {
    exists codes :: ResponsesInOrder(elems, codes, responses)
  }

  // ---------------------------------------------------------------------------------------------
  // The form.

  class Form {
    var description: Option<string>
    const uri: Uri
    const httpMethod: string
    const contentType: string
    /** `nameToProperty`: the properties are shared, so later changes to them show in the form. */
    var inputs: map<string, FormProperty>
    /** `responseCodeToDescription`: a code without a description maps to `None`. */
    var responses: map<int32, Option<string>>

    /** What the constructor and the setters guarantee. */
    ghost predicate Valid()
      reads this
    {
      && ValidUri(uri.text)
      && ValidText(httpMethod)
      && ValidText(contentType)
      && (description.Some? ==> ValidText(description.value))
      && forall name :: name in inputs ==> ValidText(name)
    }

    constructor (uri: Uri, httpMethod: string, contentType: string)
      requires ValidUri(uri.text) && ValidText(httpMethod) && ValidText(contentType)
      ensures Valid()
      ensures this.uri == uri && this.httpMethod == httpMethod && this.contentType == contentType
      ensures description.None? && inputs == map[] && responses == map[]
    {
      this.uri := uri;
      this.httpMethod := httpMethod;
      this.contentType := contentType;
      description := None;
      inputs := map[];
      responses := map[];
    }

    /**
     * `new Form(uri, method, contentType)`: the method and the content type must be stripped,
     * non-empty text. The URI is a parsed `java.net.URI`, so its text is always valid.
     */
    static method Create(uri: Uri, httpMethod: string, contentType: string) returns (r: Result<Form>)
      requires ValidUri(uri.text)
      ensures r.Err? <==> !ValidText(httpMethod) || !ValidText(contentType)
      ensures r.Err? ==> r.error == InvalidArgument
      ensures r.Ok? ==> fresh(r.value) && r.value.Valid() && r.value.uri == uri &&
                        r.value.httpMethod == httpMethod && r.value.contentType == contentType &&
                        r.value.description.None? && r.value.inputs == map[] && r.value.responses == map[]
    {
      if !ValidText(httpMethod) || !ValidText(contentType) {
        return Err(InvalidArgument);
      }
      var form := new Form(uri, httpMethod, contentType);
      return Ok(form);
    }

    /** `description(String)`: empty or whitespace-padded text is rejected and changes nothing. */
    method Description(text: string) returns (r: Result<()>)
      requires Valid()
      modifies this
      ensures Valid()
      ensures r.Err? <==> !ValidText(text)
      ensures r.Err? ==> r.error == InvalidArgument && unchanged(this)
      ensures r.Ok? ==> description == Some(text) && inputs == old(inputs) && responses == old(responses)
    {
      if !ValidText(text) {
        return Err(InvalidArgument);
      }
      description := Some(text);
      return Ok(());
    }

    /** `addInput`: adds the property under `name`, replacing any property already under that name. */
    method AddInput(name: string, property: FormProperty) returns (r: Result<()>)
      requires Valid()
      modifies this
      ensures Valid()
      ensures r.Err? <==> !ValidText(name)
      ensures r.Err? ==> r.error == InvalidArgument && unchanged(this)
      ensures r.Ok? ==> inputs == old(inputs)[name := property] && description == old(description) &&
                        responses == old(responses)
    {
      if !ValidText(name) {
        return Err(InvalidArgument);
      }
      inputs := inputs[name := property];
      return Ok(());
    }

    /** `addResponse`: records the code, replacing any description already recorded for it. */
    method AddResponse(code: int32, text: Option<string>)
      requires Valid()
      modifies this
      ensures Valid()
      ensures responses == old(responses)[code := text] && inputs == old(inputs) && description == old(description)
    {
      responses := responses[code := text];
    }

    /**
     * `toResource`: `@description` when the form has one, `@link`, `method`, `contentType`,
     * `inputs` and `responses`. A described form also describes its `inputs`, and wraps the array
     * of responses in an object that describes it and holds the array as its `@state`. The form
     * fails exactly when one of its inputs does.
     */
    method ToResource() returns (r: Result<Json>)
      requires Valid()
      ensures r.Ok? <==> forall name :: name in inputs ==> inputs[name].ToJson().Ok?
      ensures r.Err? ==> r.error == InvalidArgument
      ensures r.Ok? ==> FormResource(r.value, description, uri.text, httpMethod, contentType, RenderedInputs(), responses)
      ensures r.Ok? ==> LinkResolution.ObjectLink(r.value) == Ok(Some(Links.ToUri(uri)))
    {
      var listedInputs := GetInputs();
      if listedInputs.Err? {
        return listedInputs;
      }
      var list, codes := GetResponses();
      var inputsNode := Obj(DescribedInputs(listedInputs.value.fields, description.Some?));
      var responsesNode := list;
      if description.Some? {
        responsesNode := DescribedResponsesNode(list);
      }
      var rendered := RenderedInputs();
      FormResourceBuilt(description, uri.text, httpMethod, contentType, listedInputs.value.fields, rendered,
                        list, codes, responses);
      var resource := Obj(TopFields(description, uri.text, httpMethod, contentType, inputsNode, responsesNode));
      FormResourceLinksToUri(resource, description, uri.text, httpMethod, contentType, rendered, responses);
      return Ok(resource);
    }

    /** The JSON of each input, by name; defined when every input serialises. */
    function RenderedInputs(): (m: map<string, Json>)
      reads this, inputs.Values
      requires forall name :: name in inputs ==> inputs[name].ToJson().Ok?
      ensures m.Keys == inputs.Keys
      ensures forall name :: name in inputs ==> m[name] == inputs[name].ToJson().value
    {
      map name | name in inputs :: inputs[name].ToJson().value
    }

    /** `getResponses`: one response object per recorded code, in the map's iteration order. */
    method GetResponses() returns (r: Json, ghost codes: seq<int32>)
      ensures r.Arr? && ResponsesInOrder(r.elems, codes, responses)
      ensures |r.elems| == |responses|
    {
      var elems: seq<Json> := [];
      codes := [];
      var remaining := responses.Keys;
      while remaining != {}
        invariant remaining <= responses.Keys
        invariant |elems| == |codes| && |codes| + |remaining| == |responses.Keys|
        invariant forall i, j :: 0 <= i < j < |codes| ==> codes[i] != codes[j]
        invariant forall i :: 0 <= i < |codes| ==>
                    codes[i] in responses && codes[i] !in remaining &&
                    elems[i] == ResponseJson(codes[i], responses[codes[i]])
        invariant forall c :: c in responses ==> c in remaining || c in codes
        decreases remaining
      {
        var code :| code in remaining;
        elems := elems + [ResponseJson(code, responses[code])];
        codes := codes + [code];
        remaining := remaining - {code};
      }
      return Arr(elems), codes;
    }

    /** `getInputs`: each input's `toJson` under its name; the first `toJson` that fails fails it. */
    method GetInputs() returns (r: Result<Json>)
      ensures r.Ok? <==> forall name :: name in inputs ==> inputs[name].ToJson().Ok?
      ensures r.Err? ==> r.error == InvalidArgument
      ensures r.Ok? ==> r.value.Obj? && UniqueKeys(r.value.fields) && |r.value.fields| == |inputs|
      ensures r.Ok? ==> forall name :: Get(r.value, name) ==
                          if name in inputs then Some(inputs[name].ToJson().value) else None
    {
      var fields: seq<Field> := [];
      var remaining := inputs.Keys;
      while remaining != {}
        invariant remaining <= inputs.Keys
        invariant UniqueKeys(fields) && |fields| + |remaining| == |inputs.Keys|
        invariant forall name :: name in inputs && name !in remaining ==> inputs[name].ToJson().Ok?
        invariant forall name :: Lookup(fields, name) ==
                    if name in inputs && name !in remaining then Some(inputs[name].ToJson().value) else None
        decreases remaining
      {
        var name :| name in remaining;
        var json := inputs[name].ToJson();
        if json.Err? {
          return Err(json.error);
        }
        assert Lookup(fields, name).None?;
        PutNewKey(fields, name, json.value);
        PutKeepsUniqueKeys(fields, name, json.value);
        fields := Put(fields, name, json.value);
        remaining := remaining - {name};
      }
      return Ok(Obj(fields));
    }
  }

  /** A described form's `responses`: its description, then the array of responses as its `@state`. */
  ghost predicate DescribedResponses(node: Json, responses: map<int32, Option<string>>)
  {
    && node.Obj? && UniqueKeys(node.fields) && Keys(node.fields) == [Metadata.DESCRIPTION, Metadata.STATE]
    && Get(node, Metadata.DESCRIPTION) == Some(Str(RESPONSES_DESCRIPTION))
    && Get(node, Metadata.STATE).Some? && Get(node, Metadata.STATE).value.Arr?
    && ListsResponses(Get(node, Metadata.STATE).value.elems, responses)
  }

  lemma {:induction false} DescribedResponsesShape(list: Json, codes: seq<int32>, responses: map<int32, Option<string>>)
    requires list.Arr? && ResponsesInOrder(list.elems, codes, responses)
    ensures DescribedResponses(DescribedResponsesNode(list), responses)
  {
    var described := [(Metadata.DESCRIPTION, Str(RESPONSES_DESCRIPTION))];
    assert Put([], Metadata.DESCRIPTION, Str(RESPONSES_DESCRIPTION)) == described;
    LookupSingle(described[0], Metadata.STATE);
    PutNewKey(described, Metadata.STATE, list);
    var node := Obj(described + [(Metadata.STATE, list)]);
    assert Keys(node.fields) == [Metadata.DESCRIPTION, Metadata.STATE];
    assert ListsResponses(list.elems, responses);
  }

  /** The names `toResource` writes at the top of the form are pairwise distinct. */
  lemma {:induction false} FormNamesDistinct()
    ensures Metadata.DESCRIPTION != Metadata.LINK
    ensures forall k :: k in ["method", "contentType", "inputs", "responses"] ==>
              k != Metadata.DESCRIPTION && k != Metadata.LINK
    ensures "method" != "contentType" && "method" != "inputs" && "method" != "responses"
    ensures "contentType" != "inputs" && "contentType" != "responses" && "inputs" != "responses"
  {
    assert Metadata.DESCRIPTION[1] != Metadata.LINK[1];
    assert "method"[0] != "inputs"[0];
  }

  /** A name other than the one entry's, if any, is absent. */
  lemma {:induction false} AbsentFromForm(form: seq<Field>, k0: string, k: string)
    requires form == [] || (|form| == 1 && form[0].0 == k0)
    requires k != k0
    ensures Lookup(form, k).None?
  {
    if form != [] {
      assert form == [form[0]];
      LookupSingle(form[0], k);
    }
  }

  /** The five puts at the top of the form append their entries, in the order of the puts. */
  lemma {:induction false} PutChainOrder(form: seq<Field>, k0: string, k1: string, v1: Json, k2: string, v2: Json,
                                         k3: string, v3: Json, k4: string, v4: Json, k5: string, v5: Json)
    requires form == [] || (|form| == 1 && form[0].0 == k0)
    requires k0 != k1 && k0 != k2 && k0 != k3 && k0 != k4 && k0 != k5
    requires k1 != k2 && k1 != k3 && k1 != k4 && k1 != k5
    requires k2 != k3 && k2 != k4 && k2 != k5 && k3 != k4 && k3 != k5 && k4 != k5
    ensures Put(Put(Put(Put(Put(form, k1, v1), k2, v2), k3, v3), k4, v4), k5, v5) ==
            form + [(k1, v1), (k2, v2), (k3, v3), (k4, v4), (k5, v5)]
  {
    var f1 := Put(form, k1, v1);
    var f2 := Put(f1, k2, v2);
    var f3 := Put(f2, k3, v3);
    var f4 := Put(f3, k4, v4);
    AbsentFromForm(form, k0, k1);
    PutNewKey(form, k1, v1);
    assert Lookup(f1, k2).None? by {
      AbsentFromForm(form, k0, k2);
      assert Lookup(f1, k2) == Lookup(form, k2);
    }
    PutNewKey(f1, k2, v2);
    assert Lookup(f2, k3).None? by {
      AbsentFromForm(form, k0, k3);
      assert Lookup(f2, k3) == Lookup(f1, k3) == Lookup(form, k3);
    }
    PutNewKey(f2, k3, v3);
    assert Lookup(f3, k4).None? by {
      AbsentFromForm(form, k0, k4);
      assert Lookup(f3, k4) == Lookup(f2, k4) == Lookup(f1, k4) == Lookup(form, k4);
    }
    PutNewKey(f3, k4, v4);
    assert Lookup(f4, k5).None? by {
      AbsentFromForm(form, k0, k5);
      assert Lookup(f4, k5) == Lookup(f3, k5) == Lookup(f2, k5) == Lookup(f1, k5) == Lookup(form, k5);
    }
    PutNewKey(f4, k5, v5);
    AppendFive(form, (k1, v1), (k2, v2), (k3, v3), (k4, v4), (k5, v5));
  }

  /** Five entries appended one at a time, in order. */
  lemma {:induction false} AppendFive(form: seq<Field>, e1: Field, e2: Field, e3: Field, e4: Field, e5: Field)
    ensures form + [e1] + [e2] + [e3] + [e4] + [e5] == form + [e1, e2, e3, e4, e5]
  {
  }

  /** The five puts at the top of the form, each under a name not used before. */
  lemma {:induction false} FormLookups(form: seq<Field>, k0: string, k1: string, v1: Json, k2: string, v2: Json,
                                       k3: string, v3: Json, k4: string, v4: Json, k5: string, v5: Json)
    requires form == [] || (|form| == 1 && form[0].0 == k0)
    requires k0 != k1 && k0 != k2 && k0 != k3 && k0 != k4 && k0 != k5
    requires k1 != k2 && k1 != k3 && k1 != k4 && k1 != k5
    requires k2 != k3 && k2 != k4 && k2 != k5 && k3 != k4 && k3 != k5 && k4 != k5
    ensures var f := Put(Put(Put(Put(Put(form, k1, v1), k2, v2), k3, v3), k4, v4), k5, v5);
              && Lookup(f, k0) == Lookup(form, k0) && Lookup(f, k1) == Some(v1) && Lookup(f, k2) == Some(v2)
              && Lookup(f, k3) == Some(v3) && Lookup(f, k4) == Some(v4) && Lookup(f, k5) == Some(v5)
              && UniqueKeys(f)
  {
    var f1 := Put(form, k1, v1);
    var f2 := Put(f1, k2, v2);
    var f3 := Put(f2, k3, v3);
    var f4 := Put(f3, k4, v4);
    PutKeepsUniqueKeys(form, k1, v1);
    PutKeepsUniqueKeys(f1, k2, v2);
    PutKeepsUniqueKeys(f2, k3, v3);
    PutKeepsUniqueKeys(f3, k4, v4);
    PutKeepsUniqueKeys(f4, k5, v5);
    assert Lookup(f4, k1) == Some(v1) && Lookup(f4, k2) == Some(v2) && Lookup(f4, k3) == Some(v3);
    assert Lookup(f4, k0) == Lookup(form, k0);
  }

  /** The inputs object of `toResource`: a described form puts its own `@description` into it. */
  function DescribedInputs(fields: seq<Field>, described: bool): (r: seq<Field>)
    requires UniqueKeys(fields)
    ensures UniqueKeys(r)
    ensures forall name :: name != Metadata.DESCRIPTION ==> Lookup(r, name) == Lookup(fields, name)
    ensures Lookup(r, Metadata.DESCRIPTION) ==
              if described then Some(Str(INPUTS_DESCRIPTION)) else Lookup(fields, Metadata.DESCRIPTION)
  {
    PutIf(fields, Metadata.DESCRIPTION, if described then Some(Str(INPUTS_DESCRIPTION)) else None)
  }

  /** The responses object of a described form: the description, then the array as `@state`. */
  function DescribedResponsesNode(list: Json): Json
  {
    Obj(Put(Put([], Metadata.DESCRIPTION, Str(RESPONSES_DESCRIPTION)), Metadata.STATE, list))
  }

  /**
   * The top of the form as `toResource` puts it together: `@description` when present, then
   * `@link`, `method`, `contentType`, `inputs` and `responses`.
   */
  function TopFields(description: Option<string>, link: string, httpMethod: string, contentType: string,
                     inputsNode: Json, responsesNode: Json): (r: seq<Field>)
    ensures UniqueKeys(r)
    ensures Lookup(r, Metadata.DESCRIPTION) == if description.Some? then Some(Str(description.value)) else None
    ensures Lookup(r, Metadata.LINK) == Some(Str(link))
    ensures Lookup(r, "method") == Some(Str(httpMethod)) && Lookup(r, "contentType") == Some(Str(contentType))
    ensures Lookup(r, "inputs") == Some(inputsNode) && Lookup(r, "responses") == Some(responsesNode)
  {
    var form := PutIf([], Metadata.DESCRIPTION, if description.Some? then Some(Str(description.value)) else None);
    FormNamesDistinct();
    FormLookups(form, Metadata.DESCRIPTION, Metadata.LINK, Str(link), "method", Str(httpMethod),
                "contentType", Str(contentType), "inputs", inputsNode, "responses", responsesNode);
    Put(Put(Put(Put(Put(form, Metadata.LINK, Str(link)), "method", Str(httpMethod)), "contentType", Str(contentType)),
            "inputs", inputsNode), "responses", responsesNode)
  }

  /** The names at the top of the form, in the order `toResource` puts them. */
  lemma {:induction false} TopFieldsKeys(description: Option<string>, link: string, httpMethod: string,
                                         contentType: string, inputsNode: Json, responsesNode: Json)
    ensures Keys(TopFields(description, link, httpMethod, contentType, inputsNode, responsesNode)) ==
              (if description.Some? then [Metadata.DESCRIPTION] else []) +
              [Metadata.LINK, "method", "contentType", "inputs", "responses"]
  {
    TopFieldsOrder(description, link, httpMethod, contentType, inputsNode, responsesNode);
    KeysAfterEntry(Metadata.DESCRIPTION, if description.Some? then Some(Str(description.value)) else None,
                   (Metadata.LINK, Str(link)), ("method", Str(httpMethod)), ("contentType", Str(contentType)),
                   ("inputs", inputsNode), ("responses", responsesNode));
  }

  /**
   * The top of the form holds `@description` when present, then `@link`, `method`, `contentType`,
   * `inputs` and `responses`, in that order and nothing else.
   */
  lemma {:induction false} TopFieldsOrder(description: Option<string>, link: string, httpMethod: string,
                                          contentType: string, inputsNode: Json, responsesNode: Json)
    ensures TopFields(description, link, httpMethod, contentType, inputsNode, responsesNode) ==
              EntryIf(Metadata.DESCRIPTION, if description.Some? then Some(Str(description.value)) else None) +
              [(Metadata.LINK, Str(link)), ("method", Str(httpMethod)), ("contentType", Str(contentType)),
               ("inputs", inputsNode), ("responses", responsesNode)]
  {
    var described := if description.Some? then Some(Str(description.value)) else None;
    var form := PutIf([], Metadata.DESCRIPTION, described);
    PutIfAppends([], Metadata.DESCRIPTION, described);
    FormNamesDistinct();
    PutChainOrder(form, Metadata.DESCRIPTION, Metadata.LINK, Str(link), "method", Str(httpMethod),
                  "contentType", Str(contentType), "inputs", inputsNode, "responses", responsesNode);
  }

  /** The names of an optional entry followed by five more. */
  lemma {:induction false} KeysAfterEntry(key: string, value: Option<Json>,
                                          e1: Field, e2: Field, e3: Field, e4: Field, e5: Field)
    ensures Keys(EntryIf(key, value) + [e1, e2, e3, e4, e5]) ==
              (if value.Some? then [key] else []) + [e1.0, e2.0, e3.0, e4.0, e5.0]
  {
    var fields := EntryIf(key, value) + [e1, e2, e3, e4, e5];
    var keys := (if value.Some? then [key] else []) + [e1.0, e2.0, e3.0, e4.0, e5.0];
    forall i | 0 <= i < |keys|
      ensures Keys(fields)[i] == keys[i]
    {
      assert Keys(fields)[i] == fields[i].0;
    }
  }

  /**
   * The `inputs` object: the JSON of each input under its name; a described form's own
   * `@description` takes the place of an input of that name.
   */
  ghost predicate InputsNode(node: Json, described: bool, rendered: map<string, Json>)
  {
    && node.Obj? && UniqueKeys(node.fields)
    && (forall name :: name != Metadata.DESCRIPTION ==>
          Get(node, name) == if name in rendered then Some(rendered[name]) else None)
    && Get(node, Metadata.DESCRIPTION) ==
         if described then Some(Str(INPUTS_DESCRIPTION))
         else if Metadata.DESCRIPTION in rendered then Some(rendered[Metadata.DESCRIPTION])
         else None
  }

  /** The `responses` entry: the array itself, or for a described form the object wrapping it. */
  ghost predicate ResponsesNode(node: Json, described: bool, responses: map<int32, Option<string>>)
  {
    if described then DescribedResponses(node, responses) else node.Arr? && ListsResponses(node.elems, responses)
  }

  /**
   * What `toResource` yields: `@description` exactly when the form has one, then `@link`, `method`,
   * `contentType`, the `inputs` object and the `responses` entry, in that order and nothing else.
   */
  ghost predicate FormResource(j: Json, description: Option<string>, link: string, httpMethod: string,
                               contentType: string, rendered: map<string, Json>,
                               responses: map<int32, Option<string>>)
  {
    && j.Obj? && UniqueKeys(j.fields)
    && Keys(j.fields) == (if description.Some? then [Metadata.DESCRIPTION] else []) +
                         [Metadata.LINK, "method", "contentType", "inputs", "responses"]
    && Get(j, Metadata.DESCRIPTION) == (if description.Some? then Some(Str(description.value)) else None)
    && Get(j, Metadata.LINK) == Some(Str(link))
    && Get(j, "method") == Some(Str(httpMethod))
    && Get(j, "contentType") == Some(Str(contentType))
    && Get(j, "inputs").Some? && InputsNode(Get(j, "inputs").value, description.Some?, rendered)
    && Get(j, "responses").Some? && ResponsesNode(Get(j, "responses").value, description.Some?, responses)
  }

  /** The entries at the top of the form, whatever the inputs and responses nodes. */
  lemma {:induction false} TopEntries(description: Option<string>, link: string, httpMethod: string,
                                      contentType: string, inputsNode: Json, responsesNode: Json)
    ensures var j := Obj(TopFields(description, link, httpMethod, contentType, inputsNode, responsesNode));
      && UniqueKeys(j.fields)
      && Keys(j.fields) == (if description.Some? then [Metadata.DESCRIPTION] else []) +
                           [Metadata.LINK, "method", "contentType", "inputs", "responses"]
      && Get(j, Metadata.DESCRIPTION) == (if description.Some? then Some(Str(description.value)) else None)
      && Get(j, Metadata.LINK) == Some(Str(link))
      && Get(j, "method") == Some(Str(httpMethod))
      && Get(j, "contentType") == Some(Str(contentType))
      && Get(j, "inputs") == Some(inputsNode) && Get(j, "responses") == Some(responsesNode)
  {
    TopFieldsKeys(description, link, httpMethod, contentType, inputsNode, responsesNode);
  }

  /** The pieces `toResource` assembles make up a form resource. */
  lemma {:induction false} FormResourceBuilt(description: Option<string>, link: string, httpMethod: string,
                                             contentType: string, inputFields: seq<Field>,
                                             rendered: map<string, Json>, list: Json, codes: seq<int32>,
                                             responses: map<int32, Option<string>>)
    requires UniqueKeys(inputFields)
    requires forall name :: Get(Obj(inputFields), name) == if name in rendered then Some(rendered[name]) else None
    requires list.Arr? && ResponsesInOrder(list.elems, codes, responses)
    ensures FormResource(Obj(TopFields(description, link, httpMethod, contentType,
                                       Obj(DescribedInputs(inputFields, description.Some?)),
                                       if description.Some? then DescribedResponsesNode(list) else list)),
                         description, link, httpMethod, contentType, rendered, responses)
  {
    var inputsNode := Obj(DescribedInputs(inputFields, description.Some?));
    var responsesNode := if description.Some? then DescribedResponsesNode(list) else list;
    TopEntries(description, link, httpMethod, contentType, inputsNode, responsesNode);
    InputsBuilt(inputFields, rendered, description.Some?);
    ResponsesBuilt(list, codes, responses, description.Some?);
  }

  /** The inputs object `toResource` builds. */
  lemma {:induction false} InputsBuilt(inputFields: seq<Field>, rendered: map<string, Json>, described: bool)
    requires UniqueKeys(inputFields)
    requires forall name :: Get(Obj(inputFields), name) == if name in rendered then Some(rendered[name]) else None
    ensures InputsNode(Obj(DescribedInputs(inputFields, described)), described, rendered)
  {
    assert Get(Obj(inputFields), Metadata.DESCRIPTION) ==
             if Metadata.DESCRIPTION in rendered then Some(rendered[Metadata.DESCRIPTION]) else None;
  }

  /** The responses entry `toResource` builds. */
  lemma {:induction false} ResponsesBuilt(list: Json, codes: seq<int32>, responses: map<int32, Option<string>>,
                                          described: bool)
    requires list.Arr? && ResponsesInOrder(list.elems, codes, responses)
    ensures ResponsesNode(if described then DescribedResponsesNode(list) else list, described, responses)
  {
    if described {
      DescribedResponsesShape(list, codes, responses);
    } else {
      assert ListsResponses(list.elems, responses);
    }
  }

  /** A form resource links to its URI, when that is a valid URI: its own content is not part of the link. */
  lemma {:induction false} FormResourceLinksToUri(j: Json, description: Option<string>, link: string,
                                                  httpMethod: string, contentType: string,
                                                  rendered: map<string, Json>, responses: map<int32, Option<string>>)
    requires FormResource(j, description, link, httpMethod, contentType, rendered, responses)
    requires ValidUri(link)
    ensures LinkResolution.ObjectLink(j) == Ok(Some(Links.ToUri(Uri(link))))
  {
    assert LinkResolution.TextLink(link) == Some(Links.ToUri(Uri(link)));
  }
}
