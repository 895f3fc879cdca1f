/** The relations between a resource and one of its properties, named in camel case. */
module Relations {
  import opened CamelCase

  datatype Relation =
    | Parent      // the parent resource in the hierarchy of resources
    | FormCreate  // the form for creating a new resource
    | FormUpdate  // the form for updating an existing resource
    | FormDelete  // the form for deleting a resource

  /** `name()`: the constant's declared name. */
  function Name(r: Relation): string
  {
    match r
    case Parent => "PARENT"
    case FormCreate => "FORM_CREATE"
    case FormUpdate => "FORM_UPDATE"
    case FormDelete => "FORM_DELETE"
  }

  /** `toString()`: the constant's name in camel case. */
  function ToString(r: Relation): string
  {
    ToCamelCaseSpec(Name(r))
  }

  /** An upper-case run of letters is a single word. */
  lemma {:induction false} UpperCaseWord(t: string)
    requires forall k :: 0 <= k < |t| ==> IsUpper(t[k])
    ensures Word(t)
  {
  }

  /** `FORM_<suffix>`, for an upper-case suffix, is the two words "FORM" and the suffix. */
  lemma {:induction false} FormWords(suffix: string)
    requires suffix != [] && forall k :: 0 <= k < |suffix| ==> IsUpper(suffix[k])
    ensures ToCamelCaseSpec("FORM" + "_" + suffix) == "Form" + Capitalize(suffix)
  {
    UpperCaseWord("FORM");
    UpperCaseWord(suffix);
    SeparatedWords("FORM", "_", suffix);
    assert Capitalize("FORM") == "Form";
  }

  lemma {:induction false} ParentName(name: string)
    requires name == "PARENT"
    ensures ToCamelCaseSpec(name) == "Parent"
  {
    ParentWord();
    SingleWord("PARENT");
  }

  lemma {:induction false} ParentWord()
    ensures Word("PARENT") && Capitalize("PARENT") == "Parent"
  {
    UpperCaseWord("PARENT");
    assert LowerAll("ARENT") == "arent";
  }

  lemma {:induction false} FormCreateName(name: string)
    requires name == "FORM_CREATE"
    ensures ToCamelCaseSpec(name) == "FormCreate"
  {
    FormCreateWords();
    FormWords("CREATE");
  }

  lemma {:induction false} FormCreateWords()
    ensures "FORM_CREATE" == "FORM" + "_" + "CREATE" && Capitalize("CREATE") == "Create"
  {
  }

  lemma {:induction false} FormUpdateName(name: string)
    requires name == "FORM_UPDATE"
    ensures ToCamelCaseSpec(name) == "FormUpdate"
  {
    FormUpdateWords();
    FormWords("UPDATE");
  }

  lemma {:induction false} FormUpdateWords()
    ensures "FORM_UPDATE" == "FORM" + "_" + "UPDATE" && Capitalize("UPDATE") == "Update"
  {
  }

  lemma {:induction false} FormDeleteName(name: string)
    requires name == "FORM_DELETE"
    ensures ToCamelCaseSpec(name) == "FormDelete"
  {
    FormDeleteWords();
    FormWords("DELETE");
  }

  lemma {:induction false} FormDeleteWords()
    ensures "FORM_DELETE" == "FORM" + "_" + "DELETE" && Capitalize("DELETE") == "Delete"
  {
  }

  /** The four relations print as their constant names in camel case, with an upper-case first letter. */
  lemma {:induction false} ToStringValues(r: Relation)
    ensures r == Parent ==> ToString(r) == "Parent"
    ensures r == FormCreate ==> ToString(r) == "FormCreate"
    ensures r == FormUpdate ==> ToString(r) == "FormUpdate"
    ensures r == FormDelete ==> ToString(r) == "FormDelete"
  {
    match r
    case Parent => ParentName(Name(r));
    case FormCreate => FormCreateName(Name(r));
    case FormUpdate => FormUpdateName(Name(r));
    case FormDelete => FormDeleteName(Name(r));
  }

  /** Distinct relations print differently, so the printed form identifies the relation. */
  lemma {:induction false} ToStringIdentifies(a: Relation, b: Relation)
    ensures ToString(a) == ToString(b) <==> a == b
  {
    ToStringValues(a);
    ToStringValues(b);
  }
}
