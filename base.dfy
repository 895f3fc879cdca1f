/**
 * Optional values and the outcomes of operations that can fail.
 * Every exception the modelled code throws becomes a `Failure` value.
 */
module Base {

  datatype Option<+T> = None | Some(value: T)

  /** Why an operation failed; each variant names the exception it stands for. */
  datatype Failure =
    | TypeMismatch            // a property value has the wrong JSON type
    | InvalidUri              // text that does not parse as a URI
    | InvalidInteger          // a key that does not parse as an integer
    | LinkNotText             // an `@link` whose value is not a string
    | RelationWithoutLink     // `@relations` names the relation but the object has no `@link`
    | MissingState            // a resource has no `@state`
    | StateNotArray           // `@state` is not an array
    | StateElementNotString   // `@state` holds an element that is not a string
    | StateElementNotResource // `@state` holds an element that is not a link
    | NoSuchProperty          // NoSuchPropertyException
    | NoSuchRelation          // NoSuchRelationException
    | InvalidArgument         // a setter or constructor rejected its argument

  datatype Result<+T> = Ok(value: T) | Err(error: Failure)
}
