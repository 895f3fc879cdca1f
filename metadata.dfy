/**
 * The reserved property names of the document format. Every metadata name starts with `@`.
 */
module Metadata {

  const LINK: string := "@link"
  const STATE: string := "@state"
  const RELATIONS: string := "@relations"
  const DESCRIPTION: string := "@description"

  /** `name.startsWith("@")`: the name has the shape of a metadata name. */
  predicate IsReserved(name: string)
  {
    |name| > 0 && name[0] == '@'
  }
}
