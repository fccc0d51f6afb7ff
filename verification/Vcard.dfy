// Decoded vCards. A card maps a property name to its fields in order, as go-vcard's
// Card does; property and parameter names are upper-cased by the decoder.
module Vcard {

  datatype Option<+T> = None | Some(value: T)

  datatype Field = Field(value: string, params: map<string, seq<string>>, group: string)

  type Card = map<string, seq<Field>>

  const NO_CARD: Card := map[]

  const VERSION := "VERSION"
  const UID := "UID"
  const REV := "REV"
  const FN := "FN"
  const N := "N"
  const EMAIL := "EMAIL"
  const AB_LABEL := "X-ABLABEL"
  const TYPE := "TYPE"

  // Indexing a Go map: an absent property reads as the empty list.
  function At(c: Card, name: string): seq<Field> {
    if name in c then c[name] else []
  }

  function Plain(value: string): Field {
    Field(value, map[], "")
  }

  // Card.Value: the first field's value, or "".
  function ValueOf(c: Card, name: string): string {
    if At(c, name) == [] then "" else At(c, name)[0].value
  }
}
