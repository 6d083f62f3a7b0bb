/** The parts of the Microsoft Teams Adaptive Card library's types that the
    handler sets. Library defaults (schema, version, text sizes chosen by
    constructors) are not represented. */
module AdaptiveCard {
  import opened Text

  /** One name/value line of a fact set. */
  datatype Fact = Fact(title: Bytes, value: Bytes)

  /** The entity type the library names `TypeMention`; the only entity
      kind the handler attaches. */
  datatype EntityType = TypeMention

  /** A user mention: its entity type, the inline markup and the identity it
      refers to. */
  datatype Mention = Mention(kind: EntityType, text: Bytes, id: Bytes, name: Bytes)

  /** The card elements the handler builds. */
  datatype Element =
    | TitleTextBlock(text: Bytes, size: Bytes)   // NewTitleTextBlock, then Size set
    | TextBlock(text: Bytes)                      // NewTextBlock, no wrapping
    | FactSet(facts: seq<Fact>, isSubtle: bool)

  /** Card actions: reveal a nested card, or open a link. */
  datatype Action =
    | ShowCard(title: Bytes, card: Card)
    | OpenUrl(title: Bytes, url: Bytes)

  /** A card: its body, its actions, and the Teams-specific display width and
      mention entities. */
  datatype Card = Card(body: seq<Element>, actions: seq<Action>, width: Bytes, entities: seq<Mention>)

  /** What the library's `NewCard` gives: nothing in it yet. */
  const NewCard: Card := Card([], [], [], [])

  /** What the library's `NewFactSet` gives: an empty, non-subtle fact set. */
  const NewFactSet: Element := FactSet([], false)
}
