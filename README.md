# sensu-teams-handler in Dafny

This project models the part of the Sensu handler for Microsoft Teams that
turns one Sensu event into an Adaptive Card. That part is deterministic. The
model covers:

- the configuration check, which requires a webhook URL;
- the status label and icon of a check status;
- the history strip, one icon per past status;
- the byte budget on the check output and on the annotations;
- the mentions of the configured Teams users;
- the link back into the Sensu web UI;
- the card's title, facts, actions and mention entities.

Strings are byte sequences (`Text.Bytes`), because Go's `len` and slicing
count bytes. Icons are written as their UTF-8 bytes, the way Go's `%c` writes
them. The process-wide `plugin` configuration becomes an explicit `Config`
parameter. Formatting a Unix time as a local-time string becomes a parameter
`localTime: int64 -> Bytes`.

Modules:

- `Text`: `strings.TrimSpace`, `strings.Fields` and `strings.ReplaceAll` of a
  newline. It also has `Join` and `Split`, used as partners in the proofs.
- `Utf8`: rune encoding, with a reference decoder.
- `Status`: status labels and icons.
- `Truncation`: the two truncators.
- `Mentions`: mention entities and the "Mentioned" text.
- `AdaptiveCard`: the library's card types, with only the fields the handler
  sets.
- `Handler`: everything else in `cmd/sensu-teams-handler/main.go`.

The Go functions that build a result in a loop, or that update a fact set or a
card step by step, are methods. Each method is proved against a specification
function or predicate, and the properties are proved about that
specification.

Facts about the code that the model keeps:

- Mentions in the "Mentioned" fact are separated by two spaces (main.go:201).
- The 500 limit counts bytes, not characters (main.go:243, 254).
- For the check output, the limit applies after every newline has been
  doubled (main.go:242).
- The annotations text is not trimmed before the cut (main.go:249-258).
- A comment in `generateAdaptiveCard` says mentions are disabled, but the code
  attaches the mention entities whenever there is at least one user
  (main.go:87-91).
- The card sets no theme color. The "full" width hint is its only display
  setting (main.go:85).
- The banner is 69 bytes, below the limit, so the slice bound 500 − 69 = 431
  cannot go negative (main.go:23-26).

## Model

| member | source | states |
|---|---|---|
| `Handler.ValidateConfig` | cmd/sensu-teams-handler/main.go:73-78 | validation fails exactly when the webhook URL is empty, and then with the "webhook url is not defined" message |
| `Status.StatusString` | cmd/sensu-teams-handler/main.go:206-217 | "Resolved" iff 0, "Warning" iff 1, "Critical" iff 2, "Undefined" iff any other uint32 |
| `Status.StatusIcon` | cmd/sensu-teams-handler/main.go:219-230 | check mark iff 0, cross mark iff 2, warning sign for every other value; any value above 2 gets the Warning icon |
| `Status.StatusGlyph` | cmd/sensu-teams-handler/main.go:235 | the `%c` form of the icon is three bytes that decode back to the icon |
| `Utf8.EncodeRune` | cmd/sensu-teams-handler/main.go:235 | a rune is written as 1 to 4 bytes, its lead byte announcing the length; exactly three bytes for U+0800..U+FFFF and for invalid runes |
| `Utf8.DecodeEncodeRune` | cmd/sensu-teams-handler/main.go:235 | decoding what `%c` writes gives back every scalar value; an invalid rune comes back as U+FFFD |
| `Text.TrimSpace` | cmd/sensu-teams-handler/main.go:241 | the result is the slice of the input between an all-space prefix and an all-space suffix, starts and ends with a non-space, and is empty iff the input is all white space |
| `Text.TrimSpaceIdempotent` | cmd/sensu-teams-handler/main.go:241 | trimming twice is trimming once |
| `Text.TrimSpaceDropsSuffix` | cmd/sensu-teams-handler/main.go:203 | trimming trimmed text followed by white space removes exactly that white space |
| `Text.Fields` | cmd/sensu-teams-handler/main.go:182 | every field is non-empty and contains no white space |
| `Text.FieldsEmpty` | cmd/sensu-teams-handler/main.go:182 | there are no fields exactly when the input is all white space |
| `Text.FieldsSkipLeadingSpace` | cmd/sensu-teams-handler/main.go:182 | white space before the input does not change its fields |
| `Text.FieldsDropTrailingSpace` | cmd/sensu-teams-handler/main.go:182 | white space after the input does not change its fields |
| `Text.FieldsOfInterleave` | cmd/sensu-teams-handler/main.go:182 | for any layout of space-free tokens with white-space runs around them (possibly empty at the ends, non-empty between tokens), the fields are exactly those tokens, in order |
| `Text.FieldsOfJoin` | cmd/sensu-teams-handler/main.go:182 | splitting on white space undoes joining non-empty space-free tokens with any white-space separator |
| `Text.SplitOfJoin` | cmd/sensu-teams-handler/main.go:261 | splitting on a byte undoes joining parts that do not contain it |
| `Text.DoubleNewlines` | cmd/sensu-teams-handler/main.go:242 | the result grows by one byte per newline, and text without newlines is unchanged |
| `Text.HalveDoubleNewlines` | cmd/sensu-teams-handler/main.go:242 | doubling newlines loses nothing: halving them gives the text back |
| `Truncation.Truncate` | cmd/sensu-teams-handler/main.go:243-245 | text of at most 500 bytes is kept; longer text becomes exactly 506 bytes: the 69-byte banner, its first 431 bytes, then "\n[...]"; the result is within 500 bytes iff the input was |
| `Truncation.OutputTruncated` | cmd/sensu-teams-handler/main.go:240-247 | with n = trimmed length plus newline count: for n ≤ 500 the result has n bytes and halving its newlines gives back the trimmed output; for n > 500 it has 506 bytes and carries the first 431 bytes of the doubled text |
| `Truncation.OutputTruncatedPlain` | cmd/sensu-teams-handler/main.go:240-247 | trimmed output without newlines goes to the cut unchanged |
| `Truncation.CutSplitsCharacter` | cmd/sensu-teams-handler/main.go:244 | when a three-byte character starts at byte 430, the result keeps only its lead byte and puts a newline after it |
| `Truncation.RenderedLength` | cmd/sensu-teams-handler/main.go:251-253 | the annotations text has sum(len(key) + len(value) + 3) bytes |
| `Truncation.TotalSizeOrderIndependent` | cmd/sensu-teams-handler/main.go:251 | that sum is the same for every order of the annotations |
| `Truncation.AnnotationsLengthOrderIndependent` | cmd/sensu-teams-handler/main.go:249-258 | whatever order the map is visited in, the shown annotations text has the same length and is cut or kept alike |
| `Truncation.AnnotationsTruncated` | cmd/sensu-teams-handler/main.go:249-258 | the loop builds `key\nvalue\n\n` per annotation in visiting order, then applies the same cut (empty for no annotations) |
| `Mentions.MentionFor` | cmd/sensu-teams-handler/main.go:186-193 | the mention has the mention entity type; its id and name are the user; its text is "<at>", then the user, then "</at>" |
| `Mentions.MentionTexts` | cmd/sensu-teams-handler/main.go:188 | the i-th text is the i-th user's markup, and every text is non-empty and trimmed |
| `Mentions.MentionString` | cmd/sensu-teams-handler/main.go:198-204 | the "Mentioned" text has no surrounding white space and is empty exactly when there are no users |
| `Mentions.MentionStringFields` | cmd/sensu-teams-handler/main.go:198-204 | splitting the "Mentioned" text on white space gives one markup per user, in order |
| `Mentions.PaddedIsJoin` | cmd/sensu-teams-handler/main.go:200-202 | appending each mention followed by two spaces gives the two-space join plus one trailing separator |
| `Mentions.TrimPadded` | cmd/sensu-teams-handler/main.go:199-203 | trimming the padded mentions leaves exactly the two-space join |
| `Mentions.GenerateCardMentions` | cmd/sensu-teams-handler/main.go:181-196 | one mention per white-space separated user, in order |
| `Mentions.GenerateCardMentionString` | cmd/sensu-teams-handler/main.go:198-204 | the loop with its final trim yields the two-space join of the mention texts |
| `Handler.EventSensuUrl` | cmd/sensu-teams-handler/main.go:260-262 | the link starts with the base URL and is 16 bytes longer than base, namespace, entity and check together |
| `Handler.SensuUrlRoundTrip` | cmd/sensu-teams-handler/main.go:260-262 | if no name has a slash, the link is base + "/" + the segments c, ~, n, namespace, events, entity, check joined by "/", and splitting it after the base gives those segments back |
| `Handler.TitleText` | cmd/sensu-teams-handler/main.go:97 | the title is the icon, a space, the label, ": ", the entity, " - " and the check, each at its offset |
| `Handler.GenerateCardTitle` | cmd/sensu-teams-handler/main.go:96-101 | an extra-large title: the status icon, a space, the status label, ": ", the entity name, " - " and the check name |
| `Handler.HistoryStripLength` | cmd/sensu-teams-handler/main.go:232-238 | every history entry takes four bytes |
| `Handler.HistoryStripLayout` | cmd/sensu-teams-handler/main.go:232-238 | bytes 4i..4i+4 of the strip are the icon of the i-th status, then a space |
| `Handler.HistoryStripEmpty` | cmd/sensu-teams-handler/main.go:232-238 | the strip is empty iff the history is |
| `Handler.EventStatusHistory` | cmd/sensu-teams-handler/main.go:232-238 | the loop builds the history strip |
| `Handler.GenerateCardFacts` | cmd/sensu-teams-handler/main.go:103-146 | a subtle fact set with the titles History, Namespace, Entity, Check, Status, Last Ok, Event created in this order, then "Mentioned" exactly when the mention text is non-empty; each value is the event field named, the status value being its label |
| `Handler.MentionedFact` | cmd/sensu-teams-handler/main.go:134-141 | the card has eight facts iff at least one user is configured, and the eighth splits into the users' markup in order |
| `Handler.GenerateCardEventOutput` | cmd/sensu-teams-handler/main.go:169-173 | a nested card holding the truncated output, at most 506 bytes |
| `Handler.GenerateCardEventAnnotations` | cmd/sensu-teams-handler/main.go:175-179 | a nested card holding the truncated annotations, at most 506 bytes |
| `Handler.GenerateCardActions` | cmd/sensu-teams-handler/main.go:148-167 | exactly three actions: show check output, show event annotations, open the event's Sensu link |
| `Handler.GenerateAdaptiveCard` | cmd/sensu-teams-handler/main.go:80-94 | never fails; body is title then facts, then the three actions, "full" width, and one mention entity per configured user (none when there are no users) |
| `Handler.StatusFactMatchesTitle` | cmd/sensu-teams-handler/main.go:97-124 | the status fact shows the same label as the title |

## Left out

- `main` and the option wiring through the Sensu plugin SDK (main.go:28-71): flag and environment plumbing. The `sensu-url` default of `http://localhost:3000` is therefore not modelled. The configuration is a parameter.
- `executeFunction` (main.go:264-287): building the Teams message, the HTTP send with its 10-second timeout, and the pretty-printed error. These are network I/O and serialisation inside the go-teams-notify library, which is not part of this model.
- `time.Unix(...).Local().String()` (main.go:127, 131): it depends on the time zone and on Go's formatting. It is the parameter `localTime`.
- Go's map iteration order for annotations: annotations are any sequence of pairs. Only order-independent facts about the text are stated, such as its length and whether it is cut.
- Library internals: `NewCard`, `NewTitleTextBlock`, `NewTextBlock` and `NewFactSet` defaults such as type, schema, version, weight and wrapping. Only the fields main.go sets are modelled. The model assumes every `AddFact` and `AddElement` call appends its argument. main.go ignores the errors these calls return (main.go:82-83, 105-141, 171, 177). So if the library rejects an argument, for example a fact with an empty value such as the history strip of an event without history, the real card lacks that element while the model still has it.
- Handler.ValidateConfig: the Go function also takes the event, but never reads it, so the parameter is dropped.
- Text.IsSpace: only the six ASCII white-space bytes count as white space. Go's `TrimSpace` and `Fields` also treat multi-byte Unicode spaces (U+0085, U+00A0, U+2000..U+200A and others) as white space, and the model does not.
- Handler.CheckHistory: a history entry carries only its status. Its execution time is not shown on the card.
- Handler.GenerateCardFacts: it does not state the UTF-8 bytes of the arrow in the history title. The title is built from `Utf8.EncodeRune(0x2192)`.
