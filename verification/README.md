# Design-token parser: a Dafny model

This project models the custom parser that the design system registers with Style Dictionary
for its `.json` token files. The parser receives a file's text and parses it as JSON. The model
starts from the already parsed document, in the W3C Design Tokens Community Group format,
where a token has `$value`, `$type` and `$description`. The parser returns the tree shape that
Style Dictionary's formatters expect. It has two parts:

- **`transformTokens`**, the tree normalizer, walks the document's entries in order. It skips
  keys that start with `$` and drops children that are not objects. A child that has a
  `$value` becomes a `{value, type, description}` leaf. Any other child is a group, and the
  normalizer walks into it with the path extended by the child's key.
- **`transformReference`**, the reference qualifier, rewrites brace references such as
  `{primary.700}` inside a token's string value. A reference that already starts with one of
  the six root names followed by a dot is left alone: `colors.`, `typography.`, `spacing.`,
  `borderRadius.`, `shadows.` or `transitions.`. Any other reference `{r}` becomes
  `{colors.r}` when the token lives under `colors`, and stays as it is elsewhere. For example,
  `{primary.700}` becomes `{colors.primary.700}`.

Files:

- `json.dfy` (module `Json`): the parsed JSON value, property access and `Object.entries`.
- `references.dfy` (module `References`): the brace pattern `/\{([^}]+)\}/g` as an explicit
  left-to-right scan into text characters and matches (`Scan`), the way back (`Render`), the
  replace callback (`QualifiedName`), and `TransformReference`.
- `tokens.dfy` (module `Tokens`): `TransformTokens`, a recursive method with the source's loop
  and `continue`. It is proved equal to the specification function `Normalize`, which is
  defined through `NormalizePrefix`, the result after the first `n` entries. `Parse` is the
  parser's entry point.
- `scenarios.dfy` (module `Scenarios`): small documents worked through end to end.

The main results:

- Scanning is lossless: `Render(Scan(s)) == s`.
- Scanning is also the exact inverse of rendering on the piece sequences that `Scan` produces:
  `Canonical(ps) ==> Scan(Render(ps)) == ps`.
- From these two round trips: qualification is idempotent; outside `colors` it changes nothing;
  inside `colors` it keeps every match in place and makes every reference qualified.
- The normalizer's output keys are exactly the kept input keys, in order. Each kept child
  becomes a leaf or a group exactly as the source decides. No group key starting with `$`
  survives at any depth. A leaf's value, type and description are copied as they are, so they may
  still hold `$` keys.
- Array groups are keyed by the decimal text of each index. Different indices give different
  keys, so an array group's output keys are distinct.

## Model

| member | source | states |
|---|---|---|
| `Json.Member` | style-dictionary.config.js:47-51 | `v.$value`, `v.$type`, `v.$description`: defined exactly when `v` is an object holding a member of that name, and then the value is one of its members |
| `Json.IndexKey` | style-dictionary.config.js:41 | an array index key is the decimal text of the index: non-empty digits whose decimal value is the index, with a leading `0` only for index 0, whose key is exactly `0` (no leading zeros), so never a leading `$` |
| `Json.IndexKeyInjective` | style-dictionary.config.js:41 | different indices get different keys |
| `Json.ArrayEntries` | style-dictionary.config.js:41 | `Object.entries` on an array lists every element, in index order, under pairwise distinct keys |
| `References.CloseIndex` | style-dictionary.config.js:16 | the position of the first `}` (or the end): no `}` before it, a `}` at it |
| `References.Scan` | style-dictionary.config.js:16 | every match's capture is non-empty and holds no `}` (the group `[^}]+`) |
| `References.ScanRender` | style-dictionary.config.js:16 | rendering the scanned pieces gives back the scanned string: text outside matches is kept verbatim |
| `References.ScanCanonical` | style-dictionary.config.js:16 | a scan never keeps as text a `{` at which the pattern could have matched |
| `References.RenderScan` | style-dictionary.config.js:16 | scanning the rendering of a canonical piece sequence returns that sequence |
| `References.QualifiedName` | style-dictionary.config.js:17-34 | the callback keeps a root-prefixed reference; inside `colors` its answer always has a root prefix; outside `colors` it keeps every reference; it only ever adds `colors.` |
| `References.QualifyPieces` | style-dictionary.config.js:16-35 | `replace` keeps every text piece and replaces every match by the callback's answer, piece for piece |
| `References.TransformReference` | style-dictionary.config.js:12-35 | a non-string value comes back unchanged; a string stays a string; outside `colors` nothing changes |
| `References.QualifyOutsideColors` | style-dictionary.config.js:16-34 | with an empty path or a first segment other than `colors`, the string is returned unchanged |
| `References.QualifyInColors` | style-dictionary.config.js:16-31 | inside `colors`, the result has the same matches at the same places; text pieces are copied; an unqualified `{r}` becomes `{colors.r}`; every reference in the result is qualified |
| `References.QualifiedUnchanged` | style-dictionary.config.js:17-24 | a string whose references all carry a root prefix is left unchanged |
| `References.QualifyIdempotent` | style-dictionary.config.js:17-31 | qualifying twice with the same path equals qualifying once |
| `References.TransformReferenceIdempotent` | style-dictionary.config.js:12-36 | `transformReference` applied twice with the same path equals applying it once |
| `References.NoCloseNoRefs` | style-dictionary.config.js:16 | a string without `}` holds no match, so qualification leaves its pieces alone |
| `Tokens.KeptEntries` | style-dictionary.config.js:41-45 | the kept entries are exactly the entries with a non-`$` key and an object value |
| `Tokens.KeptEntriesAppend` | style-dictionary.config.js:41-45 | filtering commutes with concatenation, so kept entries keep their relative order |
| `Tokens.KeptEntriesDistinct` | style-dictionary.config.js:41-45 | skipping entries never makes two kept keys equal |
| `Tokens.TransformTokens` | style-dictionary.config.js:38-61 | the loop over `Object.entries`, with `continue` and recursion into groups, computes `Normalize(obj, path)` |
| `Tokens.Parse` | style-dictionary.config.js:7-63 | a `null` document is a TypeError; an object or array document yields `Normalize(doc, [])`, which starts from the empty path; a scalar document yields `{}` |
| `Tokens.NormalizePrefixShape` | style-dictionary.config.js:41-58 | after `n` entries the result holds one entry per kept entry among the first `n`, in order |
| `Tokens.NormalizePrefixStep` | style-dictionary.config.js:41-55 | one more loop iteration appends the entry's output exactly when the filter keeps the entry, and otherwise leaves the result as it was |
| `Tokens.NormalizeShape` | style-dictionary.config.js:41-55 | output keys equal the kept input keys in order; a child with `$value` becomes exactly `{value: transformReference($value, path ++ [key]), type: $type, description: $description}`; any other kept child becomes `Group(Normalize(child, path ++ [key]))` |
| `Tokens.EmptyGroup` | style-dictionary.config.js:53-55 | a group with no kept entries comes out as an empty group |
| `Tokens.NothingKept` | style-dictionary.config.js:43-45 | if no entry is kept, the filter is empty |
| `Tokens.NormalizeNoMetadata` | style-dictionary.config.js:42-43 | no group key starting with `$` appears in the output at any depth; a leaf's value, type and description are copied as they are and may hold `$` keys |
| `Tokens.NormalizeKeysDistinct` | style-dictionary.config.js:41-55 | when the input's keys are distinct, the output's keys are too, so an array group comes out with distinct index keys |
| `Tokens.NormalizeDependsOnRoot` | style-dictionary.config.js:30-55 | below the root, the output depends on the path only through whether its first segment is `colors` |
| `Scenarios.ShorthandInColors` | style-dictionary.config.js:11-31 | `{primary.700}` at `colors.semantic.brand` becomes `{colors.primary.700}` |
| `Scenarios.QualifiedInColors` | style-dictionary.config.js:18-24 | `{colors.primary.700}` inside `colors` stays as it is |
| `Scenarios.EmptyAndUnclosedBraces` | style-dictionary.config.js:16 | `{}` is no match (the capture needs one character), and an unclosed `{` is text |
| `Scenarios.DoubledOpeningBrace` | style-dictionary.config.js:16-31 | in `{{a}` the capture is `{a`, so inside `colors` it becomes `{colors.{a}` |
| `Scenarios.NestedColorsToken` | style-dictionary.config.js:30-52 | a token at `colors.semantic.brand` with value `{primary.700}` becomes a leaf with value `{colors.primary.700}`, type `color`, no description |
| `Scenarios.TypographyToken` | style-dictionary.config.js:30-52 | the shorthand `{fontSizes.lg}` under `typography` is left unchanged |
| `Scenarios.MetadataSibling` | style-dictionary.config.js:42-55 | a `$description` beside a group's children does not become a child; the nested token becomes its leaf |
| `Scenarios.NoBracesUnchanged` | style-dictionary.config.js:16 | a string without `}` is returned unchanged, inside `colors` or not |
| `Scenarios.GroupThenToken` | style-dictionary.config.js:38-55 | a document `{a: {b: token}}` gives one group holding one leaf, with the path `[a, b]` |
| `Scenarios.TwoGroupsThenToken` | style-dictionary.config.js:38-55 | a document `{a: {b: {c: token}}}` gives two nested groups and one leaf, with the path `[a, b, c]` |
| `Scenarios.MetadataFirst` | style-dictionary.config.js:42-55 | a metadata key followed by one kept key gives exactly that kept key |

## Left out

- Parsing JSON text (`JSON.parse`, line 8) belongs to the JavaScript runtime. The model takes
  the parsed value as input, so syntax errors are not modelled.
- Registering the parser with Style Dictionary and its file pattern (lines 1, 5-6) calls into
  an external library that is not part of this model.
- The exported platform and file configuration (lines 67-104) is data for Style Dictionary's
  CSS, JS and JSON formatters. Those formatters are not part of this model.
- `Object.entries` lists integer-like keys first. The model takes an object's member sequence
  as the order `Object.entries` yields. Only the relation between input order and output order
  is proved.
- Duplicate keys: `JSON.parse` keeps the last value of a repeated key, so on
  `{"$value": 1, "$value": 2}` the source reads 2. The model does not collapse duplicates,
  and `Member` reads the first member with a given name, which gives 1 there. On documents
  without repeated keys the two agree.
- Assigning `result['__proto__']` in JavaScript sets the result's prototype instead of adding a
  key. The model adds a `__proto__` entry like any other key.
- Numbers are modelled as integers. The walk only passes numbers through, so floating point
  plays no part.
- JavaScript strings are sequences of UTF-16 code units. The model uses Dafny characters, and
  the scan only ever compares them with `{` and `}`.
- The qualifier runs on every token in this configuration. A configuration without the
  qualifier is not part of this source file, so no on/off switch is modelled.
