# rx — a verified model of the regular-expression template tag

`rx` is a tagged-template helper for JavaScript that builds a `RegExp` from a
template literal. Plain strings interpolated into the template are escaped, so
that in a pattern without the `u` or `v` flag they match literally. Interpolated regular expressions and `rx.raw` literals go
into the pattern unchanged. Arrays become a `|`-separated alternation of their
elements. `rx` is used either directly as a tag, which gives empty flags, or
as `rx(flags)`, which returns a tag bound to those flags.

This project models the whole of `rx.ts` as pure Dafny functions and proves
what the library promises about them:

- `sanitize.dfy` (module `Sanitize`): the escaper `sanitizeRegex` and its
  inverse `Unescape`. The inverse is used to state that escaped text reads
  back as the original string, character for character.
- `template.dfy` (module `Template`): the `reduce` fold both tags run over a
  template. It is proved equal to the ordered interleaving
  `s0 + r(v0) + s1 + … + sn`.
- `literal.dfy` (module `Literal`): `RxLiteral` and both forms of
  `createRxLiteral` (`rx.raw`).
- `placeholder.dfy` (module `Placeholder`): `handlePlaceholder`, with a
  datatype `Value` that has one variant per classification rule. It also contains the
  flattening of nested arrays.
- `rx.dfy` (module `Rx`): `replacer`, the two call shapes of `rx`, and the
  dispatch between them.
- `rx_tests.dfy` (module `RxTests`): the concrete cases from the repository's
  `test.js`, proved against the model.

A `RegExp` is modelled as the record `Pattern(source, flags)`. A regular
expression used as a placeholder is modelled as `Re(source)`, where the source
is given. A template is a list of segments together with a list of values.
There is always one more segment than there are values (`WellFormed`).

## Model

| member | source | states |
|---|---|---|
| `Sanitize.EscapeChar` | rx.ts:8 | one character becomes itself, after one backslash exactly when it is a metacharacter, and the result reads back as that character alone |
| `Sanitize.Escape` | rx.ts:7-9 | the output is as long as the input plus one character per metacharacter; empty input gives empty output and nothing else does |
| `Sanitize.EscapeConcat` | rx.ts:8 | the global replace works one character at a time, so escaping distributes over concatenation |
| `Sanitize.EscapeAt` | rx.ts:8 | the character at index i appears at index i plus the number of earlier metacharacters; a backslash comes right before it exactly when it is one of the sixteen metacharacters |
| `Sanitize.EscapeIdentity` | rx.ts:8 | escaping leaves a string unchanged if and only if the string holds no metacharacter |
| `Sanitize.UnescapeEscape` | rx.ts:8 | escaped text reads back as the original string, the way a pattern without the `u` or `v` flag reads identity escapes, so there every metacharacter matches literally and the order is kept |
| `Sanitize.EscapeUnescape` | rx.ts:8 | anything that reads back as s is exactly the escape of s, so the escaper produces precisely the well-escaped strings |
| `Sanitize.EscapeInjective` | rx.ts:8 | two different plain strings never escape to the same pattern text |
| `Sanitize.EscapeNotIdempotent` | rx.ts:8 | escaping twice doubles a backslash again, so the escaper must run once per plain value |
| `Template.Reduce` | rx.ts:62-64 | each step of the fold keeps the accumulated text in front, and the last remaining segment ends the result |
| `Template.Interpolate` | rx.ts:62-64 | the fold seeded with the first segment, which the template form of `rx.raw` runs too, gives text that starts with the first segment and ends with the last |
| `Template.InterpolateIsInterleaving` | rx.ts:62-64 | the left fold of `reduce`, seeded with the first segment, gives the first segment followed by each rendered value and the segment after it, in order |
| `Template.NoValues` | rx.ts:62-64 | a template without values gives its single segment unchanged |
| `Template.ValueInPlace` | rx.ts:62-64 | value i is rendered between segment i and segment i+1, with the template before and after it untouched |
| `Template.InterpolateCongruent` | rx.ts:62-64 | the fold depends only on what each value renders to |
| `Literal.RxLiteral.ToString` | rx.ts:24-26 | `toString` returns the wrapped text, from which the literal is recovered exactly |
| `Literal.Stringify` | rx.ts:103 | `concat` adds a value's string form and nothing else: a string itself, a literal its wrapped text |
| `Literal.LiteralFromString` | rx.ts:107-108 | `createRxLiteral(string)` wraps the string verbatim: its `toString` is that string |
| `Literal.LiteralFromTemplate` | rx.ts:96-106 | the template form concatenates the segments and the values in order and escapes nothing |
| `Literal.CreateRxLiteral` | rx.ts:95-110 | an array as first argument selects the template form, a string the string form |
| `Literal.EmbeddedLiteralText` | rx.ts:24-26 | an `RxLiteral` inside an `rx.raw` template contributes its own text through `toString` |
| `Placeholder.Resolve` | rx.ts:44-54 | a regular expression gives its source and a literal its text, both unchanged; a plain string gives text that reads back as the string; an empty array gives nothing (non-empty arrays: `ResolveEach`, `ArrayAlternation`, `Flatten`; verbatim in context: `Rx.RegExpVerbatim`, `Rx.LiteralVerbatim`) |
| `Placeholder.Join` | rx.ts:50 | joining no parts gives the empty string and joining one part gives that part |
| `Placeholder.JoinEnds` | rx.ts:50 | a join of a non-empty list starts with its first part and ends with its last |
| `Placeholder.JoinLength` | rx.ts:50 | a join of a non-empty list is as long as its parts together plus one separator fewer than there are parts |
| `Placeholder.ResolveEach` | rx.ts:50 | `map(handlePlaceholder)` gives one contribution per element, each element's own, in order |
| `Placeholder.ArrayAlternation` | rx.ts:49-50 | an array of two or more elements contributes its first element's contribution, a `\|`, then the contribution of the remaining elements |
| `Placeholder.Flatten` | rx.ts:49-50 | when no nested array is empty, an array's contribution is the `\|`-join of its non-array leaves, each resolved once, in order |
| `Placeholder.EmptyArrayKeepsSeparator` | rx.ts:49-50 | flattening needs non-empty arrays: `['r', []]` gives `r\|`, while its leaves alone give `r` |
| `Rx.Replacer` | rx.ts:56-67 | the pattern carries the given flags, and its source is the ordered interleaving of the segments with the placeholder contributions |
| `Rx.BoundTag.Apply` | rx.ts:75 | the tag returned by `rx(flags)` builds the same interleaving and carries the bound flags |
| `Rx.Factory` | rx.ts:75 | the tag that `rx(flags)` returns, applied to any template, gives the same source as `rx` used directly, with exactly the bound flags |
| `Rx.Tag` | rx.ts:70-72 | `rx` used directly as a tag gives empty flags and the interleaved source |
| `Rx.Call` | rx.ts:69-75 | an array as first argument compiles a pattern with empty flags; anything else returns a tag bound to that argument as flags |
| `Rx.FlagsOnlyChangeFlags` | rx.ts:69-75 | `rx(flags)` applied to a template equals `rx` on the same template, except that the flags are exactly the given string |
| `Rx.PlainTemplate` | rx.ts:62-64 | a template without placeholders gives its text as the source, with the bound flags |
| `Rx.PlainValuesEscaped` | rx.ts:51-53 | when all values are plain strings, the source is the template with each value replaced by its escape |
| `Rx.LiteralsAsInRaw` | rx.ts:47-48 | when all values are literals, `rx` and `rx.raw` build the same text, so literals are never escaped |
| `Rx.OnePlaceholder` | rx.ts:62-64 | a single placeholder contributes its text between the two segments around it |
| `Rx.LiteralVerbatim` | rx.ts:47-48 | a literal built from a string contributes that string unescaped, whatever it contains |
| `Rx.RegExpVerbatim` | rx.ts:45-46 | a regular expression contributes its source unescaped, whatever it contains |
| `RxTests.BasicPattern` | test.js:3-7 | `abc` with no placeholders gives source `abc` with empty flags |
| `RxTests.EscapeAllMetacharacters` | rx.ts:8 | the sixteen metacharacters `-/\^$*+?.()\|[]{}`, as one concrete string, each get one backslash |
| `RxTests.EscapesControlCharacters` | test.js:9-11 | the placeholder `-/\^$*+?.()\|[]{}` gives source `\-\/\\\^\$\*\+\?\.\(\)\\|\[\]\{\}` |
| `RxTests.FlagsFactory` | test.js:13-15 | `rx('i')` applied to `foo` gives source `foo` with flags `i` |
| `RxTests.EmbeddedRegExp` | test.js:21-23 | `r${/./}x` gives `r.x` |
| `RxTests.EmbeddedLiterals` | test.js:25-28 | ``r${rx.raw('.')}x`` and ``r${rx.raw`.`}x`` both give `r.x` |
| `RxTests.ArrayOfStrings` | test.js:34-36 | `['r', '.', 'x']` gives `r\|\.\|x` |
| `RxTests.ArrayOfMixedValues` | test.js:38-40 | ``['r', /./, rx.raw`.`, 'x']`` gives `r\|.\|.\|x` |
| `RxTests.NestedArray` | test.js:42-44 | `['r', ['x']]` gives `r\|x` |
| `RxTests.NestedArrayNotDoubleEscaped` | test.js:46-48 | `['r', ['x', /./]]` gives `r\|x\|.`, and the nested regular expression is not escaped |

## Left out

- The host `RegExp` engine: construction, pattern and flag validation, matching, and the way it normalises `.source` (for example, `/` becomes `\/`). A regular expression placeholder is a record whose source is given, and the result is the pair (source, flags).
- The `rx.iu` shorthand that `test.js:17-19` expects. `rx.ts` has no proxy or property hook; it only attaches `rx.raw` (rx.ts:111). The code does not implement the shorthand, so the model follows the code and leaves it out.
- Raw versus cooked template strings. `test.js:30-32` expects ``rx.raw`\.` `` to keep its backslash, but `rx.ts:97-104` reads the cooked `strings`, not `strings.raw`. Segments are modelled as plain given strings, whichever form the host supplies.
- Non-string scalar placeholders (numbers, `undefined`, other objects). `sanitizeRegex` calls `.replace` on the value directly (rx.ts:8, 52), so such a value fails at run time instead of being converted to a string. The `Str` variant holds strings only.
- The `String()` conversion of arbitrary values in the template form of `createRxLiteral` (rx.ts:103). For example, a `RegExp` would be converted with its slashes. Only plain strings and `RxLiteral` values are modelled there.
- Overload resolution and `Function.prototype.bind` (rx.ts:34-43, 75). The two call shapes are two named functions (`Rx.Tag`, `Rx.Factory` with `Rx.BoundTag.Apply`) and the datatype `Rx.RxCall`. A call such as `rx()`, whose first argument is neither an array nor a flags string, is not modelled. Neither is `rx.raw()` or `rx.raw(5)`: they wrap a non-string (rx.ts:108), which `String(placeholder)` (rx.ts:48) later turns into `undefined` or `5`. `Literal.RawCall` holds a string or a template only.
- Rx.Replacer: templates whose value count is not one less than the segment count are excluded by `WellFormed`. A tagged template literal always satisfies this; a hand-made call that breaks it (rx.ts:63 reads `values[index]`) is not modelled.
- Patterns with the `u` or `v` flag. There an identity escape of `-` (the `\-` that `sanitizeRegex` writes outside a character class) is a syntax error, so `rx('u')` applied to a template holding `${'a-b'}` throws when the `RegExp` is built (rx.ts:61). The model builds the source text only, and `Unescape` reads it as a pattern without those flags does.
- Literal.LiteralFromTemplate: like `Rx.Replacer`, it requires `WellFormed`. A hand-made call such as `rx.raw(['a', 'b'])` reads a missing value, and `concat` turns it into the text `undefined`, giving `aundefinedb` (rx.ts:103). That call is not modelled.
- Literal.CreateRxLiteral: its template form carries the same `WellFormed` requirement, for the same reason.
- UTF-16 code units. A Dafny `string` is a sequence of Unicode scalar values, while a JavaScript string is a sequence of UTF-16 code units, so lone surrogates cannot be represented. The lengths and indices in `Sanitize.Escape` and `Sanitize.EscapeAt` count scalar values, not code units. Escaping itself is unaffected, because all sixteen metacharacters are ASCII.
- The build configuration (vite.config.ts) and running `test.js`; its cases are restated as lemmas in `rx_tests.dfy`.
