# facet-pretty printer and shapely-core poke, in Dafny

This project models two parts of the facet/shapely reflection crates and proves properties of them.

**The pretty printer** (`PrettyPrinter` in facet-pretty). It walks a reflective view of a value (a
`Peek`) and writes indented, optionally coloured text to a sink. Three things travel along the walk:

- a formatting depth, checked against an optional maximum depth;
- a type depth;
- a map from data address to the type depth at which that address was first seen.

An address met again more than one type level below its first visit is written as a cycle marker and
not descended into. Fields flagged sensitive are written as `[REDACTED]` and never walked.

How it is modelled:

- The sink is a sequence of pieces: literal text, plus the style commands the printer writes when
  colours are on (bold, dim, a 24-bit colour, the generated scalar colour, reset).
- The traversal is written twice:
  - as functions on values (`Render` and its helpers);
  - as the imperative methods the source has (`FormatPeekInternal`, `FormatStruct`, `FormatList`, …).
    These methods write to a `Sink` object and insert into a `VisitedMap` object. Each is proved to
    produce exactly what the functions specify.
- The properties are proved about the functions (`FacetPrettyProofs`).

**The poke handle** (`Poke` and `ISet` in shapely-core):

- `ISet` is the 64-bit mask that records which fields of a struct under construction are initialised.
  It is modelled as a class over a 64-bit word.
- `from_opaque_uninit` picks the `Poke` variant for a shape's `Def`. For maps and lists it first
  default-constructs the storage, and a failure there panics.
- The `into_*` conversions narrow a `Poke` to one variant or panic.
- Panics are the `Err` side of a `Result`; indices out of range are preconditions.

Files:

- `wrappers.dfy`: `Option` and `Result`.
- `facet_peek.dfy`: the `Peek` tree.
- `numerals.dfy`: the hexadecimal and decimal numerals of the cycle comment.
- `facet_pretty.dfy`: pieces, configuration, the traversal functions and methods.
- `facet_pretty_proofs.dfy`: the properties of the traversal.
- `facet_pretty_intended.dfy`: the traversal with the corrected type-depth rule, and how it relates to the code as written.
- `shapely_poke.dfy`: `ISet`, and the `Poke` dispatch and narrowing.

**The type depth, as written.** The comments in `format_peek_internal` say the type depth grows
only when the walk moves to a different address. The code does not do that in either place where
the type depth changes:

- When the walk enters a struct, list or map, the two pointers compared are the data pointer of the
  same value, read twice. They are always equal, so the type depth never changes at that step
  (facet-pretty/src/printer.rs:135-163).
- At every field and every item the type depth grows by one, even when the field or item sits at
  its parent's address (facet-pretty/src/printer.rs:254 and 298).

`FacetPretty` follows the code (`NextTypeDepth(p.addr, p.addr, td)` at the variant, `td + 1` at each
field and item). As a result, three nested values that share one address are reported as a cycle on
the third, although there is none. An example is a struct whose only field sits at offset 0 (a
single-field struct, or `#[repr(C)]`) and is itself such a struct around a scalar.
`SameAddressChainReadsAsCycle` proves this for every such chain.

`FacetPrettyIntended` (`facet_pretty_intended.dfy`) is the walk with the rule the comments describe:
a field or item keeps its parent's type depth when it sits at its parent's address, and is one level
deeper otherwise. With that rule the same chain prints its scalar, and a real back-edge is still cut
off. Where every field and item sits at another address than its parent, the two walks agree
exactly. The "## Findings" table records the discrepancy.

## Model

| member | source | states |
|---|---|---|
| `FacetPretty.PrettyPrinter.Default` | facet-pretty/src/printer.rs:23-32 | the default printer indents by 2, has no depth limit, uses colours and the default colour generator |
| `FacetPretty.PrettyPrinter.New` | facet-pretty/src/printer.rs:35-38 | `new()` has the default settings |
| `FacetPretty.PrettyPrinter.WithIndentSize` | facet-pretty/src/printer.rs:41-44 | sets the indentation step; every other setting is unchanged |
| `FacetPretty.PrettyPrinter.WithMaxDepth` | facet-pretty/src/printer.rs:47-50 | sets the depth limit to `Some(depth)`; every other setting is unchanged |
| `FacetPretty.PrettyPrinter.WithColorGenerator` | facet-pretty/src/printer.rs:53-56 | sets the colour generator; every other setting is unchanged |
| `FacetPretty.PrettyPrinter.WithColors` | facet-pretty/src/printer.rs:59-62 | switches colours on or off; every other setting is unchanged |
| `FacetPretty.PrettyPrinter.FormatPeek` | facet-pretty/src/printer.rs:82-87 | the string produced is the rendering of the peek from depth 0 with an empty visited map |
| `FacetPretty.PrettyPrinter.FormatTo` | facet-pretty/src/printer.rs:76-79 | appends that same rendering to the caller's sink |
| `FacetPretty.PrettyPrinter.FormatPeekInternal` | facet-pretty/src/printer.rs:90-168 | the pieces appended and the visited map left behind are those of `Render`: depth limit, then cycle check, then a record of the first visit, then dispatch on the variant |
| `FacetPretty.PrettyPrinter.WriteTruncated` | facet-pretty/src/printer.rs:99-105 | past the depth limit it writes dimmed `[` then `...` |
| `FacetPretty.PrettyPrinter.WriteCycleMarker` | facet-pretty/src/printer.rs:114-126 | writes the type name, ` { `, the cycle comment with the address and the first-seen depth, ` }` |
| `FacetPretty.PrettyPrinter.FormatValue` | facet-pretty/src/printer.rs:171-208 | writes the scalar's text, between the generated colour and a reset when colours are on |
| `FacetPretty.PrettyPrinter.FormatStruct` | facet-pretty/src/printer.rs:211-271 | appends the struct rendering; the field loop keeps the invariant that the written pieces plus the rendering of the remaining fields are the whole struct |
| `FacetPretty.PrettyPrinter.FormatField` | facet-pretty/src/printer.rs:231-262 | one field line: indent, name, `: `, value or `[REDACTED]`, `,`, newline; a redacted field leaves the visited map unchanged |
| `FacetPretty.PrettyPrinter.FormatList` | facet-pretty/src/printer.rs:274-310 | appends the list rendering, with the same loop invariant over the remaining items |
| `FacetPretty.PrettyPrinter.FormatItem` | facet-pretty/src/printer.rs:288-303 | one item line: indent, item, `,` unless last, newline |
| `FacetPretty.PrettyPrinter.FormatMap` | facet-pretty/src/printer.rs:313-346 | the fixed placeholder: type name, ` {`, an indented `/* Map contents */` line, and `}` at the map's level; the visited map is untouched |
| `FacetPretty.PrettyPrinter.Render` | facet-pretty/src/printer.rs:90-168 | the specification of `format_peek_internal`: the depth limit first, then the cycle check against the recorded first-seen type depth, then a record of a new address at the current type depth, then the variant |
| `FacetPretty.PrettyPrinter.Dispatch` | facet-pretty/src/printer.rs:131-165 | the `match` on the variant: a scalar is written as its value, a struct or list is entered one formatting level deeper with the type depth the same-pointer comparison leaves unchanged, a map writes its placeholder |
| `FacetPretty.PrettyPrinter.RenderStruct` | facet-pretty/src/printer.rs:211-271 | a struct is its bold type name and ` {`, then ` }` at once when it has no field, otherwise a newline, its field lines, and `}` indented `(format_depth - 1) * indent_size` |
| `FacetPretty.PrettyPrinter.RenderFields` | facet-pretty/src/printer.rs:229-263 | the field lines in declaration order, the visited map handed from one field to the next |
| `FacetPretty.PrettyPrinter.RenderField` | facet-pretty/src/printer.rs:231-262 | one field line at `(format_depth + 1) * indent_size`: name, `: `, the value one formatting and one type level deeper, or `[REDACTED]` without walking the value, then `,` and a newline |
| `FacetPretty.PrettyPrinter.RenderList` | facet-pretty/src/printer.rs:274-310 | a list is its type name, ` [`, a newline, its item lines, and `]` indented `format_depth * indent_size`, also when empty |
| `FacetPretty.PrettyPrinter.RenderItems` | facet-pretty/src/printer.rs:287-304 | the item lines in order, the visited map handed from one item to the next, a comma after every item but the last |
| `FacetPretty.PrettyPrinter.RenderItem` | facet-pretty/src/printer.rs:288-303 | one item line: indent, the item one formatting and one type level deeper, `,` when requested, newline |
| `FacetPretty.PrettyPrinter.MapPieces` | facet-pretty/src/printer.rs:313-346 | the map placeholder: type name, ` {`, newline, the indented `/* Map contents */` comment, newline, `}` at the map's level |
| `FacetPretty.PrettyPrinter.ValuePieces` | facet-pretty/src/printer.rs:171-208 | a scalar's text between the generated colour and a reset when colours are on, alone otherwise |
| `FacetPretty.PrettyPrinter.ScalarText` | facet-pretty/src/printer.rs:184-198 | the `Display` text if the value has one, else the `Debug` text, else the type name followed by `(⋯)` |
| `FacetPretty.PrettyPrinter.Truncated` | facet-pretty/src/printer.rs:99-105 | the cut-off at the depth limit: dimmed `[` followed by `...` |
| `FacetPretty.PrettyPrinter.CycleMarker` | facet-pretty/src/printer.rs:114-124 | the cut-off at a cycle: bold type name, ` { `, the dimmed cycle comment, ` }` |
| `FacetPretty.CycleComment` | facet-pretty/src/printer.rs:117-122 | the comment names the address as `0x` and lower-case hexadecimal and the first-seen type depth in decimal |
| `FacetPretty.PrettyPrinter.StyleTypeName` | facet-pretty/src/printer.rs:349-370 | the type name, between bold and reset when colours are on |
| `FacetPretty.PrettyPrinter.StyleFieldName` | facet-pretty/src/printer.rs:381-389 | the field name, between the colour (114, 160, 193) and reset when colours are on |
| `FacetPretty.PrettyPrinter.StylePunctuation` | facet-pretty/src/printer.rs:392-407 | punctuation, between dim and reset when colours are on; `style_punctuation` writes the same pieces |
| `FacetPretty.PrettyPrinter.StyleComment` | facet-pretty/src/printer.rs:410-425 | a comment, between dim and reset when colours are on; `style_comment` writes the same pieces |
| `FacetPretty.PrettyPrinter.StyleRedacted` | facet-pretty/src/printer.rs:428-445 | the redacted marker, between the colour (224, 49, 49), bold, and reset when colours are on |
| `FacetPretty.StyledKeepsText` | facet-pretty/src/printer.rs:349-445 | every styled write carries exactly its text; with colours off it writes only that text |
| `Numerals.DigitsRoundTrip` | facet-pretty/src/printer.rs:117-121 | the hexadecimal address and the decimal depth in a cycle comment read back as the numbers printed |
| `FacetPrettyProofs.RenderVisited` | facet-pretty/src/printer.rs:110-130 | a walk never forgets an address and never overwrites its first-seen depth; it records only addresses reachable without passing through a sensitive field |
| `FacetPrettyProofs.FirstVisitRecordsTypeDepth` | facet-pretty/src/printer.rs:127-130 | an unseen address that the depth limit lets through is recorded with the current type depth |
| `FacetPrettyProofs.DepthLimitTruncates` | facet-pretty/src/printer.rs:99-105 | past the limit a node is exactly `[` and `...` and the visited map is unchanged |
| `FacetPrettyProofs.CycleIsCutOff` | facet-pretty/src/printer.rs:110-126 | a revisit more than one type level deeper is exactly type name, ` { `, the cycle comment, ` }`, with nothing recorded |
| `FacetPrettyProofs.ScalarRendering` | facet-pretty/src/printer.rs:184-200 | a scalar reads as its Display text, else its Debug text, else its type name and `(⋯)` |
| `FacetPrettyProofs.EmptyStructRendering` | facet-pretty/src/printer.rs:219-226 | a struct without fields is type name, ` {`, ` }` on one line |
| `FacetPrettyProofs.StructLayout` | facet-pretty/src/printer.rs:219-270 | a struct with fields opens with a newline, writes its field lines, and closes with `}` indented to its own depth, so the `format_depth - 1` never underflows |
| `FacetPrettyProofs.FieldLayout` | facet-pretty/src/printer.rs:231-262 | each field line is indented `(format_depth+1)*indent_size` and ends with `,` and a newline, the last one included |
| `FacetPrettyProofs.ListLayout` | facet-pretty/src/printer.rs:283-309 | a list opens with a newline, writes its item lines, and closes with `]` indented `format_depth*indent_size` |
| `FacetPrettyProofs.EmptyListRendering` | facet-pretty/src/printer.rs:283-309 | an empty list writes no item line and still closes on a line of its own |
| `FacetPrettyProofs.ItemLayout` | facet-pretty/src/printer.rs:288-303 | each item line is indented, followed by `,` unless last, and ends with a newline |
| `FacetPrettyProofs.SensitiveValueNotVisited` | facet-pretty/src/printer.rs:245-248 | a sensitive field writes `[REDACTED]` and leaves the visited map unchanged |
| `FacetPrettyProofs.SensitiveValuesAreHidden` | facet-pretty/src/printer.rs:245-257 | structs that differ only in the values of sensitive fields render identically, visited map included |
| `FacetPrettyProofs.RenderColorsOff` | facet-pretty/src/printer.rs:349-445 | with colours off the output is the coloured output with its style commands dropped, and the walk is the same |
| `FacetPrettyProofs.ColorsOffIsPlain` | facet-pretty/src/printer.rs:178-203 | with colours off no style command is written, and the visible text is the same as with colours on |
| `FacetPrettyProofs.ListSeparators` | facet-pretty/src/printer.rs:283-309 | a list of n items, whatever they are, writes exactly n-1 `,` separator pieces of its own (none when empty) and n+1 line-break pieces; every other such piece is its type name or written inside its items (`ItemsInner`, the visited map handed on as the list hands it); commas or newlines inside a longer text piece are not counted |
| `FacetPrettyProofs.ScalarListSeparators` | facet-pretty/src/printer.rs:288-309 | a list of n scalars writes exactly n-1 `,` separator pieces (none when empty) and n+1 line-break pieces; a comma inside a scalar's text, as in `1,5`, is not counted |
| `FacetPrettyProofs.StructSeparators` | facet-pretty/src/printer.rs:219-270 | a struct of n fields, whatever they hold, writes exactly n `,` separator pieces of its own, the last field's included, and n+1 line-break pieces, or none when it has no field; every other such piece is its type name or written in its fields' names and walked values (`FieldsInner`); commas or newlines inside a longer text piece are not counted |
| `FacetPrettyProofs.ScalarStructSeparators` | facet-pretty/src/printer.rs:220-270 | a struct of n scalar or redacted fields writes exactly n `,` separator pieces, and n+1 line-break pieces unless it has no field; a comma inside a scalar's text is not counted |
| `FacetPrettyProofs.SameAddressChainReadsAsCycle` | facet-pretty/src/printer.rs:110-143 | three nested values at one address print the innermost as a cycle marker first seen at type depth 0 |
| `FacetPrettyIntended.IntendedRender` | facet-pretty/src/printer.rs:90-168 | the walk with the corrected type-depth rule; like the printer's, it never forgets an address nor overwrites its first-seen depth |
| `FacetPrettyIntended.IntendedField` | facet-pretty/src/printer.rs:231-262 | a field line whose value is one type level deeper only when it sits at another address than its struct |
| `FacetPrettyIntended.IntendedItem` | facet-pretty/src/printer.rs:288-303 | an item line whose item is one type level deeper only when it sits at another address than its list |
| `FacetPrettyIntended.SameAddressChainIsNoCycle` | facet-pretty/src/printer.rs:110-130 | with the corrected rule, three nested values at one address print the scalar, and the address is recorded once at type depth 0 |
| `FacetPrettyIntended.BackEdgeIsCutOff` | facet-pretty/src/printer.rs:110-126 | with the corrected rule, a struct at `a` holding a struct at another address that leads back to `a` still prints the way back as a cycle marker first seen at type depth 0 |
| `FacetPrettyIntended.RenderAgrees` | facet-pretty/src/printer.rs:250-298 | where every walked field and item sits at another address than its parent, the corrected walk and the printer as written write the same pieces and record the same map |
| `ShapelyPoke.ISet.constructor` | shapely-core/src/poke/mod.rs:129-131 | a default set has no index set |
| `ShapelyPoke.ISet.Has` | shapely-core/src/poke/mod.rs:151-156 | `has(i)` is exactly bit i of the mask |
| `ShapelyPoke.ISet.Set` | shapely-core/src/poke/mod.rs:135-140 | `set(i)` makes `has(i)` true and leaves every other index unchanged |
| `ShapelyPoke.ISet.Unset` | shapely-core/src/poke/mod.rs:143-148 | `unset(i)` makes `has(i)` false and leaves every other index unchanged |
| `ShapelyPoke.ISet.AllSet` | shapely-core/src/poke/mod.rs:159-165 | true exactly when `has(i)` for every i below count, `count == 64` included (corrected) |
| `ShapelyPoke.TestBitReadsBit` | shapely-core/src/poke/mod.rs:155 | `mask & (1 << i) != 0` reads bit i and nothing else |
| `ShapelyPoke.SetIdempotent` | shapely-core/src/poke/mod.rs:135-140 | setting an index twice is setting it once |
| `ShapelyPoke.UnsetUndoesSet` | shapely-core/src/poke/mod.rs:135-148 | unsetting a freshly set index that was clear restores the mask |
| `ShapelyPoke.AllSetAsWrittenAcceptsEmpty` | shapely-core/src/poke/mod.rs:159-165 | as written, `all_set(64)` holds of a mask with no bit set |
| `ShapelyPoke.AllSetAsWritten` | shapely-core/src/poke/mod.rs:159-165 | `all_set` as written in a release build: the word and-ed with the as-written mask equals that mask |
| `ShapelyPoke.AllSetAsWrittenBelowCapacity` | shapely-core/src/poke/mod.rs:159-165 | below 64 the code as written and the corrected test agree |
| `ShapelyPoke.AllLowSetIffEach` | shapely-core/src/poke/mod.rs:159-165 | the corrected mask test holds iff each of the first count bits is set |
| `ShapelyPoke.LowMask` | shapely-core/src/poke/mod.rs:163 | the corrected mask has exactly the bits below count |
| `ShapelyPoke.FromOpaqueUninit` | shapely-core/src/poke/mod.rs:59-86 | struct, tuple struct and tuple give `Struct`, scalar gives `Scalar`, enum gives `Enum`; map and list give `Map`/`List` over the default-constructed storage, keeping the shape, iff that construction succeeds, and panic otherwise; every handle keeps the given shape |
| `ShapelyPoke.IntoStruct` | shapely-core/src/poke/mod.rs:89-94 | returns the payload iff the poke is a struct, and panics on every other variant |
| `ShapelyPoke.IntoList` | shapely-core/src/poke/mod.rs:97-102 | returns the payload iff the poke is a list, and panics otherwise |
| `ShapelyPoke.IntoMap` | shapely-core/src/poke/mod.rs:105-110 | returns the payload iff the poke is a map, and panics otherwise |
| `ShapelyPoke.IntoScalar` | shapely-core/src/poke/mod.rs:113-118 | returns the payload iff the poke is a scalar, and panics otherwise |
| `ShapelyPoke.IntoEnum` | shapely-core/src/poke/mod.rs:121-126 | returns the payload iff the poke is an enum, and panics otherwise |
| `ShapelyPoke.StructShapeNarrowsToStructOnly` | shapely-core/src/poke/mod.rs:59-126 | a handle made for a struct-like shape narrows to a struct and to nothing else |
| `ShapelyPoke.ContainerShapesNarrowToTheirKind` | shapely-core/src/poke/mod.rs:59-110 | a list or map handle narrows to its kind over the constructed storage |

## Left out

- ANSI escape bytes are not modelled; style commands are abstract pieces.
- The colour generator's choice of colour is not modelled, because it hashes the shape with `DefaultHasher`. Its output is the single piece `Foreground`.
- Raw pointers become natural-number addresses. `{:p}` is modelled as `0x` followed by lower-case hexadecimal.
- Type-name rendering options are not modelled: each node carries its type name as a string.
- The `Display` and `Debug` vtable calls are each modelled as an optional string on the node.
- Write errors are not modelled: the sink never fails. So `format_to` cannot return an error and the `expect` in `format` never fires.
- `format` is not modelled: it only builds a `Peek` from a typed value, which is outside this model, and then does what `format_peek` does.
- `format_map` has no entries to walk; only its fixed placeholder output is modelled.
- Widths and depths are unbounded in the model. The source computes `(format_depth + 1) * indent_size`, `format_depth * indent_size`, `(format_depth - 1) * indent_size`, `format_depth + 1`, `type_depth + 1` and `ptr_type_depth + 1` in `usize`. A large `with_indent_size` or a very deep value would overflow there: a panic in debug builds, wrap-around in release builds.
- `Poke::alloc` and `Poke::from_maybe_uninit` are not modelled, because they only allocate memory or borrow it.
- The real effect of `default_in_place` is not modelled; it is a success-or-failure input.
- The `PokeStruct`, `PokeList`, `PokeMap`, `PokeValue` and `PokeEnum` handles are plain records. Their own modules are not part of this model.
- The two different argument counts of `PokeValue::new` in the map and list branches are not modelled.
- `ShapelyPoke.ISet.Has`: an index of 64 or more panics in the source; the model makes that a precondition.
- `ShapelyPoke.ISet.Set`: an index of 64 or more panics in the source; the model makes that a precondition.
- `ShapelyPoke.ISet.Unset`: an index of 64 or more panics in the source; the model makes that a precondition.
- `ShapelyPoke.ISet.AllSet`: a count above 64 panics in the source; the model makes that a precondition.
- `ShapelyPoke.AllSetMaskAsWritten` models a release build, where the shift amount of `1 << 64` is reduced modulo 64. A debug build panics there instead.
- shapely/tests/traits.rs is not part of this model: it prints diagnostics and asserts nothing.

## Findings

| source | as written | input that shows it | evidently intended | confidence | as-written member | corrected member |
|---|---|---|---|---|---|---|
| shapely-core/src/poke/mod.rs:163 | `(1 << count) - 1` on `u64`: for `count == 64` the shift overflows. Release builds make the mask 0, so `all_set(64)` is true for any mask. Debug builds panic, although 64 is accepted by the guard above. | `ISet::default().all_set(64)` on a set with no field initialised | `all_set(64)` holds exactly when all 64 indices are set | medium, not executed | `ShapelyPoke.AllSetAsWrittenAcceptsEmpty` | `ShapelyPoke.ISet.AllSet` |
| facet-pretty/src/printer.rs:254 | `type_depth + 1` at every field (and at every item, line 298), even when the field or item shares its parent's address; the comparison that was meant to catch this (lines 135-163) compares a pointer with itself | a struct whose only field sits at offset 0 and is a struct whose only field is a scalar: the scalar is printed as a cycle marker | the type depth grows only where the walk moves to a different address, so only a real back-edge is cut off | medium, not executed | `FacetPrettyProofs.SameAddressChainReadsAsCycle` | `FacetPrettyIntended.SameAddressChainIsNoCycle` |
