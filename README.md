# Infuser of vue-i18n-locale-message, modelled in Dafny

The infuser writes updated locale messages back into Vue single-file
components (SFCs). For every file the SFC descriptor reader yields, it
gathers the file's blocks and sorts them by their start offset
(`getBlocks`). It then walks them with a cursor into the raw text and a
counter into the file's meta entries (`buildContent`):

- the text of every block that is not `<i18n>` is copied;
- the content range of every `<i18n>` block becomes a newline followed by
  the formatted messages. These are the entry's messages when the block's
  `lang` and `locale` match the entry's, and the block's own content read
  again otherwise;
- every entry left over becomes a new `<i18n>` block appended to the file
  (`buildI18nTag`).

`format` picks the prettier parser for a lang and passes `vue` through, so
`generate` returns what `buildContent` builds.

The project has four modules:

- `Infuser` (`infuser.dfy`) models the infuser. It holds the data model,
  `format`, the match rule, `buildI18nTag`, `getBlocks`, `buildContent`,
  `generate` and `infuse`.
- `Splicing` (`splicing.dfy`) holds the text bookkeeping the rebuild is
  stated in. `Join` is `pieces.join('')`. `Splice` replaces ranges of a
  text.
- `Attributes` (`attributes.dfy`) writes ` name="value"` attribute lists
  and reads them back. It is used to state which attributes a new tag
  carries.
- `Sequences` and `Optional` hold generic lemmas and the `Option` type.

The code is proved against reference functions:

- `buildContent` is a method with the source's loop, cursor, counter and
  piece list. It is proved to return `Rebuilt`: the raw text with the range
  of each i18n block replaced by its serialization, followed by one new tag
  per leftover entry.
- `getBlocks` collects the blocks and sorts them in place in an array.
  Lemmas about `Rebuilt` and about the sort state what the source promises.

The code the infuser calls but does not define is passed in as
function-valued fields of an `Externals` value: prettier, `parseContent`,
`stringfyContent`, `escape` and `reflectSFCDescriptor`. The model fixes
what each of them is given, not what it returns.

## Model

| member | source | states |
|---|---|---|
| Infuser.GetBlocks | src/infuser.ts:36-43 | the blocks come back sorted by `start`, and they are a permutation of the styles, the custom blocks, the template if there is one and the script if there is one |
| Infuser.SortByStartInPlace | src/infuser.ts:41 | the `blocks.sort` call leaves the array sorted by `start` and holding the same blocks |
| Infuser.SortByStartSorts | src/infuser.ts:41 | the reference order is sorted by `start`, a permutation of its input, and has the same number of i18n blocks |
| Infuser.SortedPermutationUnique | src/infuser.ts:41-42 | when starts are distinct there is one sorted order, so what `getBlocks` returns is determined |
| Infuser.EffectiveLang | src/infuser.ts:52-53 | a block's lang is its `lang` attribute when that is a non-empty string, and `json` when it is absent, empty or not a string |
| Infuser.Resolve | src/infuser.ts:58-68 | on a lang and locale match the messages are the entry's, indexed by the locale when one is set; otherwise they are the block's content parsed as its lang |
| Infuser.MatchIgnoresContent | src/infuser.ts:59-64 | on a match the block's old content plays no part in its serialization |
| Infuser.MismatchIgnoresMessages | src/infuser.ts:65-68 | on a mismatch the entry's messages play no part in the block's serialization |
| Infuser.ParserFor | src/infuser.ts:112-123 | `vue` has no parser; `yaml` and `yml` use yaml; `json5` uses json5; every other lang uses json-stringify |
| Infuser.Format | src/infuser.ts:109-124 | `vue` text is returned unchanged; any other lang goes to prettier with its parser and a tab width of 2 |
| Infuser.FormatAliases | src/infuser.ts:115-122 | `yml` formats as `yaml`, and a lang outside the switch formats as `json` |
| Infuser.BuildI18nTagShape | src/infuser.ts:104-106 | a new block is a blank line, the opening tag, a line break and the formatted messages, and it ends with `</i18n>` |
| Infuser.OpenTagRenders | src/infuser.ts:95-102 | the opening tag is `<i18n`, then ` locale="…"` when a locale is set, then ` lang="…"` when the lang is not `json`, then `>` |
| Infuser.IntendedAttributesPresent | src/infuser.ts:96-101 | a new tag carries `locale` if and only if a non-empty locale is set, and `lang` if and only if the lang is not `json` |
| Infuser.OpenTagAttributes | src/infuser.ts:95-102 | read back, the opening tag carries exactly those attributes and no others, when `escape` never writes a double quote |
| Attributes.ParseRender | src/infuser.ts:97-100 | attributes written as ` name="value"` read back as the same list, when names hold no `=` and values no `"` |
| Infuser.WalkPastOther | src/infuser.ts:75-78 | passing a block that is not i18n copies the raw text up to its end and consumes no entry |
| Infuser.WalkPastI18n | src/infuser.ts:70-74 | passing an i18n block copies the raw text up to its start, then its serialization against the next entry, and consumes that entry |
| Infuser.StepOther | src/infuser.ts:76-77 | the pieces pushed so far, followed by what is still to be spliced, stay the whole spliced text after a non-i18n block |
| Infuser.StepI18n | src/infuser.ts:70-74 | the same after an i18n block; the counter then stands one further along |
| Infuser.WalkDone | src/infuser.ts:81 | after the last block every i18n block has used an entry, and the raw tail completes the spliced text |
| Infuser.CountI18nSplit | src/infuser.ts:74 | the i18n blocks before the cursor and those from it on add up to all of them |
| Infuser.CountI18nPrefix | src/infuser.ts:74 | passing one more block adds one to the number of i18n blocks passed exactly when that block is i18n, as the counter's increment does |
| Infuser.Visit | src/infuser.ts:50-80 | one call of the `reduce` callback moves the cursor to the block's end, adds one to the counter exactly for an i18n block, and keeps the walk's state: counter equal to the i18n blocks passed, cursor at the end of the last block passed, pieces plus what is left to splice equal to the whole splice |
| Infuser.WalkBlocks | src/infuser.ts:46-81 | after the `reduce` the counter is the number of i18n blocks, the cursor is the end of the last block (0 with no blocks), and the pieces followed by the raw tail are the raw text with the i18n ranges replaced |
| Infuser.StepTag | src/infuser.ts:84-86 | pushing the next leftover entry's tag extends the joined text by that tag |
| Infuser.PushTags | src/infuser.ts:83-88 | the leftover loop appends one new tag per leftover entry, in order, after what was there |
| Infuser.TagsOneEach | src/infuser.ts:83-88 | there is one tag per leftover entry, and the k-th tag is built from the k-th leftover entry |
| Infuser.EditsFit | src/infuser.ts:70-77 | for ordered blocks the replaced ranges lie inside the raw text, in order and without overlap |
| Infuser.BuildContent | src/infuser.ts:45-91 | the result is the raw text with each i18n block's range replaced by its serialization, the k-th i18n block against the k-th entry, followed by the tags of the entries no block used |
| Infuser.NoI18nIsIdentity | src/infuser.ts:76-81 | with no i18n blocks and no entries, the file comes back unchanged |
| Infuser.NoI18nAppendsEveryEntry | src/infuser.ts:81-90 | with no i18n blocks, the file comes back unchanged, followed by a new tag for every entry |
| Infuser.RebuiltKeepsOutside | src/infuser.ts:70-81 | every character outside the i18n ranges is copied: if each serialization equalled the text it replaces, the result would be the raw text followed by the new tags |
| Infuser.RebuiltIgnoresReplacedRanges | src/infuser.ts:70-77 | the result depends on the raw text only outside the i18n ranges |
| InfuserScenarios.MatchingBlockIsReplaced | src/infuser.ts:59-81 | in `<template>X</template><i18n locale="en">{"a":"b"}</i18n>` with a matching json `en` entry, the text before and after the i18n content is kept and the content becomes a newline and the entry's `en` messages printed by json-stringify |
| InfuserScenarios.EntriesAreAppended | src/infuser.ts:81-107 | a file without i18n blocks is kept and gains one new block per entry, in order; the entry without a locale gets no `locale` attribute, the one with `fr` gets `locale` set to the escaped `fr` |
| Infuser.Generate | src/infuser.ts:21-34 | a file is rebuilt from its entries and its blocks in start order, and the final `vue` format changes nothing |
| Infuser.InfuseFile | src/infuser.ts:13-17 | each yielded file is the generated content at the descriptor's content path |
| Infuser.Infuse | src/infuser.ts:10-19 | the files are the descriptors mapped one to one, in order, to their generated files |

## Left out

- Debug logging (`debug(...)`) only traces and is not modelled.
- prettier, `parseContent`, `stringfyContent`, `escape` and `reflectSFCDescriptor` are parameters. Their code lies outside the infuser and is not part of this model. The model records only the arguments each one receives.
- `basePath` is only handed on to the descriptor reader.
- Infuser.GetBlocks: does not state that the sort is stable. Blocks with equal starts may come back in either order. The engine's sort algorithm is not fixed by the source; the model sorts by insertion.
- Infuser.Generate: requires the blocks to have distinct starts, because the order of blocks with equal starts is not stated. Blocks that do not overlap can share a start only when one of them is empty.
- Infuser.BuildContent: requires at least as many entries as i18n blocks. With fewer, the source reads `lang` of `undefined` and throws a TypeError.
- Infuser.BuildContent: requires blocks that lie inside the raw text and do not overlap. The source's `slice` clamping of out-of-order offsets is not modelled.
- Infuser.Generate: requires the file's content path to be a key of `meta.components`. Otherwise the source throws on the `undefined` entry list.
- Infuser.Index: messages are `undefined`, a string or an object of messages. Numbers, arrays and JavaScript's indexing into a string (`"ab"["0"]`) are not modelled.
- Infuser.Index: where an entry's messages are `undefined` and a locale is set, the source throws a TypeError on `messages[locale]` (src/infuser.ts:61 and :106). The model returns `Undefined` there instead and does not capture the throw.
- prettier and `parseContent` are total functions in the model. In the source either may throw, for example on malformed block content after a mismatch, and the throw aborts the rebuild of the file, since lines 67 and 117-122 catch nothing. The model does not capture that abort.
- Offsets are counted in Dafny `char`s, which are Unicode scalar values. `raw.slice` and the SFC parser's `start` and `end` count UTF-16 code units. The model's offsets agree with the source's only for text without characters outside the Basic Multilingual Plane.
- Infuser.Infuse: the source's `map` becomes a loop that pushes one file per descriptor. The result is the same list.
