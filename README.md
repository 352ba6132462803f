# vnote: highlighter records and configuration setters, in Dafny

This project models two pieces of the vnote markdown editor.

**The markdown highlighter's records** (`hgmarkdownhighlighter.dfy`, module
`MarkdownHighlighter`). These are the value types the highlighter header declares:

- the per-block state `HighlightBlockState` (Normal = 0, CodeBlock, Comment);
- the block-local style run `HLUnit` and its string-styled variant `HLUnitStyle`;
- the fenced-code-block record `VCodeBlock`;
- the document-position run `HLUnitPos`, whose default constructor sets the sentinel -1;
- the HTML comment region `VCommentRegion`, whose `Contains` treats both bounds as inclusive.

On top of these records the module states two documented contracts. The first is
"a block is totally inside an HTML comment". It is computed as "some region
contains both end positions of the block". A convexity lemma proves that this is
the same as "some region contains every position of the block". The second is
that the code-block update reports true exactly when fenced code blocks were found.

**The configuration manager's setters** (`vconfigmanager.dfy`, module
`ConfigManager`). The class `VConfigManager` holds the preference fields. Its
methods mirror the header's inline setters:

- a compare-then-write setter returns at once when the new value equals the
  stored one;
- otherwise it stores the value and appends one write ("global", key, value) to
  the log of persisted writes;
- the two background-colour setters then refresh the palette once, which is
  modelled as a counter;
- `SetNotebooks` stores and writes unconditionally.

Each setter's frame (`modifies this`field, this`log`, plus this`paletteRefreshes`
for the two colour setters) names only its own field, the log and, for the two
colour setters, the refresh counter, so every other field is unchanged by construction. Each setter is also tied to a
pure specification over the `Config` value:

- `Set(s, k, v)` for the six keyed preferences;
- `StoreNotebooks` for the notebook list.

Lemmas about that specification give the promised properties:

- the getter returns the new value;
- other preferences are untouched;
- an equal value is a no-op;
- a changed value produces exactly one write under the right key;
- calling a setter twice is the same as calling it once;
- calling `SetNotebooks` twice writes twice (the stored list is the same);
- every setter keeps the settings store consistent with memory: the last value
  written under each key is the current one.

`Get`, `Put`, `Set` and `StoreNotebooks` are the specification functions the
lemmas are about. The getters of the header are the `Get…` functions of the
class, each a read of one field; the six keyed ones are tied to `Get`, the
notebook getter to the `Config` value, and the others to `ReadOnly()`, the
fields every setter leaves unchanged.
`Basics` holds the 32-bit `int32` type used for C++ `int` and an `Option` type.

## Model

| member | source | states |
|---|---|---|
| MarkdownHighlighter.BlockStateValue | src/hgmarkdownhighlighter.h:26-35 | each block state has an integer value below 3, and 0 is exactly `Normal` |
| MarkdownHighlighter.BlockStateFromValue | src/hgmarkdownhighlighter.h:26-35 | an integer names a block state exactly when it is 0, 1 or 2 |
| MarkdownHighlighter.BlockStateValueRoundTrip | src/hgmarkdownhighlighter.h:26-35 | Normal is 0, CodeBlock 1 and Comment 2 in declaration order; state → value → state and value → state → value are identities, so the enum has exactly these three values |
| MarkdownHighlighter.DefaultHLUnitPos | src/hgmarkdownhighlighter.h:70-72 | a default run has position -1 and length -1 (unset) and an empty style |
| MarkdownHighlighter.NewHLUnitPos | src/hgmarkdownhighlighter.h:74-77 | the three-argument constructor keeps position, length and style verbatim |
| MarkdownHighlighter.UpdateCodeBlocks | src/hgmarkdownhighlighter.h:176-178 | true exactly when at least one fenced code block was found, false exactly when none was |
| MarkdownHighlighter.DefaultCommentRegion | src/hgmarkdownhighlighter.h:87 | the default region is [0,0] and contains position 0 and no other |
| MarkdownHighlighter.NewCommentRegion | src/hgmarkdownhighlighter.h:89 | the constructor stores start and end unchanged, and the region contains p iff start <= p <= end |
| MarkdownHighlighter.VCommentRegion.Contains | src/hgmarkdownhighlighter.h:97-101 | a region contains a position only if its start is not after its end, and a non-empty region contains both of its bounds (both ends inclusive) |
| MarkdownHighlighter.ContainsBounds | src/hgmarkdownhighlighter.h:97-101 | both bounds are inside a non-empty region; start > end contains nothing; start == end contains exactly that position |
| MarkdownHighlighter.Convexity | src/hgmarkdownhighlighter.h:97-101 | a region containing two positions contains every position between them |
| MarkdownHighlighter.CoversBlockIffEndpoints | src/hgmarkdownhighlighter.h:97-101 | a region covers a whole block iff it contains the block's first and last positions |
| MarkdownHighlighter.IsBlockInsideCommentRegion | src/hgmarkdownhighlighter.h:183-184 | true iff some comment region covers every position of the block |
| MarkdownHighlighter.PartialOverlapIsNotInside | src/hgmarkdownhighlighter.h:183-184 | a block that each region misses at least one position of is not inside a comment |
| MarkdownHighlighter.EndpointsInRegionIsInside | src/hgmarkdownhighlighter.h:183-184 | any region, at any index, that contains both block end positions makes the block inside a comment |
| ConfigManager.ConverterValue | src/vconfigmanager.h:16-20 | each converter type has an integer value 0 or 1 |
| ConfigManager.ConverterFromValue | src/vconfigmanager.h:16-20 | an integer names a converter type exactly when it is 0 or 1 |
| ConfigManager.ConverterValueRoundTrip | src/vconfigmanager.h:16-20 | Hoedown is 0, Marked is 1, and the value mapping is a bijection onto {0, 1} |
| ConfigManager.LastWrittenIsAWrite | src/vconfigmanager.h:89 | the last value persisted under (section, key) was written under it, and a key with none was never written |
| ConfigManager.LastNotebooksIsAWrite | src/vconfigmanager.h:91 | the last persisted notebook list was written, and with none no notebook list was ever written |
| ConfigManager.LastWrittenAppend | src/vconfigmanager.h:89 | one more write becomes the last value of its own key and leaves other keys' last values alone |
| ConfigManager.KeyNameInjective | src/vconfigmanager.h:185-289 | the six settings keys are pairwise distinct, so no two preferences overwrite each other's stored value |
| ConfigManager.Get | src/vconfigmanager.h:174-280 | every getter's value is one its setter accepts (an int32, a converter value 0/1, a bool or a string) |
| ConfigManager.PutGetRoundTrip | src/vconfigmanager.h:174-291 | a stored preference reads back as the value stored, and storing the value just read changes nothing |
| ConfigManager.VConfigManager.GetCurNotebookIndex | src/vconfigmanager.h:174-177 | returns the stored notebook index, the value `Get` gives for "current_notebook" |
| ConfigManager.VConfigManager.GetMdConverterType | src/vconfigmanager.h:204-207 | returns the stored converter, whose integer value is what `Get` gives for "markdown_converter" |
| ConfigManager.VConfigManager.GetTabStopWidth | src/vconfigmanager.h:228-231 | returns the stored tab stop width, the value `Get` gives for "tab_stop_width" |
| ConfigManager.VConfigManager.GetIsExpandTab | src/vconfigmanager.h:233-236 | returns the stored expand-tab flag, the value `Get` gives for "is_expand_tab" |
| ConfigManager.VConfigManager.GetCurBackgroundColor | src/vconfigmanager.h:261-264 | returns the stored colour name, the value `Get` gives for "current_background_color" |
| ConfigManager.VConfigManager.GetCustomBackgroundColor | src/vconfigmanager.h:277-280 | returns the stored custom colour, the value `Get` gives for "custom_background_color" |
| ConfigManager.VConfigManager.GetNotebooks | src/vconfigmanager.h:188-191 | returns the configuration's notebook list, so after `SetNotebooks(l)` it returns `l` |
| ConfigManager.VConfigManager.GetMarkdownExtensions | src/vconfigmanager.h:199-202 | returns the markdown extensions the constructor stored; no setter's frame includes that field |
| ConfigManager.VConfigManager.GetPredefinedColors | src/vconfigmanager.h:256-259 | returns the predefined colours the constructor stored; no setter's frame includes that field |
| ConfigManager.VConfigManager.GetWelcomePagePath | src/vconfigmanager.h:149-152 | returns the welcome page path the constructor stored; no setter's frame includes that field |
| ConfigManager.VConfigManager.GetTemplatePath | src/vconfigmanager.h:154-157 | returns the template path the constructor stored; no setter's frame includes that field |
| ConfigManager.VConfigManager.GetTemplateCssUrl | src/vconfigmanager.h:159-162 | returns the template CSS URL the constructor stored; no setter's frame includes that field |
| ConfigManager.VConfigManager.GetPreTemplatePath | src/vconfigmanager.h:209-212 | returns the pre-template path the constructor stored; no setter's frame includes that field |
| ConfigManager.VConfigManager.GetPostTemplatePath | src/vconfigmanager.h:214-217 | returns the post-template path the constructor stored; no setter's frame includes that field |
| ConfigManager.SetStores | src/vconfigmanager.h:179-291 | after any compare-then-write setter, its getter returns the value set |
| ConfigManager.SetKeepsOtherKeys | src/vconfigmanager.h:179-291 | a setter leaves every other preference's getter result unchanged |
| ConfigManager.SetKeepsNotebooks | src/vconfigmanager.h:179-291 | a keyed setter leaves the notebook list alone, and only the colour setters may refresh the palette |
| ConfigManager.SetUnchangedIsNoOp | src/vconfigmanager.h:179-291 | setting a preference to its current value changes no field, writes nothing and refreshes nothing |
| ConfigManager.SetChangedWritesOnce | src/vconfigmanager.h:179-291 | a changed value appends exactly ("global", key, value) to the writes and refreshes the palette once iff the key is a background colour |
| ConfigManager.SetIdempotent | src/vconfigmanager.h:179-291 | a setter called twice with one value gives the same state as once, with at most one write |
| ConfigManager.SetNotebooksAlwaysWrites | src/vconfigmanager.h:193-197 | the notebook setter always stores and writes, leaves every keyed preference alone, and calling it twice differs from once |
| ConfigManager.SetPreservesConsistent | src/vconfigmanager.h:179-291 | every compare-then-write setter keeps each key's last persisted value equal to the in-memory value |
| ConfigManager.SetNotebooksPreservesConsistent | src/vconfigmanager.h:193-197 | the notebook setter keeps the persisted settings consistent with memory |
| ConfigManager.LastNotebooksAppend | src/vconfigmanager.h:91 | a notebook-list write becomes the last notebook list; any other write leaves it alone |
| ConfigManager.EmptyLogIsConsistent | src/vconfigmanager.h:31-33 | before any write, memory and the settings store agree |
| ConfigManager.PersistedNotebooksAreCurrent | src/vconfigmanager.h:193-197 | in a consistent state in which a notebook list was ever persisted, the last persisted list is the current one and is among the lists written |
| ConfigManager.PersistedValueIsCurrent | src/vconfigmanager.h:179-291 | in a consistent state, a preference that was ever persisted has its current value as its last persisted value, and that value was written under its key |
| ConfigManager.VConfigManager.constructor | src/vconfigmanager.h:31-33 | a manager starts with the preferences and read-only fields (`ReadOnly()`) it was initialised with, no writes and no palette refreshes, and memory agrees with the settings store |
| ConfigManager.VConfigManager.SetConfigToSettings | src/vconfigmanager.h:89 | persisting a value appends exactly one (section, key, value) write and changes nothing else |
| ConfigManager.VConfigManager.WriteNotebookToSettings | src/vconfigmanager.h:91 | persisting the notebook list appends exactly one notebook-list write |
| ConfigManager.VConfigManager.UpdatePaletteColor | src/vconfigmanager.h:93-94 | one palette refresh, and nothing else changes |
| ConfigManager.VConfigManager.SetCurNotebookIndex | src/vconfigmanager.h:179-186 | the index becomes `index`; no write if it was already `index`, otherwise exactly ("global", "current_notebook", index); only that field and the log change |
| ConfigManager.VConfigManager.SetNotebooks | src/vconfigmanager.h:193-197 | the list becomes `notebooks` and one notebook-list write is appended, even when the list is unchanged |
| ConfigManager.VConfigManager.SetMarkdownConverterType | src/vconfigmanager.h:219-226 | the converter becomes `t`; a change writes ("global", "markdown_converter", value of t) once, no change writes nothing |
| ConfigManager.VConfigManager.SetTabStopWidth | src/vconfigmanager.h:238-245 | the width becomes the argument; a change writes ("global", "tab_stop_width", width) once, no change writes nothing |
| ConfigManager.VConfigManager.SetIsExpandTab | src/vconfigmanager.h:247-254 | the flag becomes the argument; a change writes ("global", "is_expand_tab", flag) once, no change writes nothing |
| ConfigManager.VConfigManager.SetCurBackgroundColor | src/vconfigmanager.h:266-275 | the colour name becomes the argument; a change writes ("global", "current_background_color", name) once and refreshes the palette once; no change does neither |
| ConfigManager.VConfigManager.SetCustomBackgroundColor | src/vconfigmanager.h:282-291 | the custom colour becomes the argument; a change writes ("global", "custom_background_color", rgb) once and refreshes the palette once; no change does neither |

## Left out

- The highlighting pipeline is not part of this model. That covers `parse`, `parseInternal`, `resizeBuffer`, `initBlockHighlightFromResult`, `initBlockHighlihgtOne`, `highlightBlock`, `highlightCodeBlock`, `highlightLinkWithSpacesInURL`, `setCodeBlockHighlights`, `highlightChanged` and `updateHighlight`. Their bodies live in the highlighter's implementation file, which is not part of this model.
- The rule that picks each block's `HighlightBlockState` is not part of this model: CodeBlock for a block inside a fenced code block, Comment for a block inside an HTML comment region, Normal otherwise. That code is in the same implementation file.
- `initHtmlCommentRegionsFromResult` is not part of this model; the comment regions are an argument of the query.
- The parser elements (`pmh_element`, `pmh_parser`) belong to an external C library and are not modelled.
- `HighlightingStyle` is not modelled; it pairs a parser element type with a `QTextCharFormat`.
- The debounce timers, the `QAtomicInt` re-entrancy flag and the Qt signals `highlightCompleted` and `codeBlocksUpdated` are not modelled. They are timing and concurrency plumbing.
- MarkdownHighlighter.IsBlockInsideCommentRegion: a text block is given by its first and last document positions, with first <= last; how those are computed from a `QTextBlock` is not modelled. The query follows the header's documented meaning; its body is in the implementation file, which this model does not cover.
- MarkdownHighlighter.UpdateCodeBlocks: only the documented return value is modelled. Extracting the fenced blocks from the parse result, the count of outstanding code-block responses (`m_numOfCodeBlockHighlightsToRecv`) and the later re-highlight are not modelled.
- The `unsigned long` and `unsigned int` fields of `HLUnit` and `HLUnitStyle` are unbounded naturals, because their width depends on the platform. The `int` fields are 32-bit.
- The bodies of `setConfigToSettings`, `writeNotebookToSettings`, `getConfigFromSettings` and `readNotebookFromSettings` are not modelled. They do QSettings and JSON file I/O. Each write is an entry appended to a log: a keyed `ConfigWrite` or a whole `NotebookListWrite`.
- The directory-config helpers (`readDirectoryConfig`, `writeDirectoryConfig`, `deleteDirectoryConfig`), `initialize` and `readPredefinedColorsFromSettings` are not modelled. These are file I/O; the constructor takes the values initialisation would load.
- `updatePaletteColor` is a counter of refreshes. Its effect on `QPalette` is not modelled.
- The font, palette and highlighting-style fields and their getters are left out; they hold opaque Qt values.
- `SetCurBackgroundColor` and `SetCustomBackgroundColor` change the edit palette (`baseEditPalette`) through `updatePaletteColor`. This model keeps only a count of refreshes (`paletteRefreshes`), not the palette itself.
- `updateMarkdownEditStyle` is not modelled; its body is in the implementation file and it works on fonts and palettes.
- `VNotebook` and `hoedown_extensions` are opaque types, compared only for equality.
- A value handed to the settings store is an int, a bool or a string. This mirrors the `QVariant` built from the argument; the converter enum is stored as its integer value.
- The settings dialog is not part of this model. It is Qt widget code that reads and writes other preferences (language, web zoom factor, image folder) through accessors that are not in this header and are not modelled.
