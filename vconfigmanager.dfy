/// The editor's configuration manager: the in-memory copy of the user's
/// preferences and its change-detecting setters.
///
/// Each compare-then-write setter returns at once when the new value equals
/// the stored one; otherwise it stores the value, persists it with exactly one
/// write under section "global" and its own key, and the two background-colour
/// setters then refresh the editor palette. The notebook-list setter always
/// stores and persists. Persistence is modelled as an append-only log of
/// writes, and a palette refresh as a counter.
module ConfigManager {
  import opened Basics

  /// A notebook, the markdown extension flags: values the setters only
  /// store and compare.
  type VNotebook(==)
  type HoedownExtensions(==)

  /// The markdown-to-HTML converter in use; `Hoedown` is 0 and `Marked` is 1.
  datatype MarkdownConverterType = Hoedown | Marked

  function ConverterValue(t: MarkdownConverterType): (n: nat)
    ensures n < 2
  {
    match t
    case Hoedown => 0
    case Marked => 1
  }

  function ConverterFromValue(n: int): (r: Option<MarkdownConverterType>)
    ensures r.Some? <==> 0 <= n < 2
  {
    if n == 0 then Some(Hoedown)
    else if n == 1 then Some(Marked)
    else None
  }

  /// Hoedown is 0, Marked is 1, and no other value names a converter.
  lemma ConverterValueRoundTrip(t: MarkdownConverterType, n: int)
    ensures ConverterValue(Hoedown) == 0 && ConverterValue(Marked) == 1
    ensures ConverterFromValue(ConverterValue(t)) == Some(t)
    ensures 0 <= n < 2 ==> ConverterValue(ConverterFromValue(n).value) == n
  {
  }

  /// A predefined colour: its name and its RGB hex digits without '#'.
  datatype VColor = VColor(name: string, rgb: string)

  // ---------------------------------------------------------------------------
  // Persisted writes
  // ---------------------------------------------------------------------------

  /// A value handed to the settings store.
  datatype SettingValue = IntValue(i: int) | BoolValue(b: bool) | StringValue(s: string)

  /// One write to the persistent settings: a single keyed value, or the
  /// whole notebook list.
  datatype SettingsWrite =
    | ConfigWrite(section: string, key: string, value: SettingValue)
    | NotebookListWrite(notebooks: seq<VNotebook>)

  const Global := "global"

  /// The value most recently written under (`section`, `key`) in `log`.
  function LastWritten(log: seq<SettingsWrite>, section: string, key: string): Option<SettingValue>
    decreases |log|
  {
    if log == [] then None
    else
      var w := log[|log| - 1];
      if w.ConfigWrite? && w.section == section && w.key == key then Some(w.value)
      else LastWritten(log[..|log| - 1], section, key)
  }

  /// The notebook list most recently written in `log`.
  function LastNotebooks(log: seq<SettingsWrite>): Option<seq<VNotebook>>
    decreases |log|
  {
    if log == [] then None
    else
      var w := log[|log| - 1];
      if w.NotebookListWrite? then Some(w.notebooks)
      else LastNotebooks(log[..|log| - 1])
  }

  /// The last value of a key is a value that was written under that key, and
  /// a key with no last value was never written.
  lemma {:induction false} LastWrittenIsAWrite(log: seq<SettingsWrite>, section: string, key: string)
    ensures LastWritten(log, section, key).Some? ==>
              ConfigWrite(section, key, LastWritten(log, section, key).value) in log
    ensures LastWritten(log, section, key).None? ==>
              forall v :: ConfigWrite(section, key, v) !in log
    decreases |log|
  {
    if log != [] {
      var init := log[..|log| - 1];
      LastWrittenIsAWrite(init, section, key);
      assert log == init + [log[|log| - 1]];
    }
  }

  /// The last notebook list is one that was written, and a log with no last
  /// notebook list holds no notebook-list write.
  lemma {:induction false} LastNotebooksIsAWrite(log: seq<SettingsWrite>)
    ensures LastNotebooks(log).Some? ==> NotebookListWrite(LastNotebooks(log).value) in log
    ensures LastNotebooks(log).None? ==> forall n :: NotebookListWrite(n) !in log
    decreases |log|
  {
    if log != [] {
      var init := log[..|log| - 1];
      LastNotebooksIsAWrite(init);
      assert log == init + [log[|log| - 1]];
    }
  }

  // ---------------------------------------------------------------------------
  // The configuration state and its setters, as values
  // ---------------------------------------------------------------------------

  /// The fields of the configuration manager that have a setter, the log of
  /// persisted writes and the number of palette refreshes. The remaining
  /// fields are read-only after initialisation and no setter's frame
  /// includes them.
  datatype Config = Config(
    curNotebookIndex: int32,
    notebooks: seq<VNotebook>,
    mdConverterType: MarkdownConverterType,
    tabStopWidth: int32,
    isExpandTab: bool,
    curBackgroundColor: string,
    customBackgroundColor: string,
    log: seq<SettingsWrite>,
    paletteRefreshes: nat)

  /// The fields of the configuration manager that no setter changes: they
  /// keep the values initialisation gave them.
  datatype ReadOnlyConfig = ReadOnlyConfig(
    welcomePagePath: string,
    templatePath: string,
    preTemplatePath: string,
    postTemplatePath: string,
    templateCssUrl: string,
    markdownExtensions: HoedownExtensions,
    predefinedColors: seq<VColor>)

  /// The preferences set by a compare-then-write setter.
  datatype Key =
    | CurrentNotebook
    | MarkdownConverter
    | TabStopWidth
    | IsExpandTab
    | CurrentBackgroundColor
    | CustomBackgroundColor

  /// The settings key each preference is persisted under.
  function KeyName(k: Key): string {
    match k
    case CurrentNotebook => "current_notebook"
    case MarkdownConverter => "markdown_converter"
    case TabStopWidth => "tab_stop_width"
    case IsExpandTab => "is_expand_tab"
    case CurrentBackgroundColor => "current_background_color"
    case CustomBackgroundColor => "custom_background_color"
  }

  /// No two preferences share a settings key.
  lemma KeyNameInjective(k1: Key, k2: Key)
    ensures KeyName(k1) == KeyName(k2) ==> k1 == k2
  {
    if k1 != k2 {
      // The six keys all have different lengths.
      var a, b := KeyName(k1), KeyName(k2);
      assert |a| != |b|;
    }
  }

  /// Whether the setter for `k` refreshes the editor palette after a change.
  predicate RefreshesPalette(k: Key) {
    k == CurrentBackgroundColor || k == CustomBackgroundColor
  }

  /// The values the setter for `k` accepts, as they are persisted.
  predicate Admissible(k: Key, v: SettingValue) {
    match k
    case CurrentNotebook => v.IntValue? && IsInt32(v.i)
    case MarkdownConverter => v.IntValue? && 0 <= v.i < 2
    case TabStopWidth => v.IntValue? && IsInt32(v.i)
    case IsExpandTab => v.BoolValue?
    case CurrentBackgroundColor => v.StringValue?
    case CustomBackgroundColor => v.StringValue?
  }

  /// The current value of preference `k`, as it would be persisted.
  function Get(s: Config, k: Key): (v: SettingValue)
    ensures Admissible(k, v)
  {
    match k
    case CurrentNotebook => IntValue(s.curNotebookIndex as int)
    case MarkdownConverter => IntValue(ConverterValue(s.mdConverterType))
    case TabStopWidth => IntValue(s.tabStopWidth as int)
    case IsExpandTab => BoolValue(s.isExpandTab)
    case CurrentBackgroundColor => StringValue(s.curBackgroundColor)
    case CustomBackgroundColor => StringValue(s.customBackgroundColor)
  }

  /// `s` with preference `k` replaced by `v` and nothing else changed.
  function Put(s: Config, k: Key, v: SettingValue): Config
    requires Admissible(k, v)
  {
    match k
    case CurrentNotebook => s.(curNotebookIndex := v.i as int32)
    case MarkdownConverter => s.(mdConverterType := ConverterFromValue(v.i).value)
    case TabStopWidth => s.(tabStopWidth := v.i as int32)
    case IsExpandTab => s.(isExpandTab := v.b)
    case CurrentBackgroundColor => s.(curBackgroundColor := v.s)
    case CustomBackgroundColor => s.(customBackgroundColor := v.s)
  }

  /// Reading a preference back after storing it gives the stored value, and
  /// storing the value just read changes nothing.
  lemma PutGetRoundTrip(s: Config, k: Key, v: SettingValue)
    requires Admissible(k, v)
    ensures Get(Put(s, k, v), k) == v
    ensures Put(s, k, Get(s, k)) == s
  {
  }

  /// A compare-then-write setter: an equal value leaves everything as it is;
  /// a different one is stored, written once under ("global", key), and for
  /// the background colours followed by one palette refresh.
  function Set(s: Config, k: Key, v: SettingValue): Config
    requires Admissible(k, v)
  {
    if Get(s, k) == v then s
    else
      var stored := Put(s, k, v).(log := s.log + [ConfigWrite(Global, KeyName(k), v)]);
      if RefreshesPalette(k) then stored.(paletteRefreshes := s.paletteRefreshes + 1)
      else stored
  }

  /// The notebook-list setter: stores the list and writes it, unconditionally.
  function StoreNotebooks(s: Config, notebooks: seq<VNotebook>): Config {
    s.(notebooks := notebooks, log := s.log + [NotebookListWrite(notebooks)])
  }

  /// After a setter, its getter returns the new value.
  lemma SetStores(s: Config, k: Key, v: SettingValue)
    requires Admissible(k, v)
    ensures Get(Set(s, k, v), k) == v
  {
  }

  /// A setter changes its own preference only: every other preference stays
  /// as it was.
  lemma SetKeepsOtherKeys(s: Config, k: Key, v: SettingValue, other: Key)
    requires Admissible(k, v) && other != k
    ensures Get(Set(s, k, v), other) == Get(s, other)
  {
  }

  /// A setter leaves the notebook list as it was, and only the
  /// background-colour setters may refresh the palette.
  lemma SetKeepsNotebooks(s: Config, k: Key, v: SettingValue)
    requires Admissible(k, v)
    ensures Set(s, k, v).notebooks == s.notebooks
    ensures !RefreshesPalette(k) ==> Set(s, k, v).paletteRefreshes == s.paletteRefreshes
  {
  }

  /// Setting a preference to its current value changes nothing: no field, no
  /// write, no palette refresh.
  lemma SetUnchangedIsNoOp(s: Config, k: Key, v: SettingValue)
    requires Admissible(k, v) && Get(s, k) == v
    ensures Set(s, k, v) == s
  {
  }

  /// Setting a preference to a different value appends exactly one write,
  /// ("global", its key, the value), and refreshes the palette exactly once
  /// when the preference is a background colour.
  lemma SetChangedWritesOnce(s: Config, k: Key, v: SettingValue)
    requires Admissible(k, v) && Get(s, k) != v
    ensures Set(s, k, v).log == s.log + [ConfigWrite("global", KeyName(k), v)]
    ensures Set(s, k, v).paletteRefreshes == s.paletteRefreshes + (if RefreshesPalette(k) then 1 else 0)
  {
  }

  /// Calling a compare-then-write setter twice with the same value has the
  /// effect of calling it once: the second call writes nothing.
  lemma SetIdempotent(s: Config, k: Key, v: SettingValue)
    requires Admissible(k, v)
    ensures Set(Set(s, k, v), k, v) == Set(s, k, v)
    ensures |Set(Set(s, k, v), k, v).log| <= |s.log| + 1
  {
  }

  /// The notebook-list setter always stores and always writes, even when the
  /// list is the one already stored, so calling it twice writes twice.
  lemma SetNotebooksAlwaysWrites(s: Config, notebooks: seq<VNotebook>)
    ensures StoreNotebooks(s, notebooks).notebooks == notebooks
    ensures StoreNotebooks(s, notebooks).log == s.log + [NotebookListWrite(notebooks)]
    ensures forall k :: Get(StoreNotebooks(s, notebooks), k) == Get(s, k)
    ensures StoreNotebooks(StoreNotebooks(s, notebooks), notebooks) != StoreNotebooks(s, notebooks)
  {
    assert |StoreNotebooks(StoreNotebooks(s, notebooks), notebooks).log| == |s.log| + 2;
  }

  /// The persisted settings agree with the in-memory ones: the last value
  /// written under each preference's key is its current value, and the last
  /// notebook list written is the current list.
  ghost predicate Consistent(s: Config) {
    (forall k :: LastWritten(s.log, Global, KeyName(k)).Some? ==>
       LastWritten(s.log, Global, KeyName(k)).value == Get(s, k)) &&
    (LastNotebooks(s.log).Some? ==> LastNotebooks(s.log).value == s.notebooks)
  }

  /// Appending one keyed write makes it the last value of its key and leaves
  /// the other keys' last values alone.
  lemma LastWrittenAppend(log: seq<SettingsWrite>, w: SettingsWrite, section: string, key: string)
    ensures LastWritten(log + [w], section, key) ==
      if w.ConfigWrite? && w.section == section && w.key == key then Some(w.value)
      else LastWritten(log, section, key)
  {
    assert (log + [w])[..|log|] == log;
  }

  /// Appending a notebook-list write makes it the last notebook list; any
  /// other write leaves the last notebook list alone.
  lemma LastNotebooksAppend(log: seq<SettingsWrite>, w: SettingsWrite)
    ensures LastNotebooks(log + [w]) ==
      if w.NotebookListWrite? then Some(w.notebooks) else LastNotebooks(log)
  {
    assert (log + [w])[..|log|] == log;
  }

  /// Every compare-then-write setter keeps the settings store in agreement
  /// with the in-memory configuration.
  lemma SetPreservesConsistent(s: Config, k: Key, v: SettingValue)
    requires Admissible(k, v) && Consistent(s)
    ensures Consistent(Set(s, k, v))
  {
    if Get(s, k) != v {
      var w := ConfigWrite(Global, KeyName(k), v);
      var t := Set(s, k, v);
      assert t.log == s.log + [w];
      forall other: Key
        ensures LastWritten(t.log, Global, KeyName(other)).Some? ==>
                LastWritten(t.log, Global, KeyName(other)).value == Get(t, other)
      {
        LastWrittenAppend(s.log, w, Global, KeyName(other));
        KeyNameInjective(k, other);
        if other == k {
          SetStores(s, k, v);
        } else {
          SetKeepsOtherKeys(s, k, v, other);
        }
      }
      LastNotebooksAppend(s.log, w);
      SetKeepsNotebooks(s, k, v);
    }
  }

  /// The notebook-list setter keeps the settings store in agreement with the
  /// in-memory configuration.
  lemma SetNotebooksPreservesConsistent(s: Config, notebooks: seq<VNotebook>)
    requires Consistent(s)
    ensures Consistent(StoreNotebooks(s, notebooks))
  {
    var w := NotebookListWrite(notebooks);
    forall k: Key {
      LastWrittenAppend(s.log, w, Global, KeyName(k));
    }
    LastNotebooksAppend(s.log, w);
  }

  /// Before anything is written the settings store agrees with memory.
  lemma EmptyLogIsConsistent(s: Config)
    requires s.log == []
    ensures Consistent(s)
  {
  }

  /// In a consistent state, a preference that was ever persisted has its
  /// current value as its last persisted value, and that value is among the
  /// writes made under its key.
  lemma PersistedValueIsCurrent(s: Config, k: Key, v: SettingValue)
    requires Consistent(s) && ConfigWrite(Global, KeyName(k), v) in s.log
    ensures LastWritten(s.log, Global, KeyName(k)) == Some(Get(s, k))
    ensures ConfigWrite(Global, KeyName(k), Get(s, k)) in s.log
  {
    LastWrittenIsAWrite(s.log, Global, KeyName(k));
  }

  /// In a consistent state in which a notebook list was ever persisted, the
  /// last persisted list is the current one, and it is among the lists
  /// written.
  lemma PersistedNotebooksAreCurrent(s: Config, persisted: seq<VNotebook>)
    requires Consistent(s) && NotebookListWrite(persisted) in s.log
    ensures LastNotebooks(s.log) == Some(s.notebooks)
    ensures NotebookListWrite(s.notebooks) in s.log
  {
    LastNotebooksIsAWrite(s.log);
  }

  // ---------------------------------------------------------------------------
  // The configuration manager object
  // ---------------------------------------------------------------------------

  class VConfigManager {
    var welcomePagePath: string
    var templatePath: string
    var preTemplatePath: string
    var postTemplatePath: string
    var templateCssUrl: string
    var curNotebookIndex: int32
    var notebooks: seq<VNotebook>
    var markdownExtensions: HoedownExtensions
    var mdConverterType: MarkdownConverterType
    var tabStopWidth: int32
    var isExpandTab: bool
    var predefinedColors: seq<VColor>
    var curBackgroundColor: string
    var customBackgroundColor: string

    /// The writes made to the persistent settings since construction.
    var log: seq<SettingsWrite>
    /// How many times the edit palette has been recomputed.
    var paletteRefreshes: nat

    /// The object's fields as a value.
    function Snapshot(): Config
      reads this
    {
      Config(curNotebookIndex, notebooks, mdConverterType, tabStopWidth, isExpandTab,
             curBackgroundColor, customBackgroundColor, log, paletteRefreshes)
    }

    /// The fields no setter changes, as a value.
    function ReadOnly(): ReadOnlyConfig
      reads this
    {
      ReadOnlyConfig(welcomePagePath, templatePath, preTemplatePath, postTemplatePath,
                     templateCssUrl, markdownExtensions, predefinedColors)
    }

    /// A manager holding the configuration that initialisation read from the
    /// settings files: `loaded` for the preferences with setters, `fixed` for
    /// the read-only fields. Nothing has been written and the
    /// palette has not been refreshed yet, so memory and the settings store
    /// agree.
    constructor (loaded: Config, fixed: ReadOnlyConfig)
      requires loaded.log == [] && loaded.paletteRefreshes == 0
      ensures Snapshot() == loaded && Consistent(Snapshot())
      ensures ReadOnly() == fixed
    {
      welcomePagePath, templatePath := fixed.welcomePagePath, fixed.templatePath;
      preTemplatePath, postTemplatePath := fixed.preTemplatePath, fixed.postTemplatePath;
      templateCssUrl := fixed.templateCssUrl;
      markdownExtensions, predefinedColors := fixed.markdownExtensions, fixed.predefinedColors;
      curNotebookIndex, notebooks := loaded.curNotebookIndex, loaded.notebooks;
      mdConverterType, tabStopWidth := loaded.mdConverterType, loaded.tabStopWidth;
      isExpandTab := loaded.isExpandTab;
      curBackgroundColor, customBackgroundColor := loaded.curBackgroundColor, loaded.customBackgroundColor;
      log, paletteRefreshes := loaded.log, loaded.paletteRefreshes;
      EmptyLogIsConsistent(loaded);
    }

    // The getters each read one field; those of the six keyed preferences
    // return what `Get` gives for the object's current configuration, the
    // notebook getter the configuration's list, and the others the read-only
    // values the constructor stored, which no setter's frame includes.

    function GetCurNotebookIndex(): (index: int32)
      reads this
      ensures Get(Snapshot(), CurrentNotebook) == IntValue(index as int)
    {
      curNotebookIndex
    }

    function GetNotebooks(): (notebooks: seq<VNotebook>)
      reads this
      ensures notebooks == Snapshot().notebooks
    {
      this.notebooks
    }

    function GetMarkdownExtensions(): (extensions: HoedownExtensions)
      reads this
      ensures extensions == ReadOnly().markdownExtensions
    {
      markdownExtensions
    }

    function GetMdConverterType(): (t: MarkdownConverterType)
      reads this
      ensures Get(Snapshot(), MarkdownConverter) == IntValue(ConverterValue(t))
    {
      mdConverterType
    }

    function GetTabStopWidth(): (width: int32)
      reads this
      ensures Get(Snapshot(), TabStopWidth) == IntValue(width as int)
    {
      tabStopWidth
    }

    function GetIsExpandTab(): (expand: bool)
      reads this
      ensures Get(Snapshot(), IsExpandTab) == BoolValue(expand)
    {
      isExpandTab
    }

    function GetPredefinedColors(): (colors: seq<VColor>)
      reads this
      ensures colors == ReadOnly().predefinedColors
    {
      predefinedColors
    }

    function GetCurBackgroundColor(): (colorName: string)
      reads this
      ensures Get(Snapshot(), CurrentBackgroundColor) == StringValue(colorName)
    {
      curBackgroundColor
    }

    function GetCustomBackgroundColor(): (colorRgb: string)
      reads this
      ensures Get(Snapshot(), CustomBackgroundColor) == StringValue(colorRgb)
    {
      customBackgroundColor
    }

    function GetWelcomePagePath(): (path: string)
      reads this
      ensures path == ReadOnly().welcomePagePath
    {
      welcomePagePath
    }

    function GetTemplatePath(): (path: string)
      reads this
      ensures path == ReadOnly().templatePath
    {
      templatePath
    }

    function GetPreTemplatePath(): (path: string)
      reads this
      ensures path == ReadOnly().preTemplatePath
    {
      preTemplatePath
    }

    function GetPostTemplatePath(): (path: string)
      reads this
      ensures path == ReadOnly().postTemplatePath
    {
      postTemplatePath
    }

    function GetTemplateCssUrl(): (url: string)
      reads this
      ensures url == ReadOnly().templateCssUrl
    {
      templateCssUrl
    }

    /// Persists one value: one entry appended to the write log.
    method SetConfigToSettings(section: string, key: string, value: SettingValue)
      modifies this`log
      ensures log == old(log) + [ConfigWrite(section, key, value)]
    {
      log := log + [ConfigWrite(section, key, value)];
    }

    /// Persists the notebook list: one entry appended to the write log.
    method WriteNotebookToSettings()
      modifies this`log
      ensures log == old(log) + [NotebookListWrite(notebooks)]
    {
      log := log + [NotebookListWrite(notebooks)];
    }

    /// Recomputes the edit palette from the background colours.
    method UpdatePaletteColor()
      modifies this`paletteRefreshes
      ensures paletteRefreshes == old(paletteRefreshes) + 1
    {
      paletteRefreshes := paletteRefreshes + 1;
    }

    /// Makes notebook `index` the current one. An index equal to the current
    /// one changes nothing; a different one is stored and written once under
    /// ("global", "current_notebook").
    method SetCurNotebookIndex(index: int32)
      modifies this`curNotebookIndex, this`log
      ensures curNotebookIndex == index
      ensures old(curNotebookIndex) == index ==> log == old(log)
      ensures old(curNotebookIndex) != index ==> log == old(log) + [ConfigWrite("global", "current_notebook", IntValue(index as int))]
      ensures Snapshot() == Set(old(Snapshot()), CurrentNotebook, IntValue(index as int))
      ensures ReadOnly() == old(ReadOnly())
    {
      if index == curNotebookIndex {
        return;
      }
      curNotebookIndex := index;
      SetConfigToSettings("global", "current_notebook", IntValue(index as int));
    }

    /// Replaces the notebook list and writes it to the settings, without
    /// comparing it with the stored list first.
    method SetNotebooks(notebooks: seq<VNotebook>)
      modifies this`notebooks, this`log
      ensures this.notebooks == notebooks
      ensures log == old(log) + [NotebookListWrite(notebooks)]
      ensures Snapshot() == StoreNotebooks(old(Snapshot()), notebooks)
      ensures ReadOnly() == old(ReadOnly())
    {
      this.notebooks := notebooks;
      WriteNotebookToSettings();
    }

    /// Selects the markdown converter; a change is stored and written once,
    /// as the enumerator's integer value, under ("global", "markdown_converter").
    method SetMarkdownConverterType(t: MarkdownConverterType)
      modifies this`mdConverterType, this`log
      ensures mdConverterType == t
      ensures old(mdConverterType) == t ==> log == old(log)
      ensures old(mdConverterType) != t ==> log == old(log) + [ConfigWrite("global", "markdown_converter", IntValue(ConverterValue(t)))]
      ensures Snapshot() == Set(old(Snapshot()), MarkdownConverter, IntValue(ConverterValue(t)))
      ensures ReadOnly() == old(ReadOnly())
    {
      ghost var before := Snapshot();
      if mdConverterType == t {
        return;
      }
      mdConverterType := t;
      SetConfigToSettings("global", "markdown_converter", IntValue(ConverterValue(t)));
      ConverterValueRoundTrip(t, 0);
      assert Snapshot() == Set(before, MarkdownConverter, IntValue(ConverterValue(t)));
    }

    /// Sets the number of spaces a tab stop spans; a change is stored and
    /// written once under ("global", "tab_stop_width").
    method SetTabStopWidth(tabStopWidth: int32)
      modifies this`tabStopWidth, this`log
      ensures this.tabStopWidth == tabStopWidth
      ensures old(this.tabStopWidth) == tabStopWidth ==> log == old(log)
      ensures old(this.tabStopWidth) != tabStopWidth ==> log == old(log) + [ConfigWrite("global", "tab_stop_width", IntValue(tabStopWidth as int))]
      ensures Snapshot() == Set(old(Snapshot()), TabStopWidth, IntValue(tabStopWidth as int))
      ensures ReadOnly() == old(ReadOnly())
    {
      if tabStopWidth == this.tabStopWidth {
        return;
      }
      this.tabStopWidth := tabStopWidth;
      SetConfigToSettings("global", "tab_stop_width", IntValue(tabStopWidth as int));
    }

    /// Sets whether a tab is expanded to spaces; a change is stored and
    /// written once under ("global", "is_expand_tab").
    method SetIsExpandTab(isExpandTab: bool)
      modifies this`isExpandTab, this`log
      ensures this.isExpandTab == isExpandTab
      ensures old(this.isExpandTab) == isExpandTab ==> log == old(log)
      ensures old(this.isExpandTab) != isExpandTab ==> log == old(log) + [ConfigWrite("global", "is_expand_tab", BoolValue(isExpandTab))]
      ensures Snapshot() == Set(old(Snapshot()), IsExpandTab, BoolValue(isExpandTab))
      ensures ReadOnly() == old(ReadOnly())
    {
      if isExpandTab == this.isExpandTab {
        return;
      }
      this.isExpandTab := isExpandTab;
      SetConfigToSettings("global", "is_expand_tab", BoolValue(this.isExpandTab));
    }

    /// Selects the editor background colour by name; a change is stored,
    /// written once under ("global", "current_background_color") and then
    /// the palette is refreshed once.
    method SetCurBackgroundColor(colorName: string)
      modifies this`curBackgroundColor, this`log, this`paletteRefreshes
      ensures curBackgroundColor == colorName
      ensures old(curBackgroundColor) == colorName ==> log == old(log)
      ensures old(curBackgroundColor) != colorName ==> log == old(log) + [ConfigWrite("global", "current_background_color", StringValue(colorName))]
      ensures paletteRefreshes == old(paletteRefreshes) + (if old(curBackgroundColor) == colorName then 0 else 1)
      ensures Snapshot() == Set(old(Snapshot()), CurrentBackgroundColor, StringValue(colorName))
      ensures ReadOnly() == old(ReadOnly())
    {
      ghost var before := Snapshot();
      if curBackgroundColor == colorName {
        return;
      }
      curBackgroundColor := colorName;
      SetConfigToSettings("global", "current_background_color", StringValue(curBackgroundColor));
      UpdatePaletteColor();
      assert Snapshot() == Set(before, CurrentBackgroundColor, StringValue(colorName));
    }

    /// Sets the custom background colour; a change is stored, written once
    /// under ("global", "custom_background_color") and then the palette is
    /// refreshed once.
    method SetCustomBackgroundColor(colorRgb: string)
      modifies this`customBackgroundColor, this`log, this`paletteRefreshes
      ensures customBackgroundColor == colorRgb
      ensures old(customBackgroundColor) == colorRgb ==> log == old(log)
      ensures old(customBackgroundColor) != colorRgb ==> log == old(log) + [ConfigWrite("global", "custom_background_color", StringValue(colorRgb))]
      ensures paletteRefreshes == old(paletteRefreshes) + (if old(customBackgroundColor) == colorRgb then 0 else 1)
      ensures Snapshot() == Set(old(Snapshot()), CustomBackgroundColor, StringValue(colorRgb))
      ensures ReadOnly() == old(ReadOnly())
    {
      ghost var before := Snapshot();
      if customBackgroundColor == colorRgb {
        return;
      }
      customBackgroundColor := colorRgb;
      SetConfigToSettings("global", "custom_background_color", StringValue(customBackgroundColor));
      UpdatePaletteColor();
      assert Snapshot() == Set(before, CustomBackgroundColor, StringValue(colorRgb));
    }
  }
}
