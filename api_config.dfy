/**
 * The API field configuration tab (`APIConfigTab`, gui.py): named lists of
 * API fields kept in `api_config_history.json`, shown one at a time in a
 * three-column table and chosen from a combo box whose first entry is the
 * reserved default configuration.
 */
module ApiConfig {
  import opened PyText

  /** One entry of a field list; `description` is None when the entry has no `description` key. */
  datatype ApiField = ApiField(name: string, apiField: string, fieldType: string, required: bool, description: Option<string>)

  /** An entry of `config_history['configurations']`. */
  datatype NamedFields = NamedFields(name: string, fields: seq<ApiField>)

  /** A row of the configuration table: name, API field name and the description text. */
  datatype TableRow = TableRow(name: string, apiField: string, description: string)

  /** `api_config.json`: absent, present but not readable as a field list, or holding a `fields` list. */
  datatype ApiConfigFile = Missing | Unreadable | Holds(fields: seq<ApiField>)

  datatype SaveOutcome = NotNamed | ReservedName | DuplicateName | CellMissing | ConfigStored
  datatype DeleteOutcome = DefaultUndeletable | NotConfirmed | ConfigDeleted

  const DefaultName := "默认配置"
  const RequiredTag := "[必填] "
  const NoDescription := "必填字段"

  function Names(configs: seq<NamedFields>): (ns: seq<string>)
    ensures |ns| == |configs| && forall i :: 0 <= i < |configs| ==> ns[i] == configs[i].name
  {
    seq(|configs|, i requires 0 <= i < |configs| => configs[i].name)
  }

  /** The field's description, or a fixed text when it has none. */
  function DescriptionOrDefault(f: ApiField): string {
    if f.description.Some? then f.description.value else NoDescription
  }

  /** The description cell: the description behind a tag for a required field, the description alone otherwise. */
  function DescriptionText(f: ApiField): (d: string)
    ensures f.required ==> |d| == |RequiredTag| + |DescriptionOrDefault(f)| && d[..|RequiredTag|] == RequiredTag
                           && d[|RequiredTag|..] == DescriptionOrDefault(f)
    ensures !f.required ==> d == DescriptionOrDefault(f)
  {
    if f.required then RequiredTag + DescriptionOrDefault(f) else DescriptionOrDefault(f)
  }

  function RowOf(f: ApiField): TableRow {
    TableRow(f.name, f.apiField, DescriptionText(f))
  }

  /** The rows `display_config` fills in: one per field, in order; an empty list shows the default fields. */
  function Displayed(defaults: seq<ApiField>, fields: seq<ApiField>): (rows: seq<TableRow>)
    ensures var shown := if fields == [] then defaults else fields;
            |rows| == |shown| && forall i :: 0 <= i < |shown| ==> rows[i] == RowOf(shown[i])
  {
    var shown := if fields == [] then defaults else fields;
    seq(|shown|, i requires 0 <= i < |shown| => RowOf(shown[i]))
  }

  /** The default fields are never empty, so the table always has a row once it has been displayed. */
  lemma DisplayedIsNeverEmpty(defaults: seq<ApiField>, fields: seq<ApiField>)
    requires defaults != []
    ensures |Displayed(defaults, fields)| > 0
  {
  }

  /** The configuration list with the default entry put in front when no entry bears the reserved name. */
  function WithDefault(configs: seq<NamedFields>, defaults: seq<ApiField>): (r: seq<NamedFields>)
    ensures DefaultName in Names(r)
    ensures DefaultName in Names(configs) ==> r == configs
    ensures DefaultName !in Names(configs) ==> r == [NamedFields(DefaultName, defaults)] + configs
  {
    if DefaultName in Names(configs) then configs
    else
      var r := [NamedFields(DefaultName, defaults)] + configs;
      assert Names(r)[0] == DefaultName;
      r
  }

  /** Putting the default in place twice is putting it in place once. */
  lemma WithDefaultIdempotent(configs: seq<NamedFields>, defaults: seq<ApiField>)
    ensures WithDefault(WithDefault(configs, defaults), defaults) == WithDefault(configs, defaults)
  {
  }

  /** `[config for config in configs if config['name'] != name]` */
  function Without(configs: seq<NamedFields>, name: string): (r: seq<NamedFields>)
    ensures |r| <= |configs|
  {
    if configs == [] then []
    else
      var init := Without(configs[..|configs| - 1], name);
      if configs[|configs| - 1].name == name then init else init + [configs[|configs| - 1]]
  }

  /** Filtering by name removes exactly the entries of that name and keeps every other entry. */
  lemma {:induction false} WithoutMeaning(configs: seq<NamedFields>, name: string)
    ensures forall c :: c in Without(configs, name) <==> c in configs && c.name != name
  {
    if configs != [] {
      var init := configs[..|configs| - 1];
      WithoutMeaning(init, name);
      assert configs == init + [configs[|configs| - 1]];
    }
  }

  /** Filtering out a name other than the reserved one keeps the default entry. */
  lemma WithoutKeepsDefault(configs: seq<NamedFields>, name: string)
    requires name != DefaultName && DefaultName in Names(configs)
    ensures DefaultName in Names(Without(configs, name))
    ensures name !in Names(Without(configs, name))
  {
    WithoutMeaning(configs, name);
    var k :| 0 <= k < |configs| && Names(configs)[k] == DefaultName;
    assert configs[k] in Without(configs, name);
  }

  /** The index of the first entry with the given name, or the length when there is none: where the selection loop stops. */
  function FirstNamed(configs: seq<NamedFields>, name: string): (k: nat)
    ensures k <= |configs|
    ensures k < |configs| ==> configs[k].name == name
    ensures forall j :: 0 <= j < k ==> configs[j].name != name
  {
    if configs == [] || configs[0].name == name then 0 else 1 + FirstNamed(configs[1..], name)
  }

  /** The fields `on_config_selected` hands to `display_config` for a combo text, if any. */
  function Selection(defaults: seq<ApiField>, configs: seq<NamedFields>, text: string): (r: Option<seq<ApiField>>)
    ensures r.None? <==> text != DefaultName && text !in Names(configs)
    ensures text == DefaultName ==> r == Some(defaults)
  {
    if text == DefaultName then Some(defaults)
    else
      var k := FirstNamed(configs, text);
      if k < |configs| then Some(configs[k].fields) else None
  }

  /** The entry a combo text selects is the first one of that name in the list. */
  lemma SelectionIsFirstNamed(defaults: seq<ApiField>, configs: seq<NamedFields>, k: nat)
    requires k < |configs| && configs[k].name != DefaultName
    requires forall j :: 0 <= j < k ==> configs[j].name != configs[k].name
    ensures Selection(defaults, configs, configs[k].name) == Some(configs[k].fields)
  {
  }

  /** `APIConfigTab`: the configuration history, the combo box, the table and the two files. */
  class ApiConfigTab {
    /** `config_history['configurations']` */
    var configurations: seq<NamedFields>
    /** The combo box's item texts and its current index (-1 when it is empty). */
    var comboItems: seq<string>
    var currentIndex: int
    /** The rows of `config_table`; the fourth column is never filled. */
    var table: seq<TableRow>
    /** `api_config_history.json`: None while it is absent or unreadable. */
    var historyFile: Option<seq<NamedFields>>
    var apiConfigFile: ApiConfigFile
    /** What `get_default_fields` returns. */
    const defaults: seq<ApiField>
    /** Whether files in the working directory can be written. */
    const writable: bool

    /** The combo box agrees with the history, which holds the default entry, and an entry is selected. */
    predicate Valid()
      reads this
    {
      && defaults != []
      && comboItems == Names(configurations)
      && DefaultName in comboItems
      && 0 <= currentIndex < |comboItems|
    }

    /** `currentText()`: the selected item's text, or empty when nothing is selected. */
    function CurrentText(): (t: string)
      reads this
      ensures 0 <= currentIndex < |comboItems| ==> t == comboItems[currentIndex]
    {
      if 0 <= currentIndex < |comboItems| then comboItems[currentIndex] else ""
    }

    /**
     * `__init__`: the history is loaded (an absent or unreadable file gives
     * an empty list), then `load_current_config` and `update_config_list`
     * run; the second selects the first entry.
     */
    constructor(file: Option<seq<NamedFields>>, apiFile: ApiConfigFile, defaultFields: seq<ApiField>, canWrite: bool)
      requires defaultFields != []
      ensures Valid() && defaults == defaultFields && writable == canWrite
      ensures var loaded := if file.Some? then file.value else [];
              && configurations == WithDefault(loaded, defaultFields)
              && historyFile == if DefaultName !in Names(loaded) && canWrite then Some(configurations) else file
      ensures apiConfigFile == if apiFile.Missing? && canWrite then Holds(defaultFields) else apiFile
      ensures currentIndex == 0
      ensures table == Displayed(defaults, Selection(defaults, configurations, configurations[0].name).value)
      ensures |table| > 0
    {
      defaults := defaultFields;
      writable := canWrite;
      configurations := if file.Some? then file.value else [];
      historyFile := file;
      apiConfigFile := apiFile;
      comboItems := [];
      currentIndex := -1;
      table := [];
      new;
      LoadCurrentConfig();
      UpdateConfigList();
      DisplayedIsNeverEmpty(defaults, Selection(defaults, configurations, configurations[0].name).value);
    }

    /** `save_config_history`: writes the list when the file can be written; a failure only warns. */
    method SaveConfigHistory()
      modifies this
      ensures historyFile == if writable then Some(configurations) else old(historyFile)
      ensures configurations == old(configurations) && comboItems == old(comboItems) && currentIndex == old(currentIndex)
      ensures table == old(table) && apiConfigFile == old(apiConfigFile)
    {
      if writable {
        historyFile := Some(configurations);
      }
    }

    /** `display_config`: one row per field, the default fields when the list is empty. */
    method DisplayConfig(fields: seq<ApiField>)
      modifies this
      ensures table == Displayed(defaults, fields)
      ensures configurations == old(configurations) && comboItems == old(comboItems) && currentIndex == old(currentIndex)
      ensures historyFile == old(historyFile) && apiConfigFile == old(apiConfigFile)
    {
      var shown := if fields == [] then defaults else fields;
      var rows: seq<TableRow> := [];
      var i := 0;
      while i < |shown|
        invariant 0 <= i <= |shown|
        invariant |rows| == i && forall k :: 0 <= k < i ==> rows[k] == RowOf(shown[k])
      {
        rows := rows + [TableRow(shown[i].name, shown[i].apiField, DescriptionText(shown[i]))];
        i := i + 1;
      }
      table := rows;
    }

    /**
     * `load_current_config`: shows the fields of `api_config.json`, or the
     * default fields when it has none or is absent (then the defaults are
     * written to it); then puts the default entry in front of the history
     * when it is missing. An unreadable file, or an absent one that cannot
     * be written, ends it early.
     */
    method LoadCurrentConfig()
      requires defaults != []
      modifies this
      ensures apiConfigFile == if old(apiConfigFile).Missing? && writable then Holds(defaults) else old(apiConfigFile)
      ensures var fails := old(apiConfigFile).Unreadable? || (old(apiConfigFile).Missing? && !writable);
              && (fails ==> configurations == old(configurations) && table == old(table) && historyFile == old(historyFile)
                            && comboItems == old(comboItems) && currentIndex == old(currentIndex))
              && (!fails && DefaultName in Names(old(configurations)) ==>
                    configurations == old(configurations) && historyFile == old(historyFile)
                    && comboItems == old(comboItems) && currentIndex == old(currentIndex)
                    && table == Displayed(defaults, if old(apiConfigFile).Holds? then old(apiConfigFile).fields else defaults))
              && (!fails && DefaultName !in Names(old(configurations)) ==>
                    configurations == WithDefault(old(configurations), defaults) && Valid() && currentIndex == 0
                    && historyFile == (if writable then Some(configurations) else old(historyFile))
                    && table == Displayed(defaults, Selection(defaults, configurations, configurations[0].name).value))
    {
      var fields: seq<ApiField>;
      match apiConfigFile {
        case Unreadable =>
          return;
        case Missing =>
          if !writable {
            return;
          }
          fields := defaults;
          apiConfigFile := Holds(defaults);
        case Holds(fs) =>
          fields := if fs == [] then defaults else fs;
      }
      DisplayConfig(fields);
      if DefaultName !in Names(configurations) {
        configurations := [NamedFields(DefaultName, defaults)] + configurations;
        SaveConfigHistory();
        UpdateConfigList();
      }
    }

    /**
     * `on_config_selected`: for a real index, the reserved name shows the
     * default fields and any other text the fields of the first entry of
     * that name (the defaults when it has none); a text no entry bears
     * changes nothing.
     */
    method OnConfigSelected(index: int)
      modifies this
      ensures var s := Selection(defaults, configurations, old(CurrentText()));
              table == if index >= 0 && s.Some? then Displayed(defaults, s.value) else old(table)
      ensures configurations == old(configurations) && comboItems == old(comboItems) && currentIndex == old(currentIndex)
      ensures historyFile == old(historyFile) && apiConfigFile == old(apiConfigFile)
    {
      if index < 0 {
        return;
      }
      var configName := CurrentText();
      if configName == DefaultName {
        DisplayConfig(defaults);
      } else {
        var k := FirstNamed(configurations, configName);
        if k < |configurations| {
          var fields := configurations[k].fields;
          if fields == [] {
            fields := defaults;
          }
          DisplayConfig(fields);
        }
      }
    }

    /**
     * `update_config_list`: clearing the combo reports index -1; the default
     * entry is put in front of the history when missing and saved; adding the
     * first name reports index 0, which shows the first entry.
     */
    method UpdateConfigList()
      requires defaults != []
      modifies this
      ensures configurations == WithDefault(old(configurations), defaults)
      ensures historyFile == if DefaultName !in Names(old(configurations)) && writable then Some(configurations) else old(historyFile)
      ensures Valid() && currentIndex == 0
      ensures table == Displayed(defaults, Selection(defaults, configurations, configurations[0].name).value)
      ensures apiConfigFile == old(apiConfigFile)
    {
      comboItems := [];
      currentIndex := -1;
      OnConfigSelected(-1);
      if DefaultName !in Names(configurations) {
        configurations := [NamedFields(DefaultName, defaults)] + configurations;
        assert Names(configurations)[0] == DefaultName;
        SaveConfigHistory();
      }
      RefillCombo();
    }

    /** The `addItem` loop of `update_config_list`: only the first item added changes the selection, to index 0. */
    method RefillCombo()
      requires defaults != [] && configurations != [] && DefaultName in Names(configurations)
      modifies this
      ensures configurations == old(configurations) && historyFile == old(historyFile) && apiConfigFile == old(apiConfigFile)
      ensures comboItems == Names(configurations) && currentIndex == 0
      ensures table == Displayed(defaults, Selection(defaults, configurations, configurations[0].name).value)
    {
      var names := Names(configurations);
      var first := configurations[0].name;
      comboItems := [first];
      currentIndex := 0;
      assert CurrentText() == first;
      OnConfigSelected(0);
      var items := [first];
      var i := 1;
      while i < |names|
        invariant 1 <= i <= |names|
        invariant items == names[..i]
      {
        items := items + [names[i]];
        i := i + 1;
      }
      assert items == names by {
        assert names[..|names|] == names;
      }
      comboItems := items;
    }

    /**
     * `save_as_new_config`: a cancelled or empty name does nothing, the
     * reserved name and a name already in the combo are refused. Collecting
     * the table reads the never-filled fourth column of the first row, which
     * raises, so only an empty table lets a new, field-less entry be stored
     * and selected.
     */
    method SaveAsNewConfig(ok: bool, name: string) returns (r: SaveOutcome)
      requires Valid()
      modifies this
      ensures Valid()
      ensures r == NotNamed <==> !ok || name == []
      ensures r == ReservedName <==> ok && name == DefaultName
      ensures r == DuplicateName <==> ok && name != [] && name != DefaultName && name in old(comboItems)
      ensures r == CellMissing <==> ok && name != [] && name != DefaultName && name !in old(comboItems) && |old(table)| > 0
      ensures r != ConfigStored ==> configurations == old(configurations) && comboItems == old(comboItems)
                                    && currentIndex == old(currentIndex) && table == old(table) && historyFile == old(historyFile)
      ensures r == ConfigStored ==>
                && configurations == old(configurations) + [NamedFields(name, [])]
                && historyFile == (if writable then Some(configurations) else old(historyFile))
                && currentIndex == |configurations| - 1 && CurrentText() == name
                && table == Displayed(defaults, defaults)
      ensures |old(table)| > 0 ==> |table| > 0 && r != ConfigStored
      ensures apiConfigFile == old(apiConfigFile)
    {
      if !ok || name == [] {
        return NotNamed;
      }
      if name == DefaultName {
        return ReservedName;
      }
      if name in comboItems {
        return DuplicateName;
      }
      if |table| > 0 {
        return CellMissing;
      }
      StoreNewConfig(name);
      r := ConfigStored;
    }

    /** The end of `save_as_new_config` for an empty table: append, save, refill the combo, select the new name. */
    method StoreNewConfig(name: string)
      requires Valid() && name != DefaultName && name !in comboItems
      modifies this
      ensures Valid()
      ensures configurations == old(configurations) + [NamedFields(name, [])]
      ensures historyFile == (if writable then Some(configurations) else old(historyFile))
      ensures currentIndex == |configurations| - 1 && CurrentText() == name
      ensures table == Displayed(defaults, defaults)
      ensures apiConfigFile == old(apiConfigFile)
    {
      configurations := configurations + [NamedFields(name, [])];
      SaveConfigHistory();
      ghost var stored := configurations;
      assert Names(stored) == Names(old(configurations)) + [name];
      UpdateConfigList();
      var k := |comboItems| - 1;
      assert comboItems[k] == name;
      if k != currentIndex {
        currentIndex := k;
        OnConfigSelected(k);
      }
    }

    /**
     * `delete_current_config`: the entry shown under the reserved name cannot
     * be deleted; a confirmed deletion drops every entry bearing the current
     * name, saves the history and refills the combo.
     */
    method DeleteCurrentConfig(confirmed: bool) returns (r: DeleteOutcome)
      requires Valid()
      modifies this
      ensures Valid()
      ensures r == DefaultUndeletable <==> old(CurrentText()) == DefaultName
      ensures r == ConfigDeleted <==> old(CurrentText()) != DefaultName && confirmed
      ensures r == ConfigDeleted ==>
                && configurations == Without(old(configurations), old(CurrentText()))
                && historyFile == (if writable then Some(configurations) else old(historyFile))
                && currentIndex == 0
                && table == Displayed(defaults, Selection(defaults, configurations, configurations[0].name).value)
      ensures r != ConfigDeleted ==> configurations == old(configurations) && comboItems == old(comboItems)
                                     && currentIndex == old(currentIndex) && table == old(table) && historyFile == old(historyFile)
      ensures |old(table)| > 0 ==> |table| > 0
      ensures apiConfigFile == old(apiConfigFile)
    {
      var current := CurrentText();
      if current == DefaultName {
        return DefaultUndeletable;
      }
      if !confirmed {
        return NotConfirmed;
      }
      WithoutKeepsDefault(configurations, current);
      configurations := Without(configurations, current);
      SaveConfigHistory();
      UpdateConfigList();
      DisplayedIsNeverEmpty(defaults, Selection(defaults, configurations, configurations[0].name).value);
      r := ConfigDeleted;
    }
  }
}
