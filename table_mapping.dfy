/**
 * `TableMappingTab` (gui.py): the editor for the database-to-API field
 * mapping. It holds the table-name box, the rows of the mapping table, the
 * named configurations of `mapping_history.json`, and writes the
 * `table_mapping` entry of `config.json` that `get_retail_data` reads.
 *
 * The history combo box is modelled through its signal: `update_history_combo`
 * clears the box, which makes Qt report index -1, then adds the default entry,
 * which makes it report index 0; both reach `on_history_selected`.
 */
module TableMapping {
  import opened PyText
  import opened PyDict
  import opened DbUtils

  /** `default_mappings`: database column, API field, description. */
  const DefaultMappings: seq<(string, string, string)> := [
    ("social_credit_code", "socialCreditCode", "统一社会信用代码"),
    ("comp_name", "compName", "企业名称"),
    ("retail_store_code", "retailStoreCode", "零售点编码"),
    ("retail_store_name", "retailStoreName", "零售点名称"),
    ("report_date", "reportDate", "上报日期"),
    ("commodity_code", "selfCommondityCode", "商品编码"),
    ("commodity_name", "selfCommondityName", "商品名称"),
    ("unit", "unit", "单位"),
    ("spec", "spec", "规格"),
    ("barcode", "barcode", "条形码"),
    ("data_type", "dataType", "数据类型"),
    ("data_value", "dataValue", "数据值"),
    ("data_convert_flag", "dataConvertFlag", "数据转换标志"),
    ("standard_commodity_code", "standardCommondityCode", "标准商品编码"),
    ("standard_commodity_name", "standardCommondityName", "标准商品名称"),
    ("package_name", "packageName", "包装名称"),
    ("supplier_code", "supplierCode", "供应商编码"),
    ("supplier_name", "supplierName", "供应商名称"),
    ("manufacturer", "manufatureName", "生产厂家"),
    ("origin_code", "originCode", "产地编码"),
    ("origin_name", "originName", "产地名称"),
    ("scene_flag", "sceneflag", "场景标志")
  ]

  /** One row of the mapping table: database field, API field, description. */
  datatype Row = Row(db: string, api: string, description: string)

  /** The description of the first default mapping for `api`, or "" when there is none. */
  function Description(api: string): (d: string)
    ensures d == "" || exists k :: 0 <= k < |DefaultMappings| && DefaultMappings[k].1 == api && DefaultMappings[k].2 == d
  {
    DescriptionIn(DefaultMappings, api)
  }

  function DescriptionIn(ms: seq<(string, string, string)>, api: string): (d: string)
    ensures d == "" || exists k :: 0 <= k < |ms| && ms[k].1 == api && ms[k].2 == d
    ensures (exists k :: 0 <= k < |ms| && ms[k].1 == api) ==> exists k :: 0 <= k < |ms| && ms[k].1 == api && ms[k].2 == d
  {
    if ms == [] then ""
    else if ms[0].1 == api then ms[0].2
    else
      var d := DescriptionIn(ms[1..], api);
      assert forall k :: 1 <= k < |ms| ==> ms[k] == ms[1..][k - 1];
      d
  }

  function DefaultRows(): (rows: seq<Row>)
    ensures |rows| == |DefaultMappings|
  {
    seq(|DefaultMappings|, i requires 0 <= i < |DefaultMappings| =>
      Row(DefaultMappings[i].0, DefaultMappings[i].1, DefaultMappings[i].2))
  }

  /** The (database field, API field) pair of every row, in table order. */
  function RowPairs(rows: seq<Row>): (ps: Pairs)
    ensures |ps| == |rows| && forall i :: 0 <= i < |rows| ==> ps[i] == (rows[i].db, rows[i].api)
  {
    seq(|rows|, i requires 0 <= i < |rows| => (rows[i].db, rows[i].api))
  }

  /** The `fields` dict a save builds from the rows. */
  function FieldsOf(rows: seq<Row>): Pairs {
    FromPairs(RowPairs(rows))
  }

  /** The rows a stored `fields` dict fills the table with, each with its API field's description. */
  function RowsOf(fields: Pairs): (rows: seq<Row>)
    ensures |rows| == |fields|
  {
    seq(|fields|, i requires 0 <= i < |fields| => Row(fields[i].0, fields[i].1, Description(fields[i].1)))
  }

  /** The `table_mapping` entry of `config.json`. */
  datatype MappingConfig = MappingConfig(tableName: string, fields: Pairs)

  /** The entry as `get_retail_data` reads it. */
  function AsConfigFile(m: MappingConfig): ConfigFile {
    Loaded(Some(m.tableName), m.fields)
  }

  /** What `reset_to_default` writes: the default table and the default rows' pairs (their database fields are distinct, see DefaultFieldsAreDefaultRows). */
  const DefaultMapping := MappingConfig(DefaultTable, RowPairs(DefaultRows()))

  /** An entry of `mapping_history['configurations']`. */
  datatype NamedConfig = NamedConfig(name: string, tableName: string, fields: Pairs)

  predicate ApiMapped(rows: seq<Row>, api: string) {
    exists i :: 0 <= i < |rows| && rows[i].api == api
  }

  predicate ApisDistinct(rows: seq<Row>) {
    forall i, j :: 0 <= i < j < |rows| ==> rows[i].api != rows[j].api
  }

  /** Appending a row for an API field no row maps keeps the API fields distinct. */
  lemma AppendUnmapped(rows: seq<Row>, row: Row)
    ensures ApiMapped(rows + [row], row.api)
    ensures ApisDistinct(rows) && !ApiMapped(rows, row.api) ==> ApisDistinct(rows + [row])
  {
    assert (rows + [row])[|rows|] == row;
  }

  predicate NameTaken(configs: seq<NamedConfig>, name: string) {
    exists i :: 0 <= i < |configs| && configs[i].name == name
  }

  predicate NamesDistinct(configs: seq<NamedConfig>) {
    forall i, j :: 0 <= i < j < |configs| ==> configs[i].name != configs[j].name
  }

  /** Python's `list[i]`: a negative index counts from the end; anything else raises IndexError. */
  function PyIndex<T>(s: seq<T>, i: int): (r: Option<T>)
    ensures r.Some? <==> -|s| <= i < |s|
  {
    if 0 <= i < |s| then Some(s[i])
    else if -|s| <= i < 0 then Some(s[|s| + i])
    else None
  }

  /** The default database fields are distinct. */
  lemma DefaultDbFieldsDistinct()
    ensures forall i, j :: 0 <= i < j < |DefaultMappings| ==> DefaultMappings[i].0 != DefaultMappings[j].0
  {
  }

  /** The default API fields are distinct. */
  lemma DefaultApiFieldsDistinct()
    ensures forall i, j :: 0 <= i < j < |DefaultMappings| ==> DefaultMappings[i].1 != DefaultMappings[j].1
  {
  }

  /** The default rows have distinct database fields and distinct API fields. */
  lemma DefaultRowsDistinct()
    ensures DistinctKeys(RowPairs(DefaultRows()))
    ensures ApisDistinct(DefaultRows())
  {
    DefaultDbFieldsDistinct();
    DefaultApiFieldsDistinct();
  }

  /** Saving the default rows stores them one for one, in order. */
  lemma DefaultFieldsAreDefaultRows()
    ensures FieldsOf(DefaultRows()) == RowPairs(DefaultRows())
  {
    DefaultRowsDistinct();
    FromDistinctPairs(RowPairs(DefaultRows()));
  }

  /** A row's database field maps to its API field unless a later row reuses the database field and overwrites it. */
  lemma LaterRowWins(rows: seq<Row>, i: nat)
    requires i < |rows|
    requires forall j :: i < j < |rows| ==> rows[j].db != rows[i].db
    ensures Lookup(FieldsOf(rows), rows[i].db) == Some(rows[i].api)
  {
    FromPairsMeaning(RowPairs(rows));
    LookupAt(RowPairs(rows), i);
  }

  /** A repeated database field keeps the place of its first row: the saved keys are the rows' fields without repeats. */
  lemma SavedFieldOrder(rows: seq<Row>)
    ensures Keys(FieldsOf(rows)) == FirstOccurrences(Keys(RowPairs(rows)))
    ensures DistinctKeys(FieldsOf(rows)) && |FieldsOf(rows)| <= |rows|
  {
    FromPairsMeaning(RowPairs(rows));
  }

  /** Loading a stored configuration and saving it again writes back the same fields. */
  lemma ReloadRoundTrip(fields: Pairs)
    requires DistinctKeys(fields)
    ensures FieldsOf(RowsOf(fields)) == fields
  {
    assert RowPairs(RowsOf(fields)) == fields;
    FromDistinctPairs(fields);
  }

  /** A mapping this tab writes is used as written: its table passes the safety check and its fields are not empty. */
  lemma WrittenMappingIsUsed(m: MappingConfig, rows: seq<Row>)
    requires m.tableName != [] && IsSafeTableName(m.tableName) && rows != [] && m.fields == FieldsOf(rows)
    ensures ConfiguredTable(AsConfigFile(m).tableName) == m.tableName
    ensures !ConfigRaises(AsConfigFile(m))
  {
    var ps := RowPairs(rows);
    FromPairsMeaning(ps);
    assert Lookup(ps, ps[0].0).Some?;
  }

  datatype AddResult = Added | BlankDbField | ApiAlreadyMapped
  datatype SaveResult = MappingSaved | EmptyTableName | UnsafeTableName | NoRows | WriteFailed
  datatype NewConfigResult = NotNamed | DuplicateName | ConfigAdded
  datatype DeleteResult = DefaultUndeletable | NotConfirmed | ConfigDeleted
  datatype SelectResult = DefaultSelected(save: SaveResult) | SelectRaised | InvalidTableName | NoFields | ConfigLoaded(save: SaveResult)

  /** What `save_mapping` decides about a table-name text and a row count. */
  function SaveVerdict(text: string, rowCount: nat, writable: bool): (v: SaveResult)
    ensures v == MappingSaved <==> Strip(text) != [] && IsSafeTableName(Strip(text)) && rowCount > 0 && writable
  {
    var t := Strip(text);
    if t == [] then EmptyTableName
    else if !IsSafeTableName(t) then UnsafeTableName
    else if rowCount == 0 then NoRows
    else if !writable then WriteFailed
    else MappingSaved
  }

  /** The stripped table name of an entry when it is usable: not empty, and letters, digits and `_` only. */
  function UsableTable(c: NamedConfig): (t: Option<string>)
    ensures t.Some? <==> Strip(c.tableName) != [] && IsSafeTableName(Strip(c.tableName))
    ensures t.Some? ==> t.value == Strip(c.tableName)
  {
    var t := Strip(c.tableName);
    if t != [] && IsSafeTableName(t) then Some(t) else None
  }

  /** A usable name has no surrounding whitespace left to strip, so saving it keeps it as it is. */
  lemma UsableTableIsTrimmed(c: NamedConfig)
    requires UsableTable(c).Some?
    ensures Strip(UsableTable(c).value) == UsableTable(c).value
  {
    StripTrimmed(Strip(c.tableName));
  }

  /** The default table name has no whitespace to strip, so saving it writes it unchanged. */
  lemma DefaultTableTrimmed()
    ensures Strip(DefaultTable) == DefaultTable
  {
    StripTrimmed(DefaultTable);
  }

  /** The mapping tab's state and its editing operations. */
  class TableMappingTab {
    /** The text of the table-name box. */
    var tableName: string
    var rows: seq<Row>
    /** `mapping_history['configurations']` */
    var configurations: seq<NamedConfig>
    /** The `table_mapping` of `config.json`, None while none has been written. */
    var tableMapping: Option<MappingConfig>
    /** Whether `config.json` exists and parses, so that `open(..., 'r+')` and `json.load` succeed. */
    const configWritable: bool

    /** The table-name box and the rows hold the defaults. */
    predicate ShowsDefaults()
      reads this
    {
      tableName == DefaultTable && rows == DefaultRows()
    }

    /** `__init__`: the history combo is filled, which selects the default entry, then the defaults are loaded. */
    constructor(history: seq<NamedConfig>, writable: bool, mapping: Option<MappingConfig>)
      ensures configWritable == writable && configurations == history
      ensures ShowsDefaults()
      ensures tableMapping == if writable then Some(DefaultMapping) else mapping
    {
      configWritable := writable;
      configurations := history;
      tableName := DefaultTable;
      rows := DefaultRows();
      tableMapping := if writable then Some(DefaultMapping) else mapping;
    }

    /** `on_add` in `add_mapping`: a blank database field or an API field already in the table is refused; otherwise a row is appended. */
    method AddMapping(api: string, dbText: string) returns (r: AddResult)
      modifies this
      ensures r == Added <==> Strip(dbText) != [] && !ApiMapped(old(rows), api)
      ensures r == BlankDbField <==> Strip(dbText) == []
      ensures r == Added ==> rows == old(rows) + [Row(Strip(dbText), api, Description(api))]
      ensures r != Added ==> rows == old(rows)
      ensures ApisDistinct(old(rows)) ==> ApisDistinct(rows)
      ensures tableName == old(tableName) && configurations == old(configurations) && tableMapping == old(tableMapping)
    {
      var db := Strip(dbText);
      if db == [] {
        return BlankDbField;
      }
      var row := 0;
      while row < |rows|
        invariant 0 <= row <= |rows|
        invariant forall i :: 0 <= i < row ==> rows[i].api != api
      {
        if rows[row].api == api {
          return ApiAlreadyMapped;
        }
        row := row + 1;
      }
      var added := Row(db, api, Description(api));
      AppendUnmapped(rows, added);
      rows := rows + [added];
      r := Added;
    }

    /** `delete_mapping`: removes the selected row; -1 (no selection) or a row past the end changes nothing. */
    method DeleteMapping(currentRow: int)
      modifies this
      ensures 0 <= currentRow < |old(rows)| ==> rows == old(rows)[..currentRow] + old(rows)[currentRow + 1..]
      ensures !(0 <= currentRow < |old(rows)|) ==> rows == old(rows)
      ensures tableName == old(tableName) && configurations == old(configurations) && tableMapping == old(tableMapping)
    {
      if currentRow >= 0 && currentRow < |rows| {
        rows := rows[..currentRow] + rows[currentRow + 1..];
      }
    }

    /** The rows' `fields` dict, built as the loops of the save methods build it. */
    method CollectFields() returns (fields: Pairs)
      ensures fields == FieldsOf(rows)
    {
      fields := [];
      var row := 0;
      while row < |rows|
        invariant 0 <= row <= |rows|
        invariant fields == FieldsOf(rows[..row])
      {
        assert RowPairs(rows[..row + 1])[..row] == RowPairs(rows[..row]);
        fields := Put(fields, rows[row].db, rows[row].api);
        row := row + 1;
      }
      assert rows[..row] == rows;
    }

    /** `save_mapping`: checks the stripped table name and the row count, then writes the mapping into `config.json`. */
    method SaveMapping() returns (r: SaveResult)
      modifies this
      ensures r == SaveVerdict(old(tableName), |old(rows)|, configWritable)
      ensures r == MappingSaved ==> tableMapping == Some(MappingConfig(Strip(old(tableName)), FieldsOf(old(rows))))
      ensures r != MappingSaved ==> tableMapping == old(tableMapping)
      ensures tableName == old(tableName) && rows == old(rows) && configurations == old(configurations)
    {
      var t := Strip(tableName);
      if t == [] {
        return EmptyTableName;
      }
      if !IsSafeTableName(t) {
        return UnsafeTableName;
      }
      if |rows| == 0 {
        return NoRows;
      }
      var fields := CollectFields();
      if !configWritable {
        return WriteFailed;
      }
      tableMapping := Some(MappingConfig(t, fields));
      r := MappingSaved;
    }

    /** `reset_to_default`: the default table and rows, silently written into `config.json` when it can be. */
    method ResetToDefault()
      modifies this
      ensures ShowsDefaults()
      ensures tableMapping == if configWritable then Some(DefaultMapping) else old(tableMapping)
      ensures configurations == old(configurations)
    {
      var table: seq<Row> := [];
      var i := 0;
      while i < |DefaultMappings|
        invariant 0 <= i <= |DefaultMappings|
        invariant table == DefaultRows()[..i]
      {
        var (db, api, description) := DefaultMappings[i];
        table := table + [Row(db, api, description)];
        i := i + 1;
      }
      assert table == DefaultRows();
      tableName := DefaultTable;
      rows := table;
      var fields := CollectFields();
      DefaultFieldsAreDefaultRows();
      if configWritable {
        tableMapping := Some(MappingConfig(DefaultTable, fields));
      }
    }

    /**
     * `on_history_selected`: index 0 restores and saves the defaults; any
     * other index loads `configurations[index - 1]` (Python indexing). An
     * IndexError is caught and restores the defaults.
     */
    method OnHistorySelected(index: int) returns (r: SelectResult)
      modifies this
      ensures configurations == old(configurations)
      ensures index == 0 ==> r == DefaultSelected(SaveVerdict(DefaultTable, |DefaultRows()|, configWritable))
      ensures index == 0 || PyIndex(old(configurations), index - 1).None? ==>
                ShowsDefaults() && tableMapping == if configWritable then Some(DefaultMapping) else old(tableMapping)
      ensures index != 0 && PyIndex(old(configurations), index - 1).None? ==> r == SelectRaised
      ensures index != 0 && PyIndex(old(configurations), index - 1).Some? ==>
                var c := PyIndex(old(configurations), index - 1).value;
                && (UsableTable(c).None? || c.fields == [] ==>
                      ShowsDefaults() && tableMapping == if configWritable then Some(DefaultMapping) else old(tableMapping))
                && (UsableTable(c).None? ==> r == InvalidTableName)
                && (UsableTable(c).Some? && c.fields == [] ==> r == NoFields)
                && (UsableTable(c).Some? && c.fields != [] ==>
                      r == ConfigLoaded(SaveVerdict(UsableTable(c).value, |c.fields|, configWritable))
                      && tableName == UsableTable(c).value && rows == RowsOf(c.fields)
                      && tableMapping == if r.save == MappingSaved
                                         then Some(MappingConfig(UsableTable(c).value, FieldsOf(RowsOf(c.fields))))
                                         else old(tableMapping))
      ensures !configWritable ==> tableMapping == old(tableMapping)
    {
      if index == 0 {
        ResetToDefault();
        var saved := SaveMapping();
        DefaultTableTrimmed();
        DefaultFieldsAreDefaultRows();
        return DefaultSelected(saved);
      }
      var entry := PyIndex(configurations, index - 1);
      if entry.None? {
        ResetToDefault();
        return SelectRaised;
      }
      var t := UsableTable(entry.value);
      if t.Some? {
        UsableTableIsTrimmed(entry.value);
      }
      r := LoadConfig(t, entry.value.fields);
    }

    /**
     * The rest of `on_history_selected` for an existing entry, given the
     * entry's usable table name `t` (see `UsableTable`) and its fields: no
     * usable name, or no fields, brings the defaults back; otherwise the
     * name and the entry's rows are shown and saved.
     */
    method LoadConfig(t: Option<string>, fields: Pairs) returns (r: SelectResult)
      modifies this
      ensures configurations == old(configurations)
      ensures t.None? ==> r == InvalidTableName && ShowsDefaults()
      ensures t.Some? && fields == [] ==> r == NoFields && ShowsDefaults()
      ensures t.Some? && fields != [] ==>
                r == ConfigLoaded(SaveVerdict(t.value, |fields|, configWritable))
                && tableName == t.value && rows == RowsOf(fields)
                && tableMapping == if r.save == MappingSaved
                                   then Some(MappingConfig(Strip(t.value), FieldsOf(RowsOf(fields))))
                                   else old(tableMapping)
      ensures t.None? || fields == [] ==> tableMapping == if configWritable then Some(DefaultMapping) else old(tableMapping)
      ensures !configWritable ==> tableMapping == old(tableMapping)
    {
      if t.None? {
        ResetToDefault();
        return InvalidTableName;
      }
      tableName := t.value;
      rows := [];
      if fields == [] {
        ResetToDefault();
        return NoFields;
      }
      var saved := ShowFields(fields);
      r := ConfigLoaded(saved);
    }

    /** The loop filling the table from an entry's fields, then `save_mapping`. */
    method ShowFields(fields: Pairs) returns (saved: SaveResult)
      modifies this
      ensures configurations == old(configurations) && tableName == old(tableName)
      ensures rows == RowsOf(fields)
      ensures saved == SaveVerdict(old(tableName), |fields|, configWritable)
      ensures tableMapping == if saved == MappingSaved
                              then Some(MappingConfig(Strip(old(tableName)), FieldsOf(RowsOf(fields))))
                              else old(tableMapping)
    {
      rows := RowsOf(fields);
      saved := SaveMapping();
    }

    /**
     * `update_history_combo`: clearing the box reports index -1, adding the
     * default entry reports index 0, which shows the defaults and writes them
     * into `config.json`.
     */
    method UpdateHistoryCombo()
      modifies this
      ensures configurations == old(configurations)
      ensures ShowsDefaults()
      ensures tableMapping == if configWritable then Some(DefaultMapping) else old(tableMapping)
    {
      var cleared := OnHistorySelected(-1);
      var selected := OnHistorySelected(0);
    }

    /** `save_as_new_config`: a cancelled or empty name does nothing, a taken name is refused, otherwise the current mapping is appended under that name. */
    method SaveAsNewConfig(ok: bool, name: string) returns (r: NewConfigResult)
      modifies this
      ensures r == ConfigAdded <==> ok && name != [] && !NameTaken(old(configurations), name)
      ensures r == ConfigAdded ==> configurations == old(configurations) + [NamedConfig(name, old(tableName), FieldsOf(old(rows)))]
      ensures r == ConfigAdded ==> ShowsDefaults()
      ensures r == ConfigAdded ==> tableMapping == if configWritable then Some(DefaultMapping) else old(tableMapping)
      ensures r != ConfigAdded ==> configurations == old(configurations) && rows == old(rows) && tableName == old(tableName)
                                   && tableMapping == old(tableMapping)
      ensures NamesDistinct(old(configurations)) ==> NamesDistinct(configurations)
    {
      if !ok || name == [] {
        return NotNamed;
      }
      var i := 0;
      while i < |configurations|
        invariant 0 <= i <= |configurations|
        invariant forall k :: 0 <= k < i ==> configurations[k].name != name
      {
        if configurations[i].name == name {
          return DuplicateName;
        }
        i := i + 1;
      }
      var fields := CollectFields();
      configurations := configurations + [NamedConfig(name, tableName, fields)];
      UpdateHistoryCombo();
      r := ConfigAdded;
    }

    /** `delete_current_config`: the default entry (index 0) cannot be deleted; a confirmed deletion pops `configurations[index - 1]`. */
    method DeleteCurrentConfig(index: nat, confirmed: bool) returns (r: DeleteResult)
      requires index <= |configurations|
      modifies this
      ensures r == DefaultUndeletable <==> index == 0
      ensures r == ConfigDeleted <==> index > 0 && confirmed
      ensures r == ConfigDeleted ==> configurations == old(configurations)[..index - 1] + old(configurations)[index..]
      ensures r == ConfigDeleted ==> ShowsDefaults()
      ensures r == ConfigDeleted ==> tableMapping == if configWritable then Some(DefaultMapping) else old(tableMapping)
      ensures r != ConfigDeleted ==> configurations == old(configurations) && rows == old(rows) && tableName == old(tableName)
                                     && tableMapping == old(tableMapping)
    {
      if index == 0 {
        return DefaultUndeletable;
      }
      if !confirmed {
        return NotConfirmed;
      }
      configurations := configurations[..index - 1] + configurations[index..];
      UpdateHistoryCombo();
      r := ConfigDeleted;
    }
  }

  /** Deleting one entry of a list with distinct names removes exactly that name. */
  lemma DeletionRemovesName(configs: seq<NamedConfig>, index: nat)
    requires 0 < index <= |configs| && NamesDistinct(configs)
    ensures !NameTaken(configs[..index - 1] + configs[index..], configs[index - 1].name)
    ensures forall k :: 0 <= k < |configs| && k != index - 1 ==> NameTaken(configs[..index - 1] + configs[index..], configs[k].name)
  {
    var rest := configs[..index - 1] + configs[index..];
    assert forall k :: 0 <= k < |rest| ==> rest[k] == if k < index - 1 then configs[k] else configs[k + 1];
    forall k | 0 <= k < |configs| && k != index - 1 ensures NameTaken(rest, configs[k].name) {
      if k < index - 1 {
        assert rest[k] == configs[k];
      } else {
        assert rest[k - 1] == configs[k];
      }
    }
  }
}
