/**
 * `ImportTab.import_data` (gui.py): the column-wise transform applied to a
 * spreadsheet before it is shown. Headers are trimmed and cleared of line
 * breaks, renamed through a fixed Chinese-to-API table, checked for the
 * nineteen API fields, converted, and given a generated `itemId` per row.
 * Reading the workbook and pandas' own conversions are inputs.
 */
module ExcelImport {
  import opened PyText
  import opened Dates
  import opened DbUtils
  import opened PyDict

  /** The built-in rename table: Chinese header, API field. */
  const FieldMapping: seq<(string, string)> := [
    ("统一社会信用代码", "socialCreditCode"),
    ("企业名称", "compName"),
    ("零售点编码", "retailStoreCode"),
    ("零售点名称", "retailStoreName"),
    ("上报日期", "reportDate"),
    ("商品编码", "selfCommondityCode"),
    ("商品名称", "selfCommondityName"),
    ("单位", "unit"),
    ("规格", "spec"),
    ("条码", "barcode"),
    ("数据类型", "dataType"),
    ("数据值", "dataValue"),
    ("转换标志", "dataConvertFlag"),
    ("供应商编码", "supplierCode"),
    ("供应商名称", "supplierName"),
    ("生产商名称", "manufatureName"),
    ("产地编码", "originCode"),
    ("产地名称", "originName"),
    ("场景标志", "sceneflag")
  ]

  /** The table's Chinese headers are distinct. */
  lemma HeadersDistinct()
    ensures forall i, j :: 0 <= i < j < |FieldMapping| ==> FieldMapping[i].0 != FieldMapping[j].0
  {
  }

  /** The table's API fields are distinct. */
  lemma ApiFieldsDistinct()
    ensures forall i, j :: 0 <= i < j < |FieldMapping| ==> FieldMapping[i].1 != FieldMapping[j].1
  {
  }

  /** No API field is also a Chinese header. */
  lemma ApiFieldsAreNotHeaders()
    ensures forall i, j :: 0 <= i < |FieldMapping| && 0 <= j < |FieldMapping| ==> FieldMapping[i].1 != FieldMapping[j].0
  {
  }

  /** `{v: k for k, v in table.items()}` as a list of pairs. */
  function Swapped(table: seq<(string, string)>): (r: seq<(string, string)>)
    ensures |r| == |table| && forall k :: 0 <= k < |table| ==> r[k] == (table[k].1, table[k].0)
  {
    seq(|table|, k requires 0 <= k < |table| => (table[k].1, table[k].0))
  }

  /** `df.columns.str.strip().str.replace('\n', '').str.replace('\r', '')` on one header. */
  function CleanHeader(h: string): (r: string)
    ensures '\n' !in r && '\r' !in r
    ensures r == [] || (!IsSpace(r[0]) && !IsSpace(r[|r| - 1]))
  {
    var s := Strip(h);
    RemoveLineBreaks(s);
    RemoveChar(RemoveChar(s, '\n'), '\r')
  }

  /** Removing line breaks from a stripped string keeps its two ends, which are not whitespace. */
  lemma RemoveLineBreaks(s: string)
    requires s == [] || (!IsSpace(s[0]) && !IsSpace(s[|s| - 1]))
    ensures var r := RemoveChar(RemoveChar(s, '\n'), '\r');
            '\n' !in r && (r == [] || (!IsSpace(r[0]) && !IsSpace(r[|r| - 1])))
  {
    var t := RemoveChar(s, '\n');
    RemoveCharMembers(t, '\r', '\n');
    if s != [] {
      RemoveCharKeepsEnds(s, '\n');
      RemoveCharKeepsEnds(t, '\r');
    }
  }

  /** Cleaning an already cleaned header changes nothing. */
  lemma CleanHeaderIdempotent(h: string)
    ensures CleanHeader(CleanHeader(h)) == CleanHeader(h)
  {
    StripTrimmed(CleanHeader(h));
  }

  /** `df.rename(columns=field_mapping)` on one cleaned header: a header the table does not list is kept. */
  function RenameColumn(h: string): string {
    match Lookup(FieldMapping, h)
    case Some(api) => api
    case None => h
  }

  /** A column ends up as API field k exactly when its cleaned header is field k's Chinese name or the API name itself. */
  lemma RenamedTo(h: string, k: nat)
    requires k < |FieldMapping|
    ensures RenameColumn(h) == FieldMapping[k].1 <==> h == FieldMapping[k].0 || h == FieldMapping[k].1
  {
    if h == FieldMapping[k].0 {
      HeadersDistinct();
      LookupAt(FieldMapping, k);
    } else if h == FieldMapping[k].1 {
      ApiFieldsAreNotHeaders();
    } else {
      ApiFieldsDistinct();
    }
  }

  /** The column names after cleaning and renaming. */
  function Columns(headers: seq<string>): (cols: seq<string>)
    ensures |cols| == |headers|
  {
    seq(|headers|, i requires 0 <= i < |headers| => RenameColumn(CleanHeader(headers[i])))
  }

  /** `set(field_mapping.values())` */
  function ApiNames(): set<string> {
    set k | 0 <= k < |FieldMapping| :: FieldMapping[k].1
  }

  /** `required_fields - set(df.columns)` */
  function MissingFields(cols: seq<string>): set<string> {
    set f | f in ApiNames() && f !in cols
  }

  /** `reverse_mapping[f]` */
  function ChineseName(f: string): (c: string)
    requires f in ApiNames()
  {
    Lookup(Swapped(FieldMapping), f).value
  }

  /** The reverse lookup gives each API field back its own Chinese header. */
  lemma ChineseNameAt(k: nat)
    requires k < |FieldMapping|
    ensures ChineseName(FieldMapping[k].1) == FieldMapping[k].0
  {
    ApiFieldsDistinct();
    LookupAt(Swapped(FieldMapping), k);
  }

  /** The Chinese names the refusal lists (the order of a Python set is left open). */
  function MissingNames(headers: seq<string>): set<string> {
    set f | f in MissingFields(Columns(headers)) :: ChineseName(f)
  }

  /** Some header of the sheet cleans to field k's Chinese name or to its API name. */
  predicate Supplied(headers: seq<string>, k: nat)
    requires k < |FieldMapping|
  {
    exists i :: 0 <= i < |headers| && CleanHeader(headers[i]) in {FieldMapping[k].0, FieldMapping[k].1}
  }

  /** API field k is among the columns exactly when some header supplies it. */
  lemma SuppliedColumn(headers: seq<string>, k: nat)
    requires k < |FieldMapping|
    ensures FieldMapping[k].1 in Columns(headers) <==> Supplied(headers, k)
  {
    var cols := Columns(headers);
    if FieldMapping[k].1 in cols {
      var i :| 0 <= i < |cols| && cols[i] == FieldMapping[k].1;
      RenamedTo(CleanHeader(headers[i]), k);
    }
    if Supplied(headers, k) {
      var i :| 0 <= i < |headers| && CleanHeader(headers[i]) in {FieldMapping[k].0, FieldMapping[k].1};
      RenamedTo(CleanHeader(headers[i]), k);
      assert cols[i] == FieldMapping[k].1;
    }
  }

  /** Field k's Chinese name is listed exactly when no header supplies the field. */
  lemma MissingNameAt(headers: seq<string>, k: nat)
    requires k < |FieldMapping|
    ensures FieldMapping[k].0 in MissingNames(headers) <==> !Supplied(headers, k)
  {
    var cols := Columns(headers);
    SuppliedColumn(headers, k);
    ChineseNameAt(k);
    if FieldMapping[k].0 in MissingNames(headers) {
      var g :| g in MissingFields(cols) && ChineseName(g) == FieldMapping[k].0;
      var j :| 0 <= j < |FieldMapping| && FieldMapping[j].1 == g;
      ChineseNameAt(j);
      SameHeaderSameField(j, k);
      assert FieldMapping[k].1 !in cols;
    }
    if !Supplied(headers, k) {
      assert FieldMapping[k].1 in ApiNames();
      assert FieldMapping[k].1 in MissingFields(cols);
      assert ChineseName(FieldMapping[k].1) in MissingNames(headers);
    }
  }

  /** Two rows of the table with the same Chinese header are the same row. */
  lemma SameHeaderSameField(j: nat, k: nat)
    requires j < |FieldMapping| && k < |FieldMapping| && FieldMapping[j].0 == FieldMapping[k].0
    ensures j == k
  {
    HeadersDistinct();
  }

  /** Only Chinese names of the table are listed. */
  lemma MissingNamesAreHeaders(headers: seq<string>, c: string)
    requires c in MissingNames(headers)
    ensures exists k :: 0 <= k < |FieldMapping| && FieldMapping[k].0 == c
  {
    var g :| g in MissingFields(Columns(headers)) && ChineseName(g) == c;
    var j :| 0 <= j < |FieldMapping| && FieldMapping[j].1 == g;
    ChineseNameAt(j);
  }

  /**
   * The refusal lists exactly the Chinese names of the fields no header
   * supplies, and nothing else.
   */
  lemma MissingNamesExactly(headers: seq<string>)
    ensures forall k :: 0 <= k < |FieldMapping| ==> (FieldMapping[k].0 in MissingNames(headers) <==> !Supplied(headers, k))
    ensures forall c :: c in MissingNames(headers) ==> exists k :: 0 <= k < |FieldMapping| && FieldMapping[k].0 == c
  {
    forall k | 0 <= k < |FieldMapping|
      ensures FieldMapping[k].0 in MissingNames(headers) <==> !Supplied(headers, k)
    {
      MissingNameAt(headers, k);
    }
    forall c | c in MissingNames(headers)
      ensures exists k :: 0 <= k < |FieldMapping| && FieldMapping[k].0 == c
    {
      MissingNamesAreHeaders(headers, c);
    }
  }

  // ----- itemId -----

  /** `'YN' + reportDate.str.replace('-', '') + str(index).zfill(6)` for a row with date `d` at index `i`. */
  function ItemId(d: Date, i: nat): string
    requires ValidDate(d)
  {
    "YN" + RemoveChar(FormatDate(d), '-') + ZFill(Decimal(i), 6)
  }

  /** Without its dashes a formatted date is the eight digits of year, month and day. */
  lemma DateDigits(d: Date)
    requires ValidDate(d)
    ensures RemoveChar(FormatDate(d), '-') == Pad4(d.year) + Pad2(d.month) + Pad2(d.day)
  {
    var y, m, dd := Pad4(d.year), Pad2(d.month), Pad2(d.day);
    NoDash(y);
    NoDash(m);
    NoDash(dd);
    RemoveCharAppend(y + "-" + m + "-", dd, '-');
    RemoveCharAppend(y + "-" + m, "-", '-');
    RemoveCharAppend(y + "-", m, '-');
    RemoveCharAppend(y, "-", '-');
  }

  lemma NoDash(s: string)
    requires AllDigits(s)
    ensures RemoveChar(s, '-') == s
  {
    assert '-' !in s;
  }

  /** Where the date and the index sit in an itemId. */
  lemma ItemIdParts(d: Date, i: nat)
    requires ValidDate(d)
    ensures var a := ItemId(d, i);
            |a| >= 10 && a[2..6] == Pad4(d.year) && a[6..8] == Pad2(d.month) && a[8..10] == Pad2(d.day)
            && a[10..] == ZFill(Decimal(i), 6)
  {
    DateDigits(d);
    var y, m, dd, z := Pad4(d.year), Pad2(d.month), Pad2(d.day), ZFill(Decimal(i), 6);
    var a := ItemId(d, i);
    var digits := y + m + dd;
    assert a == ("YN" + digits) + z;
    assert a[10..] == z;
    assert a[2..10] == digits;
    assert a[2..6] == digits[..4] == y;
    assert a[6..8] == digits[4..6] == m;
    assert a[8..10] == digits[6..] == dd;
  }

  /** Two rows share an itemId only when they have the same index and the same date, whatever the number of rows. */
  lemma ItemIdInjective(d1: Date, i: nat, d2: Date, j: nat)
    requires ValidDate(d1) && ValidDate(d2)
    requires ItemId(d1, i) == ItemId(d2, j)
    ensures i == j && d1 == d2
  {
    ItemIdParts(d1, i);
    ItemIdParts(d2, j);
    ZFillDecimalInjective(i, j, 6);
    Pad4Value(d1.year);
    Pad4Value(d2.year);
    Pad2Distinct(d1.month, d2.month);
    Pad2Distinct(d1.day, d2.day);
  }

  /** Below a million rows the spreadsheet's itemId is the one the database query builds for the same date and key. */
  lemma ItemIdMatchesDatabase(d: Date, i: nat)
    requires ValidDate(d) && i < 1000000
    ensures ItemId(d, i) == DbItemId(d, i)
  {
    assert Pow10(6) == 1000000;
    DecimalAtMost(i, 6);
  }

  /** `df['itemId']`: one id per row, the row's position as index. */
  function ItemIds(dates: seq<Date>): (ids: seq<string>)
    requires forall k :: 0 <= k < |dates| ==> ValidDate(dates[k])
    ensures |ids| == |dates|
    ensures forall i, j :: 0 <= i < j < |dates| ==> ids[i] != ids[j]
  {
    var ids := seq(|dates|, i requires 0 <= i < |dates| => ItemId(dates[i], i));
    assert forall i, j :: 0 <= i < j < |dates| ==> ids[i] != ids[j] by {
      forall i, j | 0 <= i < j < |dates| ensures ids[i] != ids[j] {
        if ids[i] == ids[j] {
          ItemIdInjective(dates[i], i, dates[j], j);
        }
      }
    }
    ids
  }

  // ----- the whole transform -----

  /**
   * What pandas' conversions do to the renamed sheet: `to_datetime` and the
   * `astype` casts either raise (with the exception's text) or give the
   * report date of every row.
   */
  datatype Conversion = ConversionFails(error: string) | Converted(reportDates: seq<Date>)

  predicate WellFormedConversion(c: Conversion) {
    c.Converted? ==> forall k :: 0 <= k < |c.reportDates| ==> ValidDate(c.reportDates[k])
  }

  /**
   * How `import_data` ends. `TableRaises` is the end of every import that
   * gets past the conversions: the ids are computed, then filling
   * `self.data_table`, an attribute `ImportTab` never sets, raises
   * AttributeError, which the outer handler reports as a failed import.
   */
  datatype ImportOutcome =
    | ReadFailed
    | MissingRefused(names: set<string>)
    | ConversionRejected(error: string)
    | TableRaises(columns: seq<string>, itemIds: seq<string>)

  /** `df['itemId'] = ...` replaces an existing column in place, or appends a new one. */
  function WithItemId(cols: seq<string>): (r: seq<string>)
    ensures "itemId" in r && forall c :: c in cols ==> c in r
  {
    if "itemId" in cols then cols else cols + ["itemId"]
  }

  /** `import_data`, given the sheet's headers (None when `read_excel` raises) and the conversions' outcome. */
  function ImportData(sheet: Option<seq<string>>, conversion: Conversion): (o: ImportOutcome)
    requires WellFormedConversion(conversion)
    ensures sheet.None? <==> o == ReadFailed
    ensures o.MissingRefused? <==> sheet.Some? && exists k :: 0 <= k < |FieldMapping| && !Supplied(sheet.value, k)
    ensures o.MissingRefused? ==> o.names != {}
    ensures o.ConversionRejected? <==> sheet.Some? && (forall k :: 0 <= k < |FieldMapping| ==> Supplied(sheet.value, k)) && conversion.ConversionFails?
    ensures o.TableRaises? ==> |o.itemIds| == |conversion.reportDates| && forall c :: c in ApiNames() ==> c in o.columns
  {
    match sheet
    case None => ReadFailed
    case Some(headers) =>
      MissingNamesExactly(headers);
      var cols := Columns(headers);
      if MissingFields(cols) != {} then
        var f :| f in MissingFields(cols);
        assert ChineseName(f) in MissingNames(headers);
        MissingRefused(MissingNames(headers))
      else
        assert forall k :: 0 <= k < |FieldMapping| ==> FieldMapping[k].0 !in MissingNames(headers) by {
          forall k | 0 <= k < |FieldMapping| ensures FieldMapping[k].0 !in MissingNames(headers) {
            ChineseNameAt(k);
          }
        }
        assert forall c :: c in ApiNames() ==> c in cols by {
          forall c | c in ApiNames() ensures c in cols {
            assert c !in MissingFields(cols);
          }
        }
        match conversion
        case ConversionFails(e) => ConversionRejected(e)
        case Converted(dates) => TableRaises(WithItemId(cols), ItemIds(dates))
  }

  /** No Chinese name and no API name of the table ends with a closing parenthesis. */
  lemma NamesEndPlainly()
    ensures forall j :: 0 <= j < |FieldMapping| ==> FieldMapping[j].0 != [] && FieldMapping[j].0[|FieldMapping[j].0| - 1] != ')'
    ensures forall j :: 0 <= j < |FieldMapping| ==> FieldMapping[j].1 != [] && FieldMapping[j].1[|FieldMapping[j].1| - 1] != ')'
  {
  }

  /** The template the program writes labels each header with a hint, `'<中文名> (<apiName>)'`. */
  function TemplateHeader(k: nat): (h: string)
    requires k < |FieldMapping|
    ensures h != [] && h[|h| - 1] == ')'
  {
    FieldMapping[k].0 + " (" + FieldMapping[k].1 + ")"
  }

  /** Cleaning does not remove a hint: a header ending in ')' still does after cleaning, so it supplies no field. */
  lemma HintedHeaderSuppliesNothing(h: string, k: nat)
    requires h != [] && h[|h| - 1] == ')' && k < |FieldMapping|
    ensures CleanHeader(h) !in {FieldMapping[k].0, FieldMapping[k].1}
  {
    CleanHeaderKeepsParenthesis(h);
    ParenthesisedIsNoName(CleanHeader(h), k);
  }

  /** A text ending in ')' is neither field k's Chinese name nor its API name. */
  lemma ParenthesisedIsNoName(r: string, k: nat)
    requires r != [] && r[|r| - 1] == ')' && k < |FieldMapping|
    ensures r !in {FieldMapping[k].0, FieldMapping[k].1}
  {
    NameEndsPlainly(k);
    EndsDifferently(r, FieldMapping[k].0, FieldMapping[k].1);
  }

  /** A header ending in ')' still ends in ')' after cleaning. */
  lemma CleanHeaderKeepsParenthesis(h: string)
    requires h != [] && h[|h| - 1] == ')'
    ensures CleanHeader(h) != [] && CleanHeader(h)[|CleanHeader(h)| - 1] == ')'
  {
    StripKeepsLast(h);
    var s := Strip(h);
    RemoveCharKeepsEnds(s, '\n');
    RemoveCharKeepsEnds(RemoveChar(s, '\n'), '\r');
  }

  /** Strings whose last characters differ from that of `r` are not `r`. */
  lemma EndsDifferently(r: string, a: string, b: string)
    requires r != [] && a != [] && b != []
    requires a[|a| - 1] != r[|r| - 1] && b[|b| - 1] != r[|r| - 1]
    ensures r !in {a, b}
  {
  }

  /** Field k's Chinese name and API name both end in something other than ')'. */
  lemma NameEndsPlainly(k: nat)
    requires k < |FieldMapping|
    ensures FieldMapping[k].0 != [] && FieldMapping[k].0[|FieldMapping[k].0| - 1] != ')'
    ensures FieldMapping[k].1 != [] && FieldMapping[k].1[|FieldMapping[k].1| - 1] != ')'
  {
    NamesEndPlainly();
  }

  /** A sheet whose headers all carry the template's hints is refused, with every field reported missing. */
  lemma HintedTemplateRefused(headers: seq<string>, conversion: Conversion)
    requires forall i :: 0 <= i < |headers| ==> headers[i] != [] && headers[i][|headers[i]| - 1] == ')'
    requires WellFormedConversion(conversion)
    ensures ImportData(Some(headers), conversion).MissingRefused?
    ensures forall k :: 0 <= k < |FieldMapping| ==> FieldMapping[k].0 in MissingNames(headers)
  {
    MissingNamesExactly(headers);
    forall k | 0 <= k < |FieldMapping| ensures FieldMapping[k].0 in MissingNames(headers) {
      HintedHeadersSupplyNothing(headers, k);
    }
    HintedHeadersSupplyNothing(headers, 0);
    UnsuppliedRefused(headers, conversion, 0);
  }

  /** One field no header supplies is enough for the refusal. */
  lemma UnsuppliedRefused(headers: seq<string>, conversion: Conversion, k: nat)
    requires WellFormedConversion(conversion) && k < |FieldMapping| && !Supplied(headers, k)
    ensures ImportData(Some(headers), conversion).MissingRefused?
  {
  }

  lemma HintedHeadersSupplyNothing(headers: seq<string>, k: nat)
    requires forall i :: 0 <= i < |headers| ==> headers[i] != [] && headers[i][|headers[i]| - 1] == ')'
    requires k < |FieldMapping|
    ensures !Supplied(headers, k)
  {
    forall i | 0 <= i < |headers| ensures CleanHeader(headers[i]) !in {FieldMapping[k].0, FieldMapping[k].1} {
      HintedHeaderSuppliesNothing(headers[i], k);
    }
  }
}
