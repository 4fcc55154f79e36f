/**
 * `DataValidator` (utils/validator.py): the rule chain for one retail record
 * and the batch check that collects every failing record.
 */
module Validator {
  import opened PyText
  import opened Dates
  import opened Values

  /** The twelve required API fields with the Chinese names used in messages, in the dict's order. */
  const RequiredFields: seq<(string, string)> := [
    ("socialCreditCode", "统一社会信用代码"),
    ("compName", "企业名称"),
    ("retailStoreCode", "零售点编码"),
    ("retailStoreName", "零售点名称"),
    ("reportDate", "上报日期"),
    ("selfCommondityCode", "商品编码"),
    ("selfCommondityName", "商品名称"),
    ("unit", "单位"),
    ("spec", "规格"),
    ("barcode", "条码"),
    ("dataType", "数据类型"),
    ("dataValue", "数据值")
  ]

  const EmptySuffix := "不能为空"
  const DateFormatError := "日期格式错误，应为YYYY-MM-DD"
  const DataTypeNotInt := "数据类型必须是整数"
  const DataTypeOutOfRange := "数据类型必须是1,2,3,4之一"
  const DataValueNotNumber := "数据值必须是数字"
  const DataValueNegative := "数据值不能为负数"

  /** Outcome of `validate_retail_data`: None, an error message, or an escaping TypeError. */
  datatype Check = Pass | Fail(message: string) | Raises

  /** `field in data and data[field]` */
  predicate Present(r: Record, field: string) {
    field in r && Truthy(r[field])
  }

  /** The Chinese name of the first field of `fields` that is absent or falsy. */
  function FirstMissing(r: Record, fields: seq<(string, string)>): (m: Option<string>)
    ensures m.None? <==> forall k :: 0 <= k < |fields| ==> Present(r, fields[k].0)
    ensures m.Some? ==> exists k :: 0 <= k < |fields| && fields[k].1 == m.value
                                     && !Present(r, fields[k].0)
                                     && forall j :: 0 <= j < k ==> Present(r, fields[j].0)
  {
    if fields == [] then None
    else if !Present(r, fields[0].0) then Some(fields[0].1)
    else
      var m := FirstMissing(r, fields[1..]);
      if m.Some? then
        var k :| 0 <= k < |fields[1..]| && fields[1..][k].1 == m.value && !Present(r, fields[1..][k].0)
                 && forall j :: 0 <= j < k ==> Present(r, fields[1..][j].0);
        assert fields[k + 1].1 == m.value && forall j :: 0 <= j < k + 1 ==> Present(r, fields[j].0) by {
          forall j | 0 <= j < k + 1 ensures Present(r, fields[j].0) {
            if j > 0 { assert fields[j] == fields[1..][j - 1]; }
          }
        }
        m
      else
        assert forall k :: 1 <= k < |fields| ==> fields[k] == fields[1..][k - 1];
        m
  }

  /** The record passes every rule: stated as one conjunction, independently of the rule chain. */
  predicate Acceptable(r: Record) {
    && (forall k :: 0 <= k < |RequiredFields| ==> Present(r, RequiredFields[k].0))
    && "reportDate" in r && "dataType" in r && "dataValue" in r
    && r["reportDate"].VStr? && StrpTime(r["reportDate"].s).Some?
    && IsPyInt(r["dataType"]) && 1 <= IntValue(r["dataType"]) <= 4
    && IsPyNumber(r["dataValue"]) && NumberValue(r["dataValue"]) >= 0.0
  }

  /**
   * `validate_retail_data`: the required-field check first (first missing
   * field in the listed order), then the date, the type of `dataType`, its
   * range, the type of `dataValue` and its sign. A `reportDate` that is not
   * a `str` makes `strptime` raise TypeError, which the `except ValueError`
   * does not catch.
   */
  function ValidateRecord(r: Record): (c: Check)
    ensures c == Pass <==> Acceptable(r)
    ensures c.Fail? ==> c.message != ""
    ensures FirstMissing(r, RequiredFields).Some? ==> c == Fail(FirstMissing(r, RequiredFields).value + EmptySuffix)
    ensures c.Raises? <==> FirstMissing(r, RequiredFields).None? && "reportDate" in r && !r["reportDate"].VStr?
  {
    match FirstMissing(r, RequiredFields)
    case Some(name) => Fail(name + EmptySuffix)
    case None =>
      assert Present(r, RequiredFields[4].0) && Present(r, RequiredFields[10].0) && Present(r, RequiredFields[11].0);
      var date, dataType, dataValue := r["reportDate"], r["dataType"], r["dataValue"];
      if !date.VStr? then Raises
      else if StrpTime(date.s).None? then Fail(DateFormatError)
      else if !IsPyInt(dataType) then Fail(DataTypeNotInt)
      else if !(1 <= IntValue(dataType) <= 4) then Fail(DataTypeOutOfRange)
      else if !IsPyNumber(dataValue) then Fail(DataValueNotNumber)
      else if NumberValue(dataValue) < 0.0 then Fail(DataValueNegative)
      else Pass
  }

  /** The field at index k is the one reported when it is the first absent or falsy one. */
  lemma {:induction false} FirstMissingAt(r: Record, fields: seq<(string, string)>, k: nat)
    requires k < |fields| && !Present(r, fields[k].0)
    requires forall j :: 0 <= j < k ==> Present(r, fields[j].0)
    ensures FirstMissing(r, fields) == Some(fields[k].1)
  {
    if k > 0 {
      FirstMissingAt(r, fields[1..], k - 1);
    }
  }

  /** Emptiness is truthiness: a zero `dataValue` is reported as empty, before any type or range rule. */
  lemma ZeroValueIsEmpty(r: Record)
    requires forall k :: 0 <= k < 11 ==> Present(r, RequiredFields[k].0)
    requires "dataValue" in r && r["dataValue"] in {VInt(0), VFloat(0.0), VBool(false)}
    ensures ValidateRecord(r) == Fail("数据值不能为空")
  {
    FirstMissingAt(r, RequiredFields, 11);
  }

  /** The same holds for a zero `dataType`, which is reported before the date is even parsed. */
  lemma ZeroTypeIsEmpty(r: Record)
    requires forall k :: 0 <= k < 10 ==> Present(r, RequiredFields[k].0)
    requires "dataType" in r && r["dataType"] in {VInt(0), VBool(false)}
    ensures ValidateRecord(r) == Fail("数据类型不能为空")
  {
    FirstMissingAt(r, RequiredFields, 10);
  }

  /** Rules run in order: a record with both a bad date and a bad `dataType` reports the date. */
  lemma DateCheckedBeforeType(r: Record)
    requires FirstMissing(r, RequiredFields).None?
    requires "reportDate" in r && r["reportDate"].VStr? && StrpTime(r["reportDate"].s).None?
    ensures ValidateRecord(r) == Fail(DateFormatError)
  {
  }

  /** `True` is an int equal to 1, so a boolean `dataType` of True passes the type and range rules. */
  lemma TrueIsAcceptedDataType(r: Record)
    requires FirstMissing(r, RequiredFields).None?
    requires "reportDate" in r && r["reportDate"].VStr? && StrpTime(r["reportDate"].s).Some?
    requires "dataType" in r && "dataValue" in r
    requires r["dataType"] == VBool(true) && r["dataValue"] == VFloat(5.0)
    ensures ValidateRecord(r) == Pass
  {
  }

  // ----- validate_batch_data -----

  datatype Failure = Failure(data: Record, error: string)

  /** Outcome of `validate_batch_data`: the failed records, or a TypeError escaping from one record. */
  datatype BatchResult = Failures(items: seq<Failure>) | BatchRaised

  /** The failing records of `rs` with their messages, in input order. */
  function FailuresOf(rs: seq<Record>): seq<Failure> {
    if rs == [] then []
    else
      var init := FailuresOf(rs[..|rs| - 1]);
      var last := rs[|rs| - 1];
      match ValidateRecord(last)
      case Fail(msg) => init + [Failure(last, msg)]
      case _ => init
  }

  predicate SomeRecordRaises(rs: seq<Record>) {
    exists i :: 0 <= i < |rs| && ValidateRecord(rs[i]).Raises?
  }

  /** What `validate_batch_data` returns for `rs`. */
  function BatchOutcome(rs: seq<Record>): BatchResult {
    if SomeRecordRaises(rs) then BatchRaised else Failures(FailuresOf(rs))
  }

  /**
   * `validate_batch_data`: checks every record in order and appends a
   * (record, message) pair for each one that fails.
   */
  method ValidateBatch(records: seq<Record>) returns (result: BatchResult)
    ensures result == BatchOutcome(records)
  {
    var failed: seq<Failure> := [];
    var i := 0;
    while i < |records|
      invariant 0 <= i <= |records|
      invariant failed == FailuresOf(records[..i])
      invariant !SomeRecordRaises(records[..i])
    {
      var data := records[i];
      var error := ValidateRecord(data);
      FailuresStep(records, i);
      RaisesStep(records, i);
      if error.Raises? {
        return BatchRaised;
      }
      if error.Fail? {
        failed := failed + [Failure(data, error.message)];
      }
      i := i + 1;
    }
    assert records[..i] == records;
    result := Failures(failed);
  }

  /** One more record: a failure is appended for it exactly when it fails. */
  lemma FailuresStep(records: seq<Record>, i: nat)
    requires i < |records|
    ensures FailuresOf(records[..i + 1]) == FailuresOf(records[..i])
              + (if ValidateRecord(records[i]).Fail? then [Failure(records[i], ValidateRecord(records[i]).message)] else [])
  {
    var next := records[..i + 1];
    assert next[..|next| - 1] == records[..i];
    assert next[|next| - 1] == records[i];
  }

  /** One more record: the prefix raises when it did before or the new record raises. */
  lemma RaisesStep(records: seq<Record>, i: nat)
    requires i < |records|
    ensures SomeRecordRaises(records[..i + 1]) <==> SomeRecordRaises(records[..i]) || ValidateRecord(records[i]).Raises?
    ensures ValidateRecord(records[i]).Raises? ==> SomeRecordRaises(records)
  {
    var next := records[..i + 1];
    if SomeRecordRaises(next) {
      var j :| 0 <= j < |next| && ValidateRecord(next[j]).Raises?;
      RaisingPrefix(records, i, j);
    }
    if SomeRecordRaises(records[..i]) {
      var j :| 0 <= j < i && ValidateRecord(records[..i][j]).Raises?;
      assert next[j] == records[..i][j];
    }
    if ValidateRecord(records[i]).Raises? {
      assert next[i] == records[i];
    }
  }

  /** A raising record of `records[..i + 1]` is the new record or a raising record of `records[..i]`. */
  lemma RaisingPrefix(records: seq<Record>, i: nat, j: nat)
    requires i < |records| && j <= i && ValidateRecord(records[..i + 1][j]).Raises?
    ensures SomeRecordRaises(records[..i]) || ValidateRecord(records[i]).Raises?
  {
    if j < i {
      assert records[..i][j] == records[j];
    }
  }

  /** Every reported failure is a record of the input together with the message it fails with. */
  lemma {:induction false} FailuresAreFailingRecords(rs: seq<Record>, j: nat)
    requires j < |FailuresOf(rs)|
    ensures FailuresOf(rs)[j].data in rs
    ensures ValidateRecord(FailuresOf(rs)[j].data) == Fail(FailuresOf(rs)[j].error)
  {
    var init := FailuresOf(rs[..|rs| - 1]);
    if j < |init| {
      FailuresAreFailingRecords(rs[..|rs| - 1], j);
    }
  }

  /** Every failing record of the input is reported, with its message. */
  lemma {:induction false} FailingRecordsAreReported(rs: seq<Record>, i: nat)
    requires i < |rs| && ValidateRecord(rs[i]).Fail?
    ensures Failure(rs[i], ValidateRecord(rs[i]).message) in FailuresOf(rs)
  {
    if i < |rs| - 1 {
      assert rs[..|rs| - 1][i] == rs[i];
      FailingRecordsAreReported(rs[..|rs| - 1], i);
    }
  }

  /** The checks are independent per record, so the failures of a concatenation are concatenated in order. */
  lemma {:induction false} FailuresOfAppend(a: seq<Record>, b: seq<Record>)
    ensures FailuresOf(a + b) == FailuresOf(a) + FailuresOf(b)
  {
    if b == [] {
      assert a + b == a;
    } else {
      assert (a + b)[..|a + b| - 1] == a + b[..|b| - 1];
      FailuresOfAppend(a, b[..|b| - 1]);
    }
  }

  /** No more failures than records; none at all for an empty batch. */
  lemma {:induction false} FailuresBounded(rs: seq<Record>)
    ensures |FailuresOf(rs)| <= |rs|
    ensures rs == [] ==> FailuresOf(rs) == []
  {
    if rs != [] {
      FailuresBounded(rs[..|rs| - 1]);
    }
  }

  function Data(fs: seq<Failure>): seq<Record> {
    if fs == [] then [] else Data(fs[..|fs| - 1]) + [fs[|fs| - 1].data]
  }

  /** Validating the failed records again reports exactly the same failures. */
  lemma {:induction false} RevalidatingFailuresIsStable(rs: seq<Record>)
    ensures FailuresOf(Data(FailuresOf(rs))) == FailuresOf(rs)
  {
    if rs != [] {
      var init := rs[..|rs| - 1];
      var last := rs[|rs| - 1];
      RevalidatingFailuresIsStable(init);
      var fs := FailuresOf(init);
      if ValidateRecord(last).Fail? {
        var f := Failure(last, ValidateRecord(last).message);
        assert (fs + [f])[..|fs + [f]| - 1] == fs;
        assert Data(fs + [f]) == Data(fs) + [last];
        FailuresOfAppend(Data(fs), [last]);
        assert [last][..0] == [];
      }
    }
  }
}
