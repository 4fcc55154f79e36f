/**
 * The upload history kept in `upload_history.json` (gui.py, `save_history`
 * of `WorkerThread`, `ImportTab` and `MainWindow`): newest entry first, at
 * most 100 entries. The entry's message and error detail are whatever the
 * caller renders, so the type of those two fields is a parameter.
 */
module History {
  import opened PyText
  import opened Dates

  const Cap := 100

  /** The `source` each of the three writers records. */
  const InterfaceSource := "接口导入"
  const ExcelSource := "Excel导入"
  const ManualSource := "手动上报"

  datatype Entry<M> = Entry(uploadTime: string, status: string, dataCount: int, message: M, errorDetail: M, source: string)

  /** The history file: absent, unreadable as JSON, JSON that is not a list, or a list of entries. */
  datatype FileState<M> = Missing | Unreadable | NotAList | Saved(entries: seq<Entry<M>>)

  /** `datetime.now().strftime('%Y-%m-%d %H:%M:%S')` for a date and a number of seconds into the day. */
  function TimestampText(d: Date, seconds: nat): (r: string)
    requires ValidDate(d) && seconds < 86400
    ensures |r| == 19 && r[..10] == FormatDate(d) && r[10] == ' ' && r[13] == ':' && r[16] == ':'
  {
    FormatDate(d) + " " + Pad2(seconds / 3600) + ":" + Pad2(seconds / 60 % 60) + ":" + Pad2(seconds % 60)
  }

  /** The time of day is read back from the timestamp's last eight characters. */
  lemma TimestampKeepsTime(d: Date, seconds: nat)
    requires ValidDate(d) && seconds < 86400
    ensures var r := TimestampText(d, seconds);
            DigitsValue(r[11..13]) * 3600 + DigitsValue(r[14..16]) * 60 + DigitsValue(r[17..19]) == seconds
  {
    var r := TimestampText(d, seconds);
    var hh, mm, ss := Pad2(seconds / 3600), Pad2(seconds / 60 % 60), Pad2(seconds % 60);
    assert r == FormatDate(d) + " " + hh + ":" + mm + ":" + ss;
    assert r[11] == hh[0] && r[12] == hh[1] && r[14] == mm[0] && r[15] == mm[1] && r[17] == ss[0] && r[18] == ss[1];
    assert r[11..13] == hh && r[14..16] == mm && r[17..19] == ss;
    Pad2Value(seconds / 3600);
    Pad2Value(seconds / 60 % 60);
    Pad2Value(seconds % 60);
    ClockSplit(seconds);
  }

  /** Hours, minutes and seconds of a time of day add back up to it. */
  lemma ClockSplit(seconds: nat)
    ensures seconds / 3600 * 3600 + seconds / 60 % 60 * 60 + seconds % 60 == seconds
  {
    var q := seconds / 60;
    assert seconds == q * 60 + seconds % 60;
    assert q == q / 60 * 60 + q % 60;
    assert q / 60 == seconds / 3600;
  }

  /** The list `save_history` starts from: what the file holds, or `[]` when it is missing or unreadable. */
  function Existing<M>(f: FileState<M>): seq<Entry<M>> {
    if f.Saved? then f.entries else []
  }

  /** `([new] + old)[:100]` */
  function Prepended<M>(existing: seq<Entry<M>>, e: Entry<M>): (r: seq<Entry<M>>)
    ensures |r| == if |existing| + 1 < Cap then |existing| + 1 else Cap
    ensures r[0] == e
    ensures r[1..] == existing[..|r| - 1]
  {
    var all := [e] + existing;
    if |all| > Cap then all[..Cap] else all
  }

  /**
   * The file after one save: entries prepended and capped. A non-list file
   * makes `insert` raise, and a file that cannot be opened for writing makes
   * `open` raise; both are caught and the file stays as it was.
   */
  function AfterSave<M>(f: FileState<M>, e: Entry<M>, writable: bool): FileState<M> {
    if f.NotAList? || !writable then f else Saved(Prepended(Existing(f), e))
  }

  /** Two saves put the later entry first and the earlier one second. */
  lemma NewestFirst<M>(existing: seq<Entry<M>>, first: Entry<M>, second: Entry<M>)
    ensures var r := Prepended(Prepended(existing, first), second);
            |r| >= 2 && r[0] == second && r[1] == first
  {
  }

  /** The history after saving each of `es` in turn into a readable file. */
  function SavedAll<M>(existing: seq<Entry<M>>, es: seq<Entry<M>>): seq<Entry<M>> {
    if es == [] then existing else Prepended(SavedAll(existing, es[..|es| - 1]), es[|es| - 1])
  }

  /** However many saves, the history never holds more than 100 entries, and no fewer than were saved up to 100. */
  lemma {:induction false} SavesStayCapped<M>(existing: seq<Entry<M>>, es: seq<Entry<M>>)
    requires |existing| <= Cap
    ensures |SavedAll(existing, es)| <= Cap
    ensures |SavedAll(existing, es)| >= if |es| < Cap then |es| else Cap
  {
    if es != [] {
      SavesStayCapped(existing, es[..|es| - 1]);
    }
  }

  /** After up to 100 saves, entry k is the k-th most recent save. */
  lemma {:induction false} LatestSavesComeFirst<M>(existing: seq<Entry<M>>, es: seq<Entry<M>>, k: nat)
    requires |existing| <= Cap && k < |es| <= Cap
    ensures k < |SavedAll(existing, es)| && SavedAll(existing, es)[k] == es[|es| - 1 - k]
  {
    SavesStayCapped(existing, es);
    if k > 0 {
      var init := es[..|es| - 1];
      LatestSavesComeFirst(existing, init, k - 1);
      var prev := SavedAll(existing, init);
      var r := SavedAll(existing, es);
      assert r[k] == r[1..][k - 1];
    }
  }

  /** `upload_history.json` and its `save_history` writers. */
  class HistoryFile<M> {
    var state: FileState<M>
    /** Whether `open(history_file, 'w')` succeeds. */
    const writable: bool

    constructor(initial: FileState<M>, canWrite: bool)
      ensures state == initial && writable == canWrite
    {
      state := initial;
      writable := canWrite;
    }

    /** `save_history`: read, insert the new entry at the front, keep the first 100, write back when the file can be written. */
    method Save(status: string, dataCount: int, message: M, errorDetail: M, source: string, day: Date, seconds: nat)
      requires ValidDate(day) && seconds < 86400
      modifies this
      ensures state == AfterSave(old(state), Entry(TimestampText(day, seconds), status, dataCount, message, errorDetail, source), writable)
    {
      var historyData: seq<Entry<M>> := [];
      if state.Saved? {
        historyData := state.entries;
      }
      if state.NotAList? {
        return;
      }
      var newRecord := Entry(TimestampText(day, seconds), status, dataCount, message, errorDetail, source);
      historyData := [newRecord] + historyData;
      if |historyData| > Cap {
        historyData := historyData[..Cap];
      }
      if !writable {
        return;
      }
      state := Saved(historyData);
    }
  }
}
