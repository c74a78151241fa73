/**
 * The command-line table script: the shared scan, then the sorted and numbered rows
 * and the records its CSV export writes.
 */
module LegacyCli {
  import opened Wrappers
  import opened PyStr
  import opened Rows
  import opened LegacyNetsh

  const CsvHeader: seq<string> := ["S.No.", "SSID", "Passwords"]

  /** `sorted(pwd.items())`, the `zip(*pwds)` that fails on an empty result, and the numbering loop. */
  method BuildRows(pwd: map<string, string>) returns (r: Outcome<seq<seq<string>>>)
    ensures r == LegacyTable(pwd)
  {
    if |pwd| == 0 {
      return Fail(IndexErrorReason);
    }
    var rows := Tabulate(pwd);
    return Ok(rows);
  }

  /** What the script does with the outcome of its scan. */
  method AfterScan(scanned: Outcome<map<string, string>>) returns (r: Outcome<seq<seq<string>>>)
    ensures r == RowsAfter(scanned)
  {
    if scanned.Fail? {
      return Fail(scanned.reason);
    }
    r := BuildRows(scanned.value);
  }

  /** The whole script up to its window: scan, then build the rows. */
  method RunScript(popen: string -> string) returns (r: Outcome<seq<seq<string>>>)
    ensures r == RowsAfter(LegacyPasswords(popen))
  {
    var scanned := LegacyScan(popen);
    r := AfterScan(scanned);
  }

  /**
   * The CSV export: the header `S.No., SSID, Passwords`, then record k (k from 1) is
   * `[str(k), name, secret]` for the k-th recorded name in ascending order.
   */
  lemma CsvExport(pwd: map<string, string>)
    requires LegacyTable(pwd).Ok?
    ensures var records := CsvRecords(CsvHeader, LegacyTable(pwd).value);
      && |records| == |pwd| + 1
      && records[0] == CsvHeader
      && forall k :: 1 <= k <= |pwd| ==> records[k] == [NatToString(k), SortedItems(pwd)[k - 1].0, SortedItems(pwd)[k - 1].1]
  {
    CsvLayout(CsvHeader, pwd);
  }
}
