/**
 * The tkinter script: the shared scan, then one tree-view row per sorted pair, with
 * its 1-based number in front.
 */
module LegacyTk {
  import opened Wrappers
  import opened PyStr
  import opened Rows
  import opened LegacyNetsh

  /** The `for i in range(rows)` loop inserting `(str(i + 1), pwds[i][0], pwds[i][1])` into the tree view. */
  method TreeRows(pwds: seq<(string, string)>) returns (view: seq<seq<string>>)
    ensures view == Numbered(pwds)
  {
    view := [];
    var i := 0;
    while i < |pwds|
      invariant i <= |pwds|
      invariant view == Numbered(pwds[..i])
    {
      assert pwds[..i + 1][..i] == pwds[..i];
      view := view + [[NatToString(i + 1), pwds[i].0, pwds[i].1]];
      i := i + 1;
    }
    assert pwds[..i] == pwds;
  }

  /** `sorted(pwd.items())`, the `zip(*pwds)` that fails on an empty result, and the tree rows. */
  method ShowRows(pwd: map<string, string>) returns (r: Outcome<seq<seq<string>>>)
    ensures r == LegacyTable(pwd)
  {
    if |pwd| == 0 {
      return Fail(IndexErrorReason);
    }
    var pairs := SortedItems(pwd);
    var view := TreeRows(pairs);
    return Ok(view);
  }

  /** What the script does with the outcome of its scan. */
  method AfterScan(scanned: Outcome<map<string, string>>) returns (r: Outcome<seq<seq<string>>>)
    ensures r == RowsAfter(scanned)
  {
    if scanned.Fail? {
      return Fail(scanned.reason);
    }
    r := ShowRows(scanned.value);
  }

  /** The whole script up to its window: scan, then show the rows. */
  method RunScript(popen: string -> string) returns (r: Outcome<seq<seq<string>>>)
    ensures r == RowsAfter(LegacyPasswords(popen))
  {
    var scanned := LegacyScan(popen);
    r := AfterScan(scanned);
  }
}
