/**
 * The PySimpleGUI retriever object: the dispatch on the operating system, the refresh
 * that sorts and numbers the collected dictionary into the shown table, the text report
 * and the clipboard text built from that table.
 */
module Retriever {
  import opened Wrappers
  import opened PyStr
  import opened Rows
  import opened Host
  import W = WindowsNetsh
  import Mac = MacOS
  import Lin = Linux

  const UnsupportedPrefix := "Unsupported OS: "

  /**
   * What `get_wifi_passwords` returns for the platform name `osType`, or the exception
   * that escapes it (the macOS collector catches everything).
   */
  function Collect(osType: string, m: Machine): Outcome<map<string, string>>
  {
    if osType == "Windows" then W.WindowsPasswords(m)
    else if osType == "Darwin" then Ok(Mac.MacPasswords(m))
    else if osType == "Linux" then Lin.LinuxPasswords(m)
    else Ok(map["Error" := UnsupportedPrefix + osType])
  }

  /**
   * An unsupported platform gives exactly the one `"Error"` entry. An exception escapes
   * only when `netsh` is not found on Windows, or from the Linux scan branch, when `iwlist`
   * is not found or its output has a bad `ESSID:` line.
   */
  lemma CollectTiers(osType: string, m: Machine)
    ensures osType != "Windows" && osType != "Darwin" && osType != "Linux"
      ==> Collect(osType, m) == Ok(map["Error" := UnsupportedPrefix + osType])
    ensures osType == "Windows" ==> (Collect(osType, m).Fail? <==> !m.installed(W.Netsh))
    ensures Collect(osType, m).Fail? ==>
      || (osType == "Windows" && Collect(osType, m).reason == WindowsNotFoundReason)
      || (osType == "Linux" && !m.pathExists(Lin.ConnectionsDir)
          && (if m.installed(Lin.IwlistExe) then m.run(Lin.IwlistCmd).Ok? else Collect(osType, m).reason == NotFoundReason(Lin.IwlistExe)))
  {
  }

  /** The header row of `export_to_csv`. */
  const CsvHeader: seq<string> := ["S.No.", "SSID", "Password"]

  /** The report's title line and its rule of sixty `=` (`"=" * 60`). */
  const ReportTitle := "Wi-Fi Password Report"
  const Rule := Repeat('=', 60)

  /** The lines the text report starts with; the time stamp and platform strings are given. */
  function ReportHeader(generated: string, system: string, release: string): seq<string>
  {
    [ReportTitle, "Generated: " + generated, "System: " + system + " " + release, "", Rule]
  }

  /** Every row has the three cells number, name and secret. */
  predicate ThreeCells(rows: seq<seq<string>>)
  {
    forall k :: 0 <= k < |rows| ==> |rows[k]| == 3
  }

  /** `f"{pwd[0]}. {pwd[1]}: {pwd[2]}"`. */
  function ReportLine(row: seq<string>): string
    requires |row| == 3
  {
    row[0] + ". " + row[1] + ": " + row[2]
  }

  function ReportLines(rows: seq<seq<string>>): (lines: seq<string>)
    requires ThreeCells(rows)
    ensures |lines| == |rows|
  {
    if rows == [] then [] else ReportLines(rows[..|rows| - 1]) + [ReportLine(rows[|rows| - 1])]
  }

  /** The whole text file `export_to_txt` writes for the rows. */
  function TxtReport(rows: seq<seq<string>>, generated: string, system: string, release: string): string
    requires ThreeCells(rows)
  {
    ConcatLines(ReportHeader(generated, system, release) + ReportLines(rows))
  }

  /** No cell of any row holds a line break. */
  predicate SingleLineCells(rows: seq<seq<string>>)
  {
    forall k, c :: 0 <= k < |rows| && 0 <= c < |rows[k]| ==> '\n' !in rows[k][c]
  }

  /** Writing the header line by line gives the text the first four `write` calls produce. */
  lemma ReportHeaderText(generated: string, system: string, release: string)
    ensures ConcatLines(ReportHeader(generated, system, release))
      == ReportTitle + "\n" + "Generated: " + generated + "\n" + "System: " + system + " " + release + "\n\n" + Rule + "\n"
  {
    HeaderWrites(ReportTitle, generated, system, release, Rule);
  }

  /** The header writes for any title and rule line. */
  lemma HeaderWrites(title: string, generated: string, system: string, release: string, rule: string)
    ensures ConcatLines([title, "Generated: " + generated, "System: " + system + " " + release, "", rule])
      == title + "\n" + "Generated: " + generated + "\n" + "System: " + system + " " + release + "\n\n" + rule + "\n"
  {
    var h := [title, "Generated: " + generated, "System: " + system + " " + release, "", rule];
    assert ConcatLines(h[4..]) == rule + "\n";
    assert ConcatLines(h[3..]) == "\n" + rule + "\n";
    var t2 := "System: " + system + " " + release;
    assert ConcatLines(h[2..]) == t2 + "\n\n" + rule + "\n";
    var t1 := "Generated: " + generated;
    assert ConcatLines(h[1..]) == t1 + "\n" + t2 + "\n\n" + rule + "\n";
  }

  /** Line `k` of the report is the report line of row `k`. */
  lemma {:induction false} ReportLinesAt(rows: seq<seq<string>>, k: nat)
    requires ThreeCells(rows) && k < |rows|
    ensures ReportLines(rows)[k] == ReportLine(rows[k])
  {
    if k < |rows| - 1 {
      ReportLinesAt(rows[..|rows| - 1], k);
    }
  }

  /** A report line holds no line break when its cells hold none. */
  lemma ReportLineSingle(row: seq<string>)
    requires |row| == 3 && '\n' !in row[0] && '\n' !in row[1] && '\n' !in row[2]
    ensures '\n' !in ReportLine(row)
  {
  }

  /** The report lines hold no line break when the cells hold none. */
  lemma ReportLinesSingle(rows: seq<seq<string>>)
    requires ThreeCells(rows) && SingleLineCells(rows)
    ensures NoBreaks(ReportLines(rows))
  {
    forall k | 0 <= k < |rows| ensures '\n' !in ReportLines(rows)[k] {
      ReportLinesAt(rows, k);
      assert '\n' !in rows[k][0] && '\n' !in rows[k][1] && '\n' !in rows[k][2];
      ReportLineSingle(rows[k]);
    }
  }

  /** One more row adds its report line at the end. */
  lemma ReportLinesSnoc(rows: seq<seq<string>>, i: nat)
    requires ThreeCells(rows) && i < |rows|
    ensures ReportLines(rows[..i + 1]) == ReportLines(rows[..i]) + [ReportLine(rows[i])]
  {
    assert rows[..i + 1][..i] == rows[..i];
  }

  /** No header line holds a line break when the time stamp and platform strings hold none. */
  lemma ReportHeaderSingle(generated: string, system: string, release: string)
    requires '\n' !in generated && '\n' !in system && '\n' !in release
    ensures NoBreaks(ReportHeader(generated, system, release))
  {
    assert '\n' !in Rule by {
      assert forall k :: 0 <= k < |Rule| ==> Rule[k] == '=';
    }
    HeaderLinesSingle(ReportTitle, generated, system, release, Rule);
  }

  lemma HeaderLinesSingle(title: string, generated: string, system: string, release: string, rule: string)
    requires '\n' !in title && '\n' !in generated && '\n' !in system && '\n' !in release && '\n' !in rule
    ensures NoBreaks([title, "Generated: " + generated, "System: " + system + " " + release, "", rule])
  {
  }

  /**
   * Reading the report back line by line: the five header lines, then one
   * `"<number>. <name>: <secret>"` line per row in order, then the empty piece after
   * the final line break.
   */
  lemma TxtReportReadBack(rows: seq<seq<string>>, generated: string, system: string, release: string)
    requires ThreeCells(rows) && SingleLineCells(rows)
    requires '\n' !in generated && '\n' !in system && '\n' !in release
    ensures var lines := Split(TxtReport(rows, generated, system, release), "\n");
      && |lines| == |rows| + 6
      && lines[..5] == ReportHeader(generated, system, release)
      && (forall k :: 0 <= k < |rows| ==> lines[5 + k] == rows[k][0] + ". " + rows[k][1] + ": " + rows[k][2])
      && lines[|rows| + 5] == ""
  {
    var header := ReportHeader(generated, system, release);
    var body := ReportLines(rows);
    ReportHeaderSingle(generated, system, release);
    ReportLinesSingle(rows);
    SplitConcatBlocks(header, body);
    var lines := Split(TxtReport(rows, generated, system, release), "\n");
    forall k | 0 <= k < |rows| ensures lines[5 + k] == rows[k][0] + ". " + rows[k][1] + ": " + rows[k][2] {
      assert lines[5..5 + |body|][k] == body[k];
      ReportLinesAt(rows, k);
    }
  }



  /** The three outcomes `copy_to_clipboard` can show in the status line, and the clipboard text when it copies. */
  datatype CopyResult = CopyResult(status: string, clipboard: Option<string>)

  const NoSelection := "No rows selected for copying"
  const NoPyperclip := "Error: pyperclip module not installed"
  const CopyErrorPrefix := "Error copying to clipboard: "

  /** Python's `pwds[row]` index: negative numbers count from the end; the rest raise `IndexError`. */
  function PyIndex(row: int, n: nat): (r: Option<nat>)
    ensures r.Some? <==> -(n as int) <= row < n
    ensures r.Some? ==> r.value < n && (r.value == row || r.value == n + row)
  {
    if 0 <= row < n then Some(row) else if -(n as int) <= row < 0 then Some(n + row) else None
  }

  /** `f"SSID: {data[1]}, Password: {data[2]}"`. */
  function ClipLine(row: seq<string>): string
    requires |row| == 3
  {
    "SSID: " + row[1] + ", Password: " + row[2]
  }

  /** The text the loop over the selected rows builds, or the `IndexError` of a row number out of range. */
  function ClipText(rows: seq<seq<string>>, selected: seq<int>): Outcome<string>
    requires ThreeCells(rows)
  {
    if selected == [] then Ok("")
    else
      match ClipText(rows, selected[..|selected| - 1])
      case Fail(e) => Fail(e)
      case Ok(text) =>
        match PyIndex(selected[|selected| - 1], |rows|)
        case None => Fail(IndexErrorReason)
        case Some(j) => Ok(text + ClipLine(rows[j]) + "\n")
  }

  /** The loop fails exactly when some selected row number is out of range, and then with the `IndexError`. */
  lemma {:induction false} ClipTextFailIff(rows: seq<seq<string>>, selected: seq<int>)
    requires ThreeCells(rows)
    ensures ClipText(rows, selected).Fail? <==> exists k :: 0 <= k < |selected| && !(-|rows| <= selected[k] < |rows|)
    ensures ClipText(rows, selected).Fail? ==> ClipText(rows, selected).reason == IndexErrorReason
  {
    if selected != [] {
      var init := selected[..|selected| - 1];
      ClipTextFailIff(rows, init);
      assert forall k :: 0 <= k < |init| ==> init[k] == selected[k];
      if exists k :: 0 <= k < |selected| && !(-|rows| <= selected[k] < |rows|) {
        var k :| 0 <= k < |selected| && !(-|rows| <= selected[k] < |rows|);
        if k < |init| {
          assert !(-|rows| <= init[k] < |rows|);
        }
      }
    }
  }

  /** The clipboard lines for selected row numbers that are all in range. */
  function ClipLines(rows: seq<seq<string>>, selected: seq<int>): (lines: seq<string>)
    requires ThreeCells(rows)
    requires forall k :: 0 <= k < |selected| ==> -|rows| <= selected[k] < |rows|
    ensures |lines| == |selected|
  {
    if selected == [] then []
    else ClipLines(rows, selected[..|selected| - 1]) + [ClipLine(rows[PyIndex(selected[|selected| - 1], |rows|).value])]
  }

  /**
   * With every selected row number in range, the clipboard text is one
   * `"SSID: <name>, Password: <secret>"` line per selected row, in selection order, a
   * negative number picking a row from the end.
   */
  lemma {:induction false} ClipTextLines(rows: seq<seq<string>>, selected: seq<int>)
    requires ThreeCells(rows)
    requires forall k :: 0 <= k < |selected| ==> -|rows| <= selected[k] < |rows|
    ensures ClipText(rows, selected) == Ok(ConcatLines(ClipLines(rows, selected)))
  {
    if selected != [] {
      var init := selected[..|selected| - 1];
      assert forall k :: 0 <= k < |init| ==> init[k] == selected[k];
      ClipTextLines(rows, init);
      var last := ClipLine(rows[PyIndex(selected[|selected| - 1], |rows|).value]);
      ConcatLinesSnoc(ClipLines(rows, init), last);
    }
  }

  /** Line `k` of the clipboard text shows the row the k-th selected number picks. */
  lemma {:induction false} ClipLinesAt(rows: seq<seq<string>>, selected: seq<int>, k: nat)
    requires ThreeCells(rows)
    requires forall j :: 0 <= j < |selected| ==> -|rows| <= selected[j] < |rows|
    requires k < |selected|
    ensures var row := rows[if selected[k] >= 0 then selected[k] else |rows| + selected[k]];
      ClipLines(rows, selected)[k] == "SSID: " + row[1] + ", Password: " + row[2]
  {
    if k < |selected| - 1 {
      var init := selected[..|selected| - 1];
      assert init[k] == selected[k];
      ClipLinesAt(rows, init, k);
    }
  }

  /** The status line and clipboard `copy_to_clipboard` leaves; the import and `pyperclip.copy`'s exception are given. */
  function CopyOutcome(rows: seq<seq<string>>, selected: seq<int>, hasPyperclip: bool, copyError: Option<string>): CopyResult
    requires ThreeCells(rows)
  {
    if selected == [] then CopyResult(NoSelection, None)
    else if !hasPyperclip then CopyResult(NoPyperclip, None)
    else
      match ClipText(rows, selected)
      case Fail(e) => CopyResult(CopyErrorPrefix + e, None)
      case Ok(text) =>
        match copyError
        case Some(e) => CopyResult(CopyErrorPrefix + e, None)
        case None => CopyResult("Copied " + NatToString(|selected|) + " entries to clipboard", Some(text))
  }

  /**
   * The clipboard is written exactly when something is selected, `pyperclip` imports,
   * every selected row number is in range and the copy succeeds; a bad row number shows
   * the `IndexError` and nothing is copied.
   */
  lemma CopyTiers(rows: seq<seq<string>>, selected: seq<int>, hasPyperclip: bool, copyError: Option<string>)
    requires ThreeCells(rows)
    ensures var r := CopyOutcome(rows, selected, hasPyperclip, copyError);
      && (r.clipboard.Some? <==>
            selected != [] && hasPyperclip && copyError.None?
            && forall k :: 0 <= k < |selected| ==> -|rows| <= selected[k] < |rows|)
      && (r.clipboard.Some? ==>
            r.clipboard.value == ConcatLines(ClipLines(rows, selected))
            && r.status == "Copied " + NatToString(|selected|) + " entries to clipboard")
      && ((selected != [] && hasPyperclip && exists k :: 0 <= k < |selected| && !(-|rows| <= selected[k] < |rows|))
            ==> r.status == CopyErrorPrefix + IndexErrorReason)
  {
    ClipTextFailIff(rows, selected);
    if forall k :: 0 <= k < |selected| ==> -|rows| <= selected[k] < |rows| {
      ClipTextLines(rows, selected);
    }
  }

  /** The writes of `export_to_txt`, for the rows `pwds`. */
  method WriteReport(pwds: seq<seq<string>>, generated: string, system: string, release: string) returns (text: string)
    requires ThreeCells(pwds)
    ensures text == TxtReport(pwds, generated, system, release)
  {
    text := ReportTitle + "\n";
    text := text + "Generated: " + generated + "\n";
    text := text + "System: " + system + " " + release + "\n\n";
    text := text + Rule + "\n";
    ReportHeaderText(generated, system, release);
    text := WriteRows(text, ReportHeader(generated, system, release), pwds);
  }

  /** The loop writing one report line per row after the header. */
  method WriteRows(start: string, ghost header: seq<string>, pwds: seq<seq<string>>) returns (text: string)
    requires ThreeCells(pwds) && start == ConcatLines(header)
    ensures text == ConcatLines(header + ReportLines(pwds))
  {
    text := start;
    assert header + ReportLines(pwds[..0]) == header;
    var i := 0;
    while i < |pwds|
      invariant i <= |pwds|
      invariant text == ConcatLines(header + ReportLines(pwds[..i]))
    {
      var row := pwds[i];
      var line := row[0] + ". " + row[1] + ": " + row[2];
      ReportLinesSnoc(pwds, i);
      ConcatLinesSnoc(header + ReportLines(pwds[..i]), line);
      assert header + ReportLines(pwds[..i + 1]) == header + ReportLines(pwds[..i]) + [line];
      text := text + line + "\n";
      i := i + 1;
    }
    assert pwds[..i] == pwds;
  }

  /** The body of `copy_to_clipboard`, for the rows `pwds`. */
  method CopyRows(pwds: seq<seq<string>>, selected: seq<int>, hasPyperclip: bool, copyError: Option<string>) returns (r: CopyResult)
    requires ThreeCells(pwds)
    ensures r == CopyOutcome(pwds, selected, hasPyperclip, copyError)
  {
    if selected == [] {
      return CopyResult(NoSelection, None);
    }
    if !hasPyperclip {
      return CopyResult(NoPyperclip, None);
    }
    var text := "";
    var i := 0;
    while i < |selected|
      invariant i <= |selected|
      invariant ClipText(pwds, selected[..i]) == Ok(text)
    {
      assert selected[..i + 1][..i] == selected[..i];
      var row := selected[i];
      if !(-|pwds| <= row < |pwds|) {
        ClipTextFailIff(pwds, selected[..i + 1]);
        ClipTextFailIff(pwds, selected);
        assert selected[..i + 1][i] == selected[i];
        return CopyResult(CopyErrorPrefix + IndexErrorReason, None);
      }
      var data := if row >= 0 then pwds[row] else pwds[|pwds| + row];
      assert PyIndex(row, |pwds|) == Some(if row >= 0 then row else |pwds| + row);
      assert selected[..i + 1][i] == row;
      var line := "SSID: " + data[1] + ", Password: " + data[2];
      text := text + line + "\n";
      i := i + 1;
    }
    assert selected[..i] == selected;
    if copyError.Some? {
      return CopyResult(CopyErrorPrefix + copyError.value, None);
    }
    return CopyResult("Copied " + NatToString(|selected|) + " entries to clipboard", Some(text));
  }

  /** The retriever object: the collected dictionary and the numbered rows shown in the table. */
  class WiFiPasswordRetriever {
    var passwords: map<string, string>
    var pwds: seq<seq<string>>
    const osType: string

    /** The rows shown are always the sorted, numbered entries of the dictionary. */
    ghost predicate Valid()
      reads this
    {
      pwds == Table(passwords)
    }

    /** A retriever for the platform `platform.system()` names, with nothing collected yet. */
    constructor(osType: string)
      ensures this.osType == osType && passwords == map[] && pwds == []
      ensures Valid()
    {
      this.osType := osType;
      passwords := map[];
      pwds := [];
      new;
      assert |Table(map[])| == 0;
    }

    /** `get_wifi_passwords`: the collector for the platform, or the unsupported-platform entry. */
    method GetWifiPasswords(m: Machine) returns (r: Outcome<map<string, string>>)
      ensures r == Collect(osType, m)
    {
      if osType == "Windows" {
        r := W.GetWindowsWifiPasswords(m);
      } else if osType == "Darwin" {
        var passwords := Mac.GetMacosWifiPasswords(m);
        return Ok(passwords);
      } else if osType == "Linux" {
        r := Lin.GetLinuxWifiPasswords(m);
      } else {
        return Ok(map["Error" := UnsupportedPrefix + osType]);
      }
    }

    /**
     * The worker of `start_retrieval` without its widgets: collect, sort, number, and
     * report the "Found N Wi-Fi networks" status. An exception escaping the collector
     * ends the worker before anything is assigned.
     */
    method Retrieve(m: Machine) returns (status: Option<string>)
      requires Valid()
      modifies this
      ensures Valid()
      ensures Collect(osType, m).Fail? ==> passwords == old(passwords) && pwds == old(pwds) && status == None
      ensures Collect(osType, m).Ok? ==>
        && passwords == Collect(osType, m).value
        && pwds == Table(passwords)
        && status == Some("Found " + NatToString(|passwords|) + " Wi-Fi networks")
    {
      var collected := GetWifiPasswords(m);
      if collected.Fail? {
        return None;
      }
      passwords := collected.value;
      pwds := Tabulate(passwords);
      status := Some("Found " + NatToString(|pwds|) + " Wi-Fi networks");
    }

    /**
     * `export_to_csv`: the records written, the header row and then the shown rows, so
     * record k (k from 1) is `[str(k), name, secret]` for the k-th name in ascending order.
     */
    method ExportToCsv() returns (records: seq<seq<string>>)
      requires Valid()
      ensures records == CsvRecords(CsvHeader, pwds)
      ensures |records| == |passwords| + 1 && records[0] == CsvHeader
      ensures forall k :: 1 <= k <= |passwords| ==>
        records[k] == [NatToString(k), SortedItems(passwords)[k - 1].0, SortedItems(passwords)[k - 1].1]
    {
      records := [CsvHeader];
      records := records + pwds;
      CsvLayout(CsvHeader, passwords);
    }

    /** `export_to_txt`: the text written, with the time stamp and platform strings given. */
    method ExportToTxt(generated: string, system: string, release: string) returns (text: string)
      requires Valid()
      ensures ThreeCells(pwds) && text == TxtReport(pwds, generated, system, release)
    {
      text := WriteReport(pwds, generated, system, release);
    }

    /** `copy_to_clipboard`: the status shown and the text copied for the selected row numbers. */
    method CopyToClipboard(selected: seq<int>, hasPyperclip: bool, copyError: Option<string>) returns (r: CopyResult)
      requires Valid()
      ensures ThreeCells(pwds) && r == CopyOutcome(pwds, selected, hasPyperclip, copyError)
    {
      r := CopyRows(pwds, selected, hasPyperclip, copyError);
    }
  }
}
