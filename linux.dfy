/**
 * The Linux collector of the PySimpleGUI retriever. Without NetworkManager's
 * connection directory it only lists scanned network names (`iwlist scanning`);
 * with it, it reads each keyfile for its `ssid=` and `psk=` values.
 */
module Linux {
  import opened Wrappers
  import opened PyStr
  import opened PyList
  import opened Patterns
  import opened Host

  const ConnectionsDir := "/etc/NetworkManager/system-connections/"
  const IwlistExe := "iwlist"
  const IwlistCmd: seq<string> := [IwlistExe, "scanning"]
  const EssidMarker := "ESSID:"
  const EssidOpen := "ESSID:\""
  const KeyfileSuffix := ".nmconnection"
  const SsidKey := "ssid="
  const PskKey := "psk="
  const KeyringPlaceholder := "Password stored in system keyring"
  const ScanUnavailable := "Network information unavailable. Try running with sudo."
  const NoPskPlaceholder := "No Password or Enterprise Auth"
  const PermissionPlaceholder := "Permission Denied (Run as root)"
  const ErrorPrefix := "Linux password retrieval error: "
  /** The exception `line.split('ESSID:"')[1]` raises when the line has no `ESSID:"`. */

  /**
   * What one line of the scan contributes: nothing, a name, or the `IndexError` of a
   * line that mentions `ESSID:` but has no `ESSID:"`.
   */
  function EssidOfLine(line: string): Outcome<Option<string>>
  {
    if !Contains(line, EssidMarker) then Ok(None)
    else
      var parts := Split(line, EssidOpen);
      if |parts| < 2 then Fail(IndexErrorReason)
      else
        var ssid := Split(parts[1], "\"")[0];
        if ssid == "" then Ok(None) else Ok(Some(ssid))
  }

  /** A line raises exactly when it has `ESSID:` but no `ESSID:"`. */
  lemma EssidRaisesIff(line: string)
    ensures EssidOfLine(line).Fail? <==> Contains(line, EssidMarker) && !Contains(line, EssidOpen)
  {
  }

  /** A line with `ESSID:"` mentions `ESSID:`, so it is parsed. */
  lemma EssidOpenHasMarker(line: string)
    requires Contains(line, EssidOpen)
    ensures Contains(line, EssidMarker)
  {
    var i := Find(line, EssidOpen).value;
    assert line[i..i + |EssidOpen|] == EssidOpen;
    assert EssidOpen[..|EssidMarker|] == EssidMarker;
    assert line[i..i + |EssidMarker|] == line[i..i + |EssidOpen|][..|EssidMarker|];
    assert OccursAt(line, EssidMarker, i);
  }

  /** The name a line with `ESSID:"` gives: the first `"`-piece of the text after that marker, when non-empty. */
  lemma EssidOfQuotedLine(line: string)
    requires Contains(line, EssidOpen)
    ensures var rest := line[Find(line, EssidOpen).value + |EssidOpen|..];
      var n := Split(Split(rest, EssidOpen)[0], "\"")[0];
      EssidOfLine(line) == (if n == [] then Ok(None) else Ok(Some(n)))
  {
    EssidOpenHasMarker(line);
    var i := Find(line, EssidOpen).value;
    SplitSecondPiece(line, EssidOpen, i);
  }

  /**
   * That name is what follows the first `ESSID:"`, up to the next `"`, the next `ESSID:"`
   * or the end of the line; it never holds a quote.
   */
  lemma EssidNameBetweenQuotes(rest: string)
    ensures var n := Split(Split(rest, EssidOpen)[0], "\"")[0];
      && '"' !in n
      && |n| <= |rest| && n == rest[..|n|]
      && (|n| == |rest| || rest[|n|] == '"' || OccursAt(rest, EssidOpen, |n|))
  {
    var p := Split(rest, EssidOpen)[0];
    SplitFirstPiece(rest, EssidOpen);
    QuotePiece(p);
    var n := Split(p, "\"")[0];
    assert n == rest[..|n|];
    if |n| < |p| {
      assert rest[|n|] == p[|n|];
    }
  }

  /** The first `"`-piece of a text is a quote-free prefix that ends at a quote or at the end. */
  lemma QuotePiece(rest: string)
    ensures var n := Split(rest, "\"")[0];
      && '"' !in n
      && |n| <= |rest| && n == rest[..|n|]
      && (|n| == |rest| || rest[|n|] == '"')
  {
    SplitFirstPiece(rest, "\"");
    var n := Split(rest, "\"")[0];
    forall k | 0 <= k < |n| ensures n[k] != '"' {
      assert !OccursAt(n, "\"", k);
      assert n[k..k + 1] == [n[k]];
    }
    if |n| < |rest| {
      assert rest[|n|..|n| + 1] == "\"";
    }
  }

  /** The name a line gives, ignoring lines that raise. */
  function ScanLineName(line: string): Option<string>
  {
    match EssidOfLine(line)
    case Ok(o) => o
    case Fail(_) => None
  }

  /** The loop over the scan's lines: the names in line order, or the `IndexError` of a bad line. */
  function ScanNames(lines: seq<string>): Outcome<seq<string>>
  {
    if lines == [] then Ok([])
    else
      match ScanNames(lines[..|lines| - 1])
      case Fail(e) => Fail(e)
      case Ok(ns) =>
        match EssidOfLine(lines[|lines| - 1])
        case Fail(e) => Fail(e)
        case Ok(None) => Ok(ns)
        case Ok(Some(n)) => Ok(ns + [n])
  }

  /** One more line raises the loop exactly when the loop so far or that line raises. */
  lemma ScanNamesFailStep(lines: seq<string>)
    requires lines != []
    ensures ScanNames(lines).Fail? <==> ScanNames(lines[..|lines| - 1]).Fail? || EssidOfLine(lines[|lines| - 1]).Fail?
    ensures ScanNames(lines).Fail? ==>
      ScanNames(lines).reason == if ScanNames(lines[..|lines| - 1]).Fail? then ScanNames(lines[..|lines| - 1]).reason
                                 else EssidOfLine(lines[|lines| - 1]).reason
  {
  }

  /** The loop raises exactly when one of the lines does, and then always with the `IndexError`. */
  lemma {:induction false} ScanNamesFailIff(lines: seq<string>)
    ensures ScanNames(lines).Fail? <==> exists k :: 0 <= k < |lines| && EssidOfLine(lines[k]).Fail?
    ensures ScanNames(lines).Fail? ==> ScanNames(lines).reason == IndexErrorReason
  {
    if lines != [] {
      var init := lines[..|lines| - 1];
      ScanNamesFailIff(init);
      ScanNamesFailStep(lines);
      assert forall k :: 0 <= k < |init| ==> init[k] == lines[k];
      if exists k :: 0 <= k < |lines| && EssidOfLine(lines[k]).Fail? {
        var k :| 0 <= k < |lines| && EssidOfLine(lines[k]).Fail?;
        if k < |init| {
          assert EssidOfLine(init[k]).Fail?;
        }
      }
    }
  }

  /** When no line raises, the names are those the lines give, in order. */
  lemma {:induction false} ScanNamesOk(lines: seq<string>)
    requires forall k :: 0 <= k < |lines| ==> EssidOfLine(lines[k]).Ok?
    ensures ScanNames(lines) == Ok(FilterMap(ScanLineName, lines))
  {
    if lines != [] {
      var init := lines[..|lines| - 1];
      assert forall k :: 0 <= k < |init| ==> init[k] == lines[k];
      ScanNamesOk(init);
      var last := lines[|lines| - 1];
      assert EssidOfLine(last).Ok?;
      match ScanLineName(last)
      case None =>
        assert FilterMap(ScanLineName, lines) == FilterMap(ScanLineName, init);
      case Some(n) =>
        assert FilterMap(ScanLineName, lines) == FilterMap(ScanLineName, init) + [n];
    }
  }

  /** The body of the parsing loop for one line. */
  method ReadScanLine(line: string) returns (r: Outcome<Option<string>>)
    ensures r == EssidOfLine(line)
  {
    if !Contains(line, EssidMarker) {
      return Ok(None);
    }
    var parts := Split(line, EssidOpen);
    if |parts| < 2 {
      return Fail(IndexErrorReason);
    }
    var ssid := Split(parts[1], "\"")[0];
    if ssid == "" {
      return Ok(None);
    }
    return Ok(Some(ssid));
  }

  /** The `iwlist` branch's parsing loop. */
  method ParseScan(output: string) returns (r: Outcome<seq<string>>)
    ensures r == ScanNames(Split(output, "\n"))
  {
    var lines := Split(output, "\n");
    var ssids := [];
    var i := 0;
    while i < |lines|
      invariant i <= |lines|
      invariant ScanNames(lines[..i]) == Ok(ssids)
    {
      assert lines[..i + 1][..i] == lines[..i];
      var got := ReadScanLine(lines[i]);
      if got.Fail? {
        ScanNamesFailIff(lines);
        return Fail(IndexErrorReason);
      }
      if got.value.Some? {
        ssids := ssids + [got.value.value];
      }
      i := i + 1;
    }
    assert lines[..i] == lines;
    return Ok(ssids);
  }

  /** The dictionary of the `iwlist` branch: every scanned name maps to the keyring placeholder. */
  function KeyringEntries(ssids: seq<string>): map<string, string>
  {
    map n | n in ssids :: KeyringPlaceholder
  }

  /** `file.replace('.nmconnection', '')`. */
  function ConnectionName(file: string): string
  {
    RemoveAll(file, KeyfileSuffix)
  }

  /** `m.group(1).strip()` for the first match of `key + '(.*)'`, or `fallback` when there is none. */
  function FieldValue(content: string, key: string, fallback: string): string
    requires key != []
  {
    match SearchField(content, key)
    case Some(v) => Strip(v)
    case None => fallback
  }

  /**
   * A keyfile field is the stripped rest of the line after the key's first occurrence, and
   * the fallback when the key does not occur.
   */
  lemma FieldValueFromLine(content: string, key: string, fallback: string)
    requires key != []
    ensures Contains(content, key) ==>
      FieldValue(content, key, fallback) == Strip(RestOfLine(content[Find(content, key).value + |key|..]))
    ensures !Contains(content, key) ==> FieldValue(content, key, fallback) == fallback
  {
  }

  /**
   * The assignment one keyfile makes, given the outcome of reading it: its `ssid=` value (or
   * its file name) and its `psk=` value (or the placeholder); an unreadable file is filed
   * under its file name with the permission placeholder.
   */
  function KeyfileEntry(file: string, read: Outcome<string>): (string, string)
  {
    match read
    case Fail(_) => (ConnectionName(file), PermissionPlaceholder)
    case Ok(content) => (FieldValue(content, SsidKey, ConnectionName(file)), FieldValue(content, PskKey, NoPskPlaceholder))
  }

  /** The file name stands for the network whenever the file cannot be read or has no `ssid=` line. */
  lemma ConnectionNameFallback(file: string)
    ensures !Contains(file, KeyfileSuffix) ==> ConnectionName(file) == file
    ensures |ConnectionName(file)| <= |file|
    ensures forall e :: KeyfileEntry(file, Fail(e)) == (ConnectionName(file), PermissionPlaceholder)
  {
  }

  /** A keyfile named `<name>.nmconnection` stands for `<name>`: the suffix, which cannot overlap itself, is what is removed. */
  lemma ConnectionNameOfKeyfile(name: string)
    requires !Contains(name, KeyfileSuffix)
    ensures ConnectionName(name + KeyfileSuffix) == name
  {
    assert SelfDisjoint(KeyfileSuffix);
    RemoveAllFirst(name, KeyfileSuffix, "");
    assert name + KeyfileSuffix + "" == name + KeyfileSuffix;
  }

  /** The assignments the keyfile loop makes, in directory order. */
  function KeyfileWrites(m: Machine, files: seq<string>): seq<(string, string)>
  {
    seq(|files|, k requires 0 <= k < |files| => KeyfileEntry(files[k], m.readFile(ConnectionsDir + files[k])))
  }

  /**
   * What `_get_linux_wifi_passwords` returns, or the exception that escapes it: the
   * `FileNotFoundError` of a missing `iwlist` or the `IndexError` of a bad scan line, neither
   * of which `except subprocess.SubprocessError` catches.
   */
  function LinuxPasswords(m: Machine): Outcome<map<string, string>>
  {
    if !m.pathExists(ConnectionsDir) then
      if !m.installed(IwlistExe) then Fail(NotFoundReason(IwlistExe))
      else
        match m.run(IwlistCmd)
        case Fail(_) => Ok(map["Error" := ScanUnavailable])
        case Ok(out) =>
          match ScanNames(Split(out, "\n"))
          case Fail(e) => Fail(e)
          case Ok(ssids) => Ok(KeyringEntries(ssids))
    else
      match m.listDir(ConnectionsDir)
      case Fail(e) => Ok(map["Error" := ErrorPrefix + e])
      case Ok(files) => Ok(Assigned(KeyfileWrites(m, files)))
  }

  /** The lines of a successful `iwlist scanning`. */
  function ScanLines(m: Machine): seq<string>
    requires m.run(IwlistCmd).Ok?
  {
    Split(m.run(IwlistCmd).value, "\n")
  }

  /**
   * Without the connection directory: a missing `iwlist` makes the collector raise
   * `FileNotFoundError`; a failed scan is the single "try sudo" entry; a line with `ESSID:`
   * but no quote makes the collector raise `IndexError`; and otherwise each scanned name
   * maps to the keyring placeholder.
   */
  lemma LinuxScanBranch(m: Machine)
    requires !m.pathExists(ConnectionsDir)
    ensures !m.installed(IwlistExe) ==> LinuxPasswords(m) == Fail(NotFoundReason(IwlistExe))
    ensures m.installed(IwlistExe) && m.run(IwlistCmd).Fail? ==> LinuxPasswords(m) == Ok(map["Error" := ScanUnavailable])
    ensures m.installed(IwlistExe) && m.run(IwlistCmd).Ok? ==>
      && (LinuxPasswords(m).Fail? <==> exists k :: 0 <= k < |ScanLines(m)| && EssidOfLine(ScanLines(m)[k]).Fail?)
      && (LinuxPasswords(m).Ok? ==>
            && LinuxPasswords(m).value.Keys == (set n | n in FilterMap(ScanLineName, ScanLines(m)))
            && forall n :: n in LinuxPasswords(m).value ==> LinuxPasswords(m).value[n] == KeyringPlaceholder)
  {
    if m.installed(IwlistExe) && m.run(IwlistCmd).Ok? {
      var lines := ScanLines(m);
      ScanNamesFailIff(lines);
      assert LinuxPasswords(m).Fail? <==> ScanNames(lines).Fail?;
      if ScanNames(lines).Ok? {
        assert forall k :: 0 <= k < |lines| ==> EssidOfLine(lines[k]).Ok?;
        ScanNamesOk(lines);
        var ssids := FilterMap(ScanLineName, lines);
        assert LinuxPasswords(m) == Ok(KeyringEntries(ssids));
        assert KeyringEntries(ssids).Keys == set n | n in ssids;
      } else {
        assert LinuxPasswords(m).Fail?;
        assert exists k :: 0 <= k < |lines| && EssidOfLine(lines[k]).Fail?;
      }
    }
  }

  /**
   * With the connection directory: a listing failure is the single `"Error"` entry; otherwise
   * the names are those the keyfiles give, and each holds the secret of the last keyfile that
   * names it (an unreadable keyfile gives the permission placeholder under its file name).
   */
  lemma LinuxKeyfileBranch(m: Machine, k: nat)
    requires m.pathExists(ConnectionsDir)
    ensures m.listDir(ConnectionsDir).Fail? ==>
      LinuxPasswords(m) == Ok(map["Error" := ErrorPrefix + m.listDir(ConnectionsDir).reason])
    ensures m.listDir(ConnectionsDir).Ok? ==>
      var writes := KeyfileWrites(m, m.listDir(ConnectionsDir).value);
      && LinuxPasswords(m).Ok?
      && LinuxPasswords(m).value.Keys == (set j | 0 <= j < |writes| :: writes[j].0)
      && ((k < |writes| && forall j :: k < j < |writes| ==> writes[j].0 != writes[k].0) ==>
            LinuxPasswords(m).value[writes[k].0] == writes[k].1)
  {
    if m.listDir(ConnectionsDir).Ok? {
      var writes := KeyfileWrites(m, m.listDir(ConnectionsDir).value);
      if k < |writes| && (forall j :: k < j < |writes| ==> writes[j].0 != writes[k].0) {
        AssignedLastWins(writes, k);
      }
    }
  }

  /** The `iwlist` branch's loop: every scanned name is assigned the keyring placeholder. */
  method FillKeyring(ssids: seq<string>) returns (passwords: map<string, string>)
    ensures passwords == KeyringEntries(ssids)
  {
    passwords := map[];
    var i := 0;
    while i < |ssids|
      invariant i <= |ssids|
      invariant passwords == KeyringEntries(ssids[..i])
    {
      assert ssids[..i + 1] == ssids[..i] + [ssids[i]];
      passwords := passwords[ssids[i] := KeyringPlaceholder];
      i := i + 1;
    }
    assert ssids[..i] == ssids;
  }

  /** The keyfile loop: read each listed file and assign its entry, in directory order. */
  method ReadKeyfiles(m: Machine, files: seq<string>) returns (passwords: map<string, string>)
    ensures passwords == Assigned(KeyfileWrites(m, files))
  {
    passwords := map[];
    ghost var writes := KeyfileWrites(m, files);
    var i := 0;
    while i < |files|
      invariant i <= |files|
      invariant passwords == Assigned(writes[..i])
    {
      var file := files[i];
      var read := m.readFile(ConnectionsDir + file);
      var entry := KeyfileEntry(file, read);
      assert writes[..i + 1][..i] == writes[..i];
      passwords := passwords[entry.0 := entry.1];
      i := i + 1;
    }
    assert writes[..i] == writes;
  }

  /** `_get_linux_wifi_passwords`, with the path check, the scan, the listing and the reads given by `m`. */
  method GetLinuxWifiPasswords(m: Machine) returns (r: Outcome<map<string, string>>)
    ensures r == LinuxPasswords(m)
  {
    if !m.pathExists(ConnectionsDir) {
      if !m.installed(IwlistExe) {
        return Fail(NotFoundReason(IwlistExe));
      }
      var scan := m.run(IwlistCmd);
      if scan.Fail? {
        return Ok(map["Error" := ScanUnavailable]);
      }
      var names := ParseScan(scan.value);
      if names.Fail? {
        return Fail(names.reason);
      }
      var passwords := FillKeyring(names.value);
      return Ok(passwords);
    }
    var listing := m.listDir(ConnectionsDir);
    if listing.Fail? {
      return Ok(map["Error" := ErrorPrefix + listing.reason]);
    }
    var passwords := ReadKeyfiles(m, listing.value);
    return Ok(passwords);
  }
}
