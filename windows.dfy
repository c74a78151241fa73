/**
 * The Windows collector of the PySimpleGUI retriever: parse `netsh wlan show profiles`
 * for profile names, then classify each profile's `netsh wlan show profile name=<X> key=clear`
 * output as an enterprise placeholder, the "Key Content" secret, or a placeholder.
 */
module WindowsNetsh {
  import opened Wrappers
  import opened PyStr
  import opened PyList
  import opened Host

  const Netsh := "netsh"
  const ListProfilesCmd: seq<string> := [Netsh, "wlan", "show", "profiles"]
  const ProfileMarker := "All User Profile"
  const KeyMarker := "Key Content"
  const EnterprisePlaceholder := "Enterprise Authentication - Not Available"
  const NoPasswordPlaceholder := "No Password or Not Available"
  const ErrorPlaceholder := "Error Retrieving Password"
  const ListingError := "Unable to retrieve Wi-Fi profiles"

  /** A line of the profile listing that names a profile. */
  predicate IsProfileLine(line: string)
  {
    Contains(line, ": ") && Contains(line, ProfileMarker)
  }

  /** `line.split(': ')[1].strip()` for a profile line; other lines give nothing. */
  function ProfileLineName(line: string): Option<string>
  {
    if IsProfileLine(line) then Some(Strip(Split(line, ": ")[1])) else None
  }

  /** The `ssids` list built from the listing's lines, empty names included. */
  function ProfileNames(lines: seq<string>): seq<string>
  {
    FilterMap(ProfileLineName, lines)
  }

  /**
   * A profile line names the stripped text that follows its first `": "` and runs up to
   * the next `": "` or to the end of the line.
   */
  lemma ProfileNameBetweenSeparators(line: string)
    requires IsProfileLine(line)
    ensures var rest := line[Find(line, ": ").value + 2..];
      var seg := Split(line, ": ")[1];
      && ProfileLineName(line) == Some(Strip(seg))
      && |seg| <= |rest| && seg == rest[..|seg|]
      && !Contains(seg, ": ")
      && (|seg| == |rest| || OccursAt(rest, ": ", |seg|))
  {
    var i := Find(line, ": ").value;
    SplitSecondPiece(line, ": ", i);
    SplitFirstPiece(line[i + 2..], ": ");
  }

  /** Exactly one name per profile line, in line order: a line adds its name between those of the lines around it. */
  lemma ProfileNamesPerLine(before: seq<string>, line: string, after: seq<string>)
    ensures ProfileNames(before + [line] + after)
      == ProfileNames(before) + (if IsProfileLine(line) then [Strip(Split(line, ": ")[1])] else []) + ProfileNames(after)
  {
    FilterMapAppend(ProfileLineName, before + [line], after);
    FilterMapAppend(ProfileLineName, before, [line]);
    assert [line][..0] == [];
  }

  /** The loop at the top of the collector: append the name of every profile line. */
  method ExtractProfileNames(output: string) returns (ssids: seq<string>)
    ensures ssids == ProfileNames(Split(output, "\n"))
  {
    var lines := Split(output, "\n");
    ssids := [];
    var i := 0;
    while i < |lines|
      invariant i <= |lines|
      invariant ssids == FilterMap(ProfileLineName, lines[..i])
    {
      var line := lines[i];
      FilterMapStep(ProfileLineName, lines, i);
      if Contains(line, ": ") && Contains(line, ProfileMarker) {
        var ssid := Strip(Split(line, ": ")[1]);
        ssids := ssids + [ssid];
      }
      i := i + 1;
    }
    assert lines[..i] == lines;
  }

  /** Both markers occur somewhere in the detail output, not necessarily on one line. */
  predicate IsEnterprise(detail: string)
  {
    Contains(detail, "Authentication") && Contains(detail, "WPA2-Enterprise")
  }

  /** `line.split(': ')[1].strip()`, or the error placeholder for the `IndexError` when the line has no `": "`. */
  function KeyLineSecret(line: string): string
  {
    var parts := Split(line, ": ");
    if |parts| < 2 then ErrorPlaceholder else Strip(parts[1])
  }

  /** The secret one profile's detail output yields. */
  function DetailSecret(detail: string): string
  {
    if IsEnterprise(detail) then EnterprisePlaceholder
    else
      var lines := Split(detail, "\n");
      match FirstContaining(lines, KeyMarker)
      case None => NoPasswordPlaceholder
      case Some(k) => KeyLineSecret(lines[k])
  }

  /** No line mentions "Key Content". */
  predicate NoKeyLine(lines: seq<string>)
  {
    forall k :: 0 <= k < |lines| ==> !Contains(lines[k], KeyMarker)
  }

  /** Line `k` of a non-enterprise detail output is the first that mentions "Key Content". */
  predicate FirstKeyLine(detail: string, lines: seq<string>, k: int)
  {
    && 0 <= k < |lines|
    && !IsEnterprise(detail)
    && Contains(lines[k], KeyMarker)
    && forall j :: 0 <= j < k ==> !Contains(lines[j], KeyMarker)
  }

  /** Enterprise authentication wins over any "Key Content" line. */
  lemma EnterpriseWins(detail: string)
    requires IsEnterprise(detail)
    ensures DetailSecret(detail) == EnterprisePlaceholder
  {
  }

  /** Without enterprise markers and without a "Key Content" line, the "no password" placeholder is recorded. */
  lemma NoKeyLineMeansNoPassword(detail: string)
    requires !IsEnterprise(detail)
    requires NoKeyLine(Split(detail, "\n"))
    ensures DetailSecret(detail) == NoPasswordPlaceholder
  {
    var first := FirstContaining(Split(detail, "\n"), KeyMarker);
    assert first.None?;
  }

  /**
   * Otherwise the first line mentioning "Key Content" decides: its stripped second `": "`-piece,
   * or the error placeholder when the line has no `": "`.
   */
  lemma FirstKeyLineDecides(detail: string, k: nat)
    requires FirstKeyLine(detail, Split(detail, "\n"), k)
    ensures var line := Split(detail, "\n")[k];
      DetailSecret(detail) == if Contains(line, ": ") then Strip(Split(line, ": ")[1]) else ErrorPlaceholder
  {
    var lines := Split(detail, "\n");
    var first := FirstContaining(lines, KeyMarker);
    assert first == Some(k);
  }

  /** The body of the per-profile `try`: the enterprise test, then the `for ... else` over the lines. */
  method ReadDetailSecret(detail: string) returns (secret: string)
    ensures secret == DetailSecret(detail)
  {
    if Contains(detail, "Authentication") && Contains(detail, "WPA2-Enterprise") {
      return EnterprisePlaceholder;
    }
    var lines := Split(detail, "\n");
    var i := 0;
    while i < |lines|
      invariant i <= |lines|
      invariant forall k :: 0 <= k < i ==> !Contains(lines[k], KeyMarker)
    {
      if Contains(lines[i], KeyMarker) {
        assert FirstContaining(lines, KeyMarker) == Some(i) by {
          FirstContainingAt(lines, KeyMarker, i);
        }
        var parts := Split(lines[i], ": ");
        if |parts| < 2 {
          return ErrorPlaceholder;
        }
        return Strip(parts[1]);
      }
      i := i + 1;
    }
    assert FirstContaining(lines, KeyMarker).None? by {
      FirstContainingNone(lines, KeyMarker);
    }
    return NoPasswordPlaceholder;
  }

  /** `netsh wlan show profile <arg> key=clear`. */
  function DetailCmd(arg: string): seq<string>
  {
    [Netsh, "wlan", "show", "profile", arg, "key=clear"]
  }

  function PlainArg(ssid: string): string { "name=" + ssid }

  function QuotedArg(ssid: string): string { "name=\"" + ssid + "\"" }

  /** The detail output: with the bare name, and with the quoted name when the first command fails. */
  function ProbeDetail(run: seq<string> -> Outcome<string>, ssid: string): Outcome<string>
  {
    match run(DetailCmd(PlainArg(ssid)))
    case Ok(out) => Ok(out)
    case Fail(_) => run(DetailCmd(QuotedArg(ssid)))
  }

  /** The secret recorded for one profile name. */
  function EntrySecret(run: seq<string> -> Outcome<string>, ssid: string): string
  {
    match ProbeDetail(run, ssid)
    case Ok(detail) => DetailSecret(detail)
    case Fail(_) => ErrorPlaceholder
  }

  /** The secret for each name, as a function. */
  function SecretOf(run: seq<string> -> Outcome<string>): string -> string
  {
    n => EntrySecret(run, n)
  }

  /**
   * What `_get_windows_wifi_passwords` returns, or the `FileNotFoundError` that escapes it
   * when `netsh` is not found (only `SubprocessError` is caught). The detail commands run
   * the same executable, so once the listing has started they cannot raise it.
   */
  function WindowsPasswords(m: Machine): Outcome<map<string, string>>
  {
    if !m.installed(Netsh) then Fail(WindowsNotFoundReason)
    else
      match m.run(ListProfilesCmd)
      case Fail(_) => Ok(map["Error" := ListingError])
      case Ok(out) => Ok(FillNonEmpty(ProfileNames(Split(out, "\n")), SecretOf(m.run)))
  }

  /**
   * The failure tiers: a missing `netsh` escapes as `FileNotFoundError`; a failed listing is
   * one `"Error"` entry standing for the whole result; otherwise every non-empty listed name
   * has an entry, and a name whose two detail commands both fail gets the error placeholder.
   */
  lemma WindowsFailureTiers(m: Machine)
    ensures WindowsPasswords(m).Fail? <==> !m.installed(Netsh)
    ensures !m.installed(Netsh) ==> WindowsPasswords(m).reason == WindowsNotFoundReason
    ensures m.installed(Netsh) && m.run(ListProfilesCmd).Fail? ==> WindowsPasswords(m) == Ok(map["Error" := ListingError])
    ensures m.installed(Netsh) && m.run(ListProfilesCmd).Ok? ==>
      var ssids := ProfileNames(Split(m.run(ListProfilesCmd).value, "\n"));
      && WindowsPasswords(m).Ok?
      && WindowsPasswords(m).value.Keys == (set n | n in ssids && n != "")
      && forall n :: n in ssids && n != "" && m.run(DetailCmd(PlainArg(n))).Fail? && m.run(DetailCmd(QuotedArg(n))).Fail?
           ==> WindowsPasswords(m).value[n] == ErrorPlaceholder
  {
  }

  /**
   * An entry depends only on the listing and on its own two detail commands, so a failure
   * for one name leaves every other entry as it was.
   */
  lemma WindowsEntryIsolation(m1: Machine, m2: Machine, n: string)
    requires m1.installed(Netsh) && m2.installed(Netsh)
    requires m1.run(ListProfilesCmd) == m2.run(ListProfilesCmd)
    requires m1.run(DetailCmd(PlainArg(n))) == m2.run(DetailCmd(PlainArg(n)))
    requires m1.run(DetailCmd(QuotedArg(n))) == m2.run(DetailCmd(QuotedArg(n)))
    requires m1.run(ListProfilesCmd).Ok?
    ensures WindowsPasswords(m1).Ok? && WindowsPasswords(m2).Ok?
    ensures n in WindowsPasswords(m1).value <==> n in WindowsPasswords(m2).value
    ensures n in WindowsPasswords(m1).value ==> WindowsPasswords(m1).value[n] == WindowsPasswords(m2).value[n]
  {
  }

  /** The body of the per-profile `try`: the plain command, the quoted retry, then the secret. */
  method LookupSecret(run: seq<string> -> Outcome<string>, ssid: string) returns (secret: string)
    ensures secret == SecretOf(run)(ssid)
  {
    var detail := run(DetailCmd(PlainArg(ssid)));
    if detail.Fail? {
      detail := run(DetailCmd(QuotedArg(ssid)));
    }
    if detail.Fail? {
      return ErrorPlaceholder;
    }
    secret := ReadDetailSecret(detail.value);
  }

  /** `_get_windows_wifi_passwords`, with the executable lookup and the commands' outcomes given by `m`. */
  method GetWindowsWifiPasswords(m: Machine) returns (r: Outcome<map<string, string>>)
    ensures r == WindowsPasswords(m)
  {
    if !m.installed(Netsh) {
      return Fail(WindowsNotFoundReason);
    }
    var run := m.run;
    var listing := run(ListProfilesCmd);
    if listing.Fail? {
      return Ok(map["Error" := ListingError]);
    }
    var ssids := ExtractProfileNames(listing.value);
    var passwords: map<string, string> := map[];
    var i := 0;
    while i < |ssids|
      invariant i <= |ssids|
      invariant passwords == FillNonEmpty(ssids[..i], SecretOf(run))
    {
      var ssid := ssids[i];
      FillNonEmptyStep(ssids, i, SecretOf(run));
      if ssid != "" {
        var secret := LookupSecret(run, ssid);
        passwords := passwords[ssid := secret];
      }
      i := i + 1;
    }
    assert ssids[..i] == ssids;
    return Ok(passwords);
  }
}
