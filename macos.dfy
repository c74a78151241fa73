/**
 * The macOS collector of the PySimpleGUI retriever: list networks with `airport -s`
 * (or, when that fails, `networksetup -listpreferredwirelessnetworks en0`), then look
 * each one up with `security find-generic-password -l <name> -g`.
 */
module MacOS {
  import opened Wrappers
  import opened PyStr
  import opened PyList
  import opened Patterns
  import opened Host

  const AirportPrimary := "/System/Library/PrivateFrameworks/Apple80211.framework/Resources/airport"
  const AirportFallback := "/usr/sbin/airport"
  const NetworksetupExe := "networksetup"
  const NetworksetupCmd: seq<string> := [NetworksetupExe, "-listpreferredwirelessnetworks", "en0"]
  const SecurityExe := "security"
  const NoMatchPlaceholder := "Password access requires admin privileges"
  const LookupFailedPlaceholder := "Not Available (Admin privileges required)"
  const ErrorPrefix := "MacOS password retrieval error: "

  /** The `airport` executable: the framework copy when it exists, `/usr/sbin/airport` otherwise. */
  function AirportExe(m: Machine): string
  {
    if m.pathExists(AirportPrimary) then AirportPrimary else AirportFallback
  }

  function AirportCmd(m: Machine): seq<string>
  {
    [AirportExe(m), "-s"]
  }

  /** The scan's output, or what it raises: a `FileNotFoundError` when the executable is not found. */
  function AirportScan(m: Machine): Outcome<string>
  {
    if !m.installed(AirportExe(m)) then Fail(NotFoundReason(AirportExe(m))) else m.run(AirportCmd(m))
  }

  /** `line.strip().split()[0]` for a non-blank line of the scan; blank lines give nothing. */
  function AirportLineName(line: string): Option<string>
  {
    if Strip(line) != [] then Some(FirstWord(line)) else None
  }

  /** `line.strip()` for a non-blank line of the preferred-network list; blank lines give nothing. */
  function NetworksetupLineName(line: string): Option<string>
  {
    if Strip(line) != [] then Some(Strip(line)) else None
  }

  /** The lines after the header line (`output.split('\n')[1:]`). */
  function BodyLines(output: string): seq<string>
  {
    Split(output, "\n")[1..]
  }

  function AirportNames(output: string): seq<string>
  {
    FilterMap(AirportLineName, BodyLines(output))
  }

  function NetworksetupNames(output: string): seq<string>
  {
    FilterMap(NetworksetupLineName, BodyLines(output))
  }

  /** The header line is skipped whatever it says: only the lines after the first line break are parsed. */
  lemma HeaderSkipped(header: string, body: string)
    requires '\n' !in header
    ensures AirportNames(header + "\n" + body) == FilterMap(AirportLineName, Split(body, "\n"))
    ensures NetworksetupNames(header + "\n" + body) == FilterMap(NetworksetupLineName, Split(body, "\n"))
  {
    SplitCons(header, "\n", body);
  }

  /** Every name the airport scan lists is a non-empty word, so the collector's `if not ssid` never skips one. */
  lemma AirportNamesAreWords(output: string, n: string)
    requires n in AirportNames(output)
    ensures n != [] && forall k :: 0 <= k < |n| ==> !IsSpace(n[k])
  {
    var lines := BodyLines(output);
    FilterMapMembership(AirportLineName, lines, n);
    var k :| 0 <= k < |lines| && AirportLineName(lines[k]) == Some(n);
  }

  /** Every preferred network listed is non-empty and carries no surrounding whitespace. */
  lemma NetworksetupNamesStripped(output: string, n: string)
    requires n in NetworksetupNames(output)
    ensures n != [] && !IsSpace(n[0]) && !IsSpace(n[|n| - 1])
  {
    var lines := BodyLines(output);
    FilterMapMembership(NetworksetupLineName, lines, n);
    var k :| 0 <= k < |lines| && NetworksetupLineName(lines[k]) == Some(n);
  }

  /** The airport branch of the listing loop. */
  method ParseAirport(output: string) returns (ssids: seq<string>)
    ensures ssids == AirportNames(output)
  {
    var lines := BodyLines(output);
    ssids := [];
    var i := 0;
    while i < |lines|
      invariant i <= |lines|
      invariant ssids == FilterMap(AirportLineName, lines[..i])
    {
      var line := lines[i];
      FilterMapStep(AirportLineName, lines, i);
      if Strip(line) != [] {
        var ssid := FirstWord(line);
        ssids := ssids + [ssid];
      }
      i := i + 1;
    }
    assert lines[..i] == lines;
  }

  /** The networksetup branch of the listing loop. */
  method ParseNetworksetup(output: string) returns (ssids: seq<string>)
    ensures ssids == NetworksetupNames(output)
  {
    var lines := BodyLines(output);
    ssids := [];
    var i := 0;
    while i < |lines|
      invariant i <= |lines|
      invariant ssids == FilterMap(NetworksetupLineName, lines[..i])
    {
      var line := lines[i];
      FilterMapStep(NetworksetupLineName, lines, i);
      if Strip(line) != [] {
        ssids := ssids + [Strip(line)];
      }
      i := i + 1;
    }
    assert lines[..i] == lines;
  }

  /**
   * The names to look up, or the exception that escapes the listing. A failed or missing
   * `airport` (`SubprocessError`, `FileNotFoundError`) falls back to `networksetup`, whose
   * failure escapes to the outer handler.
   */
  function ListNetworks(m: Machine): Outcome<seq<string>>
  {
    match AirportScan(m)
    case Ok(out) => Ok(AirportNames(out))
    case Fail(_) =>
      if !m.installed(NetworksetupExe) then Fail(NotFoundReason(NetworksetupExe))
      else
        match m.run(NetworksetupCmd)
        case Ok(out) => Ok(NetworksetupNames(out))
        case Fail(e) => Fail(e)
  }

  /** `security find-generic-password -l <name> -g`. */
  function SecurityCmd(ssid: string): seq<string>
  {
    [SecurityExe, "find-generic-password", "-l", ssid, "-g"]
  }

  /** The secret recorded for one lookup's outcome. */
  function KeychainSecret(lookup: Outcome<string>): string
  {
    match lookup
    case Fail(_) => LookupFailedPlaceholder
    case Ok(out) =>
      match PasswordCapture(out)
      case Some(p) => p
      case None => NoMatchPlaceholder
  }

  /** A successful lookup records the capture of the leftmost match of `password: "(.*)"`. */
  lemma KeychainSecretOfMatch(out: string, i: nat)
    requires MatchPasswordAt(out, i).Some?
    requires forall j :: 0 <= j < i ==> MatchPasswordAt(out, j).None?
    ensures KeychainSecret(Ok(out)) == MatchPasswordAt(out, i).value
    ensures GreedyCapture(out, i, KeychainSecret(Ok(out)))
  {
    var first := FirstPasswordMatch(out, 0);
    assert first.Some?;
    assert first.value == i;
  }

  /** A successful lookup without any match records the admin-privileges placeholder. */
  lemma KeychainSecretNoMatch(out: string)
    requires forall i: nat :: MatchPasswordAt(out, i).None?
    ensures KeychainSecret(Ok(out)) == NoMatchPlaceholder
  {
    PasswordCaptureLeftmost(out);
  }

  function SecretOf(m: Machine): string -> string
  {
    n => KeychainSecret(m.run(SecurityCmd(n)))
  }

  /**
   * One lookup: the secret recorded, or the `FileNotFoundError` of a missing `security`,
   * which the per-name `except subprocess.SubprocessError` does not catch.
   */
  function Lookup(m: Machine, ssid: string): Outcome<string>
  {
    if !m.installed(SecurityExe) then Fail(NotFoundReason(SecurityExe)) else Ok(SecretOf(m)(ssid))
  }

  /** Some listed name is non-empty, so the loop looks it up. */
  predicate HasNonEmpty(ssids: seq<string>)
  {
    exists k :: 0 <= k < |ssids| && ssids[k] != ""
  }

  /**
   * What `_get_macos_wifi_passwords` returns. Every lookup runs the same executable, so a
   * missing `security` stops the loop at the first non-empty name, before any entry is
   * made, and the outer handler leaves only its `"Error"` entry.
   */
  function MacPasswords(m: Machine): map<string, string>
  {
    match ListNetworks(m)
    case Fail(e) => map["Error" := ErrorPrefix + e]
    case Ok(ssids) => ListedPasswords(m, ssids)
  }

  /**
   * The lookup loop over the listed names: an entry per non-empty name, unless `security`
   * is missing, whose `FileNotFoundError` at the first non-empty name replaces them all.
   */
  function ListedPasswords(m: Machine, ssids: seq<string>): map<string, string>
  {
    if !m.installed(SecurityExe) && HasNonEmpty(ssids) then map["Error" := ErrorPrefix + NotFoundReason(SecurityExe)]
    else FillNonEmpty(ssids, SecretOf(m))
  }

  /** The lookup loop's tiers for a listing of non-empty names. */
  lemma ListedPasswordsTiers(m: Machine, ssids: seq<string>)
    requires forall k :: 0 <= k < |ssids| ==> ssids[k] != ""
    ensures !m.installed(SecurityExe) ==>
      ListedPasswords(m, ssids) == if ssids == [] then map[] else map["Error" := ErrorPrefix + NotFoundReason(SecurityExe)]
    ensures m.installed(SecurityExe) ==>
      && ListedPasswords(m, ssids).Keys == (set n | n in ssids)
      && forall n :: n in ssids && m.run(SecurityCmd(n)).Fail? ==> ListedPasswords(m, ssids)[n] == LookupFailedPlaceholder
  {
    if ssids != [] {
      assert ssids[0] != "";
    }
    forall n | n in ssids ensures n != "" {
      var k :| 0 <= k < |ssids| && ssids[k] == n;
    }
  }

  /** Every name the listing gives is non-empty, whichever command gave it. */
  lemma ListedNamesNonEmpty(m: Machine)
    requires ListNetworks(m).Ok?
    ensures forall k :: 0 <= k < |ListNetworks(m).value| ==> ListNetworks(m).value[k] != ""
  {
    var ssids := ListNetworks(m).value;
    forall k | 0 <= k < |ssids| ensures ssids[k] != "" {
      if AirportScan(m).Ok? {
        AirportNamesAreWords(AirportScan(m).value, ssids[k]);
      } else {
        NetworksetupNamesStripped(m.run(NetworksetupCmd).value, ssids[k]);
      }
    }
  }

  /**
   * The failure tiers: when the listing fails the result is the single `"Error"` entry with
   * the exception text; a missing `security` leaves only its `"Error"` entry once anything is
   * listed; otherwise every listed name has an entry, and a failed lookup gives that name
   * the admin-privileges placeholder.
   */
  lemma MacFailureTiers(m: Machine)
    ensures ListNetworks(m).Fail? ==> MacPasswords(m) == map["Error" := ErrorPrefix + ListNetworks(m).reason]
    ensures ListNetworks(m).Ok? && !m.installed(SecurityExe) ==>
      MacPasswords(m) == if ListNetworks(m).value == [] then map[] else map["Error" := ErrorPrefix + NotFoundReason(SecurityExe)]
    ensures ListNetworks(m).Ok? && m.installed(SecurityExe) ==>
      && MacPasswords(m).Keys == (set n | n in ListNetworks(m).value)
      && forall n :: n in ListNetworks(m).value && m.run(SecurityCmd(n)).Fail?
           ==> MacPasswords(m)[n] == LookupFailedPlaceholder
  {
    if ListNetworks(m).Ok? {
      ListedNamesNonEmpty(m);
      ListedPasswordsTiers(m, ListNetworks(m).value);
    }
  }

  /** An entry depends only on the listing and on its own lookup. */
  lemma MacEntryIsolation(m1: Machine, m2: Machine, n: string)
    requires ListNetworks(m1) == ListNetworks(m2) && ListNetworks(m1).Ok?
    requires m1.installed(SecurityExe) == m2.installed(SecurityExe)
    requires m1.run(SecurityCmd(n)) == m2.run(SecurityCmd(n))
    ensures n in MacPasswords(m1) <==> n in MacPasswords(m2)
    ensures n in MacPasswords(m1) ==> MacPasswords(m1)[n] == MacPasswords(m2)[n]
  {
  }

  /** The listing half of the collector: airport first, networksetup when airport fails or is missing. */
  method ListMacNetworks(m: Machine) returns (r: Outcome<seq<string>>)
    ensures r == ListNetworks(m)
  {
    var airport := AirportExe(m);
    if m.installed(airport) {
      var scan := m.run([airport, "-s"]);
      if scan.Ok? {
        var ssids := ParseAirport(scan.value);
        return Ok(ssids);
      }
    }
    if !m.installed(NetworksetupExe) {
      return Fail(NotFoundReason(NetworksetupExe));
    }
    var preferred := m.run(NetworksetupCmd);
    if preferred.Fail? {
      return Fail(preferred.reason);
    }
    var ssids := ParseNetworksetup(preferred.value);
    return Ok(ssids);
  }

  /** The body of the per-name `try`, or the exception that escapes it. */
  method LookupSecret(m: Machine, ssid: string) returns (secret: Outcome<string>)
    ensures secret == Lookup(m, ssid)
  {
    if !m.installed(SecurityExe) {
      return Fail(NotFoundReason(SecurityExe));
    }
    var lookup := m.run(SecurityCmd(ssid));
    if lookup.Fail? {
      return Ok(LookupFailedPlaceholder);
    }
    var capture := PasswordCapture(lookup.value);
    if capture.Some? {
      return Ok(capture.value);
    }
    return Ok(NoMatchPlaceholder);
  }

  /** `_get_macos_wifi_passwords`, with the commands' outcomes and the path check given by `m`. */
  method GetMacosWifiPasswords(m: Machine) returns (passwords: map<string, string>)
    ensures passwords == MacPasswords(m)
  {
    var listing := ListMacNetworks(m);
    if listing.Fail? {
      return map["Error" := ErrorPrefix + listing.reason];
    }
    passwords := LookupListed(m, listing.value);
  }

  /** The lookup loop of `_get_macos_wifi_passwords` over the listed names. */
  method LookupListed(m: Machine, ssids: seq<string>) returns (passwords: map<string, string>)
    ensures passwords == ListedPasswords(m, ssids)
  {
    passwords := map[];
    var i := 0;
    while i < |ssids|
      invariant i <= |ssids|
      invariant passwords == FillNonEmpty(ssids[..i], SecretOf(m))
      invariant !m.installed(SecurityExe) ==> forall k :: 0 <= k < i ==> ssids[k] == ""
    {
      var ssid := ssids[i];
      FillNonEmptyStep(ssids, i, SecretOf(m));
      if ssid != "" {
        var secret := LookupSecret(m, ssid);
        if secret.Fail? {
          assert passwords == map[] by {
            assert forall n :: n in ssids[..i] ==> n == "";
          }
          assert HasNonEmpty(ssids);
          passwords := passwords["Error" := ErrorPrefix + secret.reason];
          return;
        }
        passwords := passwords[ssid := secret.value];
      }
      i := i + 1;
    }
    assert ssids[..i] == ssids;
  }
}
