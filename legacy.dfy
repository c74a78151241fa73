/**
 * The module-level scan the two original scripts share (the command-line table
 * script and the tkinter script carry the same code): take the profile names from
 * `netsh wlan show profile`, read each profile with `key=clear`, and record an
 * "encrypted" placeholder or the raw "Key Content" value. The shell is
 * `os.popen(cmd).read()`, taken here to return the decoded output: a command that
 * fails does not raise, it just prints less. What crashes the script (an `IndexError`)
 * is a `Fail`.
 */
module LegacyNetsh {
  import opened Wrappers
  import opened PyStr
  import opened PyList
  import opened Rows

  const ListCmd := "netsh wlan show profile"
  const EncryptedPlaceholder := "Encrypted - not available"
  const KeyMarker := "Key Content"

  /** `x.split(':')[1]` for a line with a colon; other lines give nothing. */
  function ColonSegment(line: string): Option<string>
  {
    if Contains(line, ":") then Some(Split(line, ":")[1]) else None
  }

  /** `[x.split(':')[1] for x in wifis if ':' in x]` over the listing's lines. */
  function Segments(listing: string): seq<string>
  {
    FilterMap(ColonSegment, Split(listing, "\n"))
  }

  /** A line's segment is the text between its first colon and the next colon (or the end of the line). */
  lemma SegmentBetweenColons(line: string)
    requires Contains(line, ":")
    ensures var rest := line[Find(line, ":").value + 1..];
      var seg := Split(line, ":")[1];
      && ColonSegment(line) == Some(seg)
      && |seg| <= |rest| && seg == rest[..|seg|]
      && ':' !in seg
      && (|seg| == |rest| || rest[|seg|] == ':')
  {
    var i := Find(line, ":").value;
    var rest := line[i + 1..];
    SplitSecondPiece(line, ":", i);
    SplitFirstPiece(rest, ":");
    var seg := Split(line, ":")[1];
    forall k | 0 <= k < |seg| ensures seg[k] != ':' {
      assert !OccursAt(seg, ":", k);
      assert seg[k..k + 1] == [seg[k]];
    }
    if |seg| < |rest| {
      assert rest[|seg|..|seg| + 1] == ":";
    }
  }

  /** One segment per line with a colon, in line order, whatever else the line says. */
  lemma SegmentsPerLine(before: seq<string>, line: string, after: seq<string>)
    ensures FilterMap(ColonSegment, before + [line] + after)
      == FilterMap(ColonSegment, before) + (if Contains(line, ":") then [Split(line, ":")[1]] else []) + FilterMap(ColonSegment, after)
  {
    FilterMapAppend(ColonSegment, before + [line], after);
    FilterMapAppend(ColonSegment, before, [line]);
    assert [line][..0] == [];
  }

  function PlainCmd(ssid: string): string
  {
    "netsh wlan show profile name=" + ssid + " key=clear"
  }

  function QuotedCmd(ssid: string): string
  {
    "netsh wlan show profile name=\"" + ssid + "\" key=clear"
  }

  /** The detail lines: those of the bare-name command, or of the quoted-name command when the first has fewer than 3. */
  function DetailLines(popen: string -> string, ssid: string): seq<string>
  {
    var lines := Split(popen(PlainCmd(ssid)), "\n");
    if |lines| < 3 then Split(popen(QuotedCmd(ssid)), "\n") else lines
  }

  /** The quoted name is tried exactly when the bare-name output holds at most one line break. */
  lemma RetryIffAtMostOneBreak(popen: string -> string, ssid: string)
    ensures DetailLines(popen, ssid)
      == if multiset(popen(PlainCmd(ssid)))['\n'] <= 1 then Split(popen(QuotedCmd(ssid)), "\n")
         else Split(popen(PlainCmd(ssid)), "\n")
  {
    SplitCountsSeparators(popen(PlainCmd(ssid)), '\n');
  }

  /** A single line holds both markers. */
  predicate IsEncryptedLine(line: string)
  {
    Contains(line, "Authentication") && Contains(line, "WPA2-Enterprise")
  }

  predicate HasEncryptedLine(lines: seq<string>)
  {
    exists k :: 0 <= k < |lines| && IsEncryptedLine(lines[k])
  }

  /**
   * What one profile's detail lines do to the dictionary: record a value, record nothing,
   * or crash with the `IndexError` of a "Key Content" line without `": "`.
   */
  function DetailVerdict(lines: seq<string>): Outcome<Option<string>>
  {
    if HasEncryptedLine(lines) then Ok(Some(EncryptedPlaceholder)) else KeyVerdict(lines)
  }

  /** The verdict of the "Key Content" loop alone. */
  function KeyVerdict(lines: seq<string>): Outcome<Option<string>>
  {
    match FirstContaining(lines, KeyMarker)
    case None => Ok(None)
    case Some(k) =>
      var parts := Split(lines[k], ": ");
      if |parts| < 2 then Fail(IndexErrorReason) else Ok(Some(parts[1]))
  }

  /** A line with both markers makes the profile "encrypted", and "Key Content" is not consulted. */
  lemma EncryptedLineWins(lines: seq<string>, k: nat)
    requires k < |lines| && IsEncryptedLine(lines[k])
    ensures DetailVerdict(lines) == Ok(Some(EncryptedPlaceholder))
  {
  }

  /** Without such a line and without a "Key Content" line, the profile is left out of the result. */
  lemma NoKeyLineNoEntry(lines: seq<string>)
    requires !HasEncryptedLine(lines)
    requires forall k :: 0 <= k < |lines| ==> !Contains(lines[k], KeyMarker)
    ensures DetailVerdict(lines) == Ok(None)
  {
    var first := FirstContaining(lines, KeyMarker);
    assert first.None?;
  }

  /**
   * Otherwise the first "Key Content" line decides: its second `": "`-piece, unstripped,
   * or the crash when it has no `": "`.
   */
  lemma FirstKeyLineUnstripped(lines: seq<string>, k: nat)
    requires !HasEncryptedLine(lines)
    requires k < |lines| && Contains(lines[k], KeyMarker)
    requires forall j :: 0 <= j < k ==> !Contains(lines[j], KeyMarker)
    ensures Contains(lines[k], ": ") ==> DetailVerdict(lines) == Ok(Some(Split(lines[k], ": ")[1]))
    ensures !Contains(lines[k], ": ") ==> DetailVerdict(lines) == Fail(IndexErrorReason)
  {
    var first := FirstContaining(lines, KeyMarker);
    assert first == Some(k);
  }

  /** The two `for` loops with their `encrypted` flag and `break`s. */
  method ClassifyDetail(lines: seq<string>) returns (r: Outcome<Option<string>>)
    ensures r == DetailVerdict(lines)
  {
    var encrypted := FindEncrypted(lines);
    if encrypted {
      return Ok(Some(EncryptedPlaceholder));
    }
    r := ReadKeyLine(lines);
  }

  /** The first loop: set `encrypted` and `break` at a line with both markers. */
  method FindEncrypted(lines: seq<string>) returns (encrypted: bool)
    ensures encrypted == HasEncryptedLine(lines)
  {
    encrypted := false;
    var i := 0;
    while i < |lines|
      invariant i <= |lines|
      invariant forall k :: 0 <= k < i ==> !IsEncryptedLine(lines[k])
    {
      if Contains(lines[i], "Authentication") && Contains(lines[i], "WPA2-Enterprise") {
        assert IsEncryptedLine(lines[i]);
        return true;
      }
      i := i + 1;
    }
  }

  /** The second loop: the first "Key Content" line decides. */
  method ReadKeyLine(lines: seq<string>) returns (r: Outcome<Option<string>>)
    ensures r == KeyVerdict(lines)
  {
    var j := 0;
    while j < |lines|
      invariant j <= |lines|
      invariant forall k :: 0 <= k < j ==> !Contains(lines[k], KeyMarker)
    {
      if Contains(lines[j], KeyMarker) {
        FirstContainingAt(lines, KeyMarker, j);
        var parts := Split(lines[j], ": ");
        if |parts| < 2 {
          return Fail(IndexErrorReason);
        }
        return Ok(Some(parts[1]));
      }
      j := j + 1;
    }
    FirstContainingNone(lines, KeyMarker);
    return Ok(None);
  }


  /** The name a segment stands for, when it is not skipped: `segment.lstrip(' ')`. */
  function SegmentName(seg: string): string
  {
    LStripChar(seg, ' ')
  }

  /** The verdict for each name, as a function. */
  function VerdictOf(popen: string -> string): string -> Outcome<Option<string>>
  {
    ssid => DetailVerdict(DetailLines(popen, ssid))
  }

  /** The dictionary after the loop has handled `segs`, or the crash, given each name's verdict. */
  function ScanSegments(verdict: string -> Outcome<Option<string>>, segs: seq<string>): Outcome<map<string, string>>
  {
    if segs == [] then Ok(map[])
    else
      match ScanSegments(verdict, segs[..|segs| - 1])
      case Fail(e) => Fail(e)
      case Ok(pwd) => ScanStep(verdict, pwd, segs[|segs| - 1])
  }

  /** One turn of the loop: skip an empty segment, otherwise classify the name it stands for. */
  function ScanStep(verdict: string -> Outcome<Option<string>>, pwd: map<string, string>, seg: string): Outcome<map<string, string>>
  {
    if seg == "" then Ok(pwd)
    else
      var ssid := SegmentName(seg);
      match verdict(ssid)
      case Fail(e) => Fail(e)
      case Ok(None) => Ok(pwd)
      case Ok(Some(v)) => Ok(pwd[ssid := v])
  }

  /** The dictionary `pwd` the script builds, or the crash. */
  function LegacyPasswords(popen: string -> string): Outcome<map<string, string>>
  {
    ScanSegments(VerdictOf(popen), Segments(popen(ListCmd)))
  }

  /** `ssid` is the name of one of the non-skipped segments. */
  predicate NamedBy(segs: seq<string>, ssid: string)
  {
    exists j :: 0 <= j < |segs| && segs[j] != "" && SegmentName(segs[j]) == ssid
  }

  /** The segment `seg` is not skipped and the profile it names crashes its classification. */
  predicate Crashes(verdict: string -> Outcome<Option<string>>, seg: string)
  {
    seg != "" && verdict(SegmentName(seg)).Fail?
  }

  /** One more segment crashes the scan exactly when the scan had crashed already or the new segment crashes. */
  lemma ScanFailStep(verdict: string -> Outcome<Option<string>>, segs: seq<string>)
    requires segs != []
    ensures ScanSegments(verdict, segs).Fail?
      <==> ScanSegments(verdict, segs[..|segs| - 1]).Fail? || Crashes(verdict, segs[|segs| - 1])
  {
    var before := ScanSegments(verdict, segs[..|segs| - 1]);
    if before.Ok? {
      ScanStepFail(verdict, before.value, segs[|segs| - 1]);
    }
  }

  /** One turn crashes exactly when its segment does. */
  lemma ScanStepFail(verdict: string -> Outcome<Option<string>>, pwd: map<string, string>, seg: string)
    ensures ScanStep(verdict, pwd, seg).Fail? <==> Crashes(verdict, seg)
  {
  }

  /** Some non-skipped segment names a profile whose classification crashes. */
  predicate AnyCrash(verdict: string -> Outcome<Option<string>>, segs: seq<string>)
  {
    SomeSatisfies(seg => Crashes(verdict, seg), segs)
  }

  /** The scan crashes exactly when one of the named profiles crashes its classification. */
  lemma {:induction false} ScanFailIff(verdict: string -> Outcome<Option<string>>, segs: seq<string>)
    ensures ScanSegments(verdict, segs).Fail? <==> AnyCrash(verdict, segs)
  {
    if segs != [] {
      ScanFailIff(verdict, segs[..|segs| - 1]);
      ScanFailStep(verdict, segs);
      SomeSatisfiesSnoc(seg => Crashes(verdict, seg), segs);
    }
  }

  /** One more segment names `ssid` exactly when it is not skipped and strips to `ssid`. */
  lemma NamedBySnoc(init: seq<string>, seg: string, ssid: string)
    ensures NamedBy(init + [seg], ssid) <==> NamedBy(init, ssid) || (seg != "" && SegmentName(seg) == ssid)
  {
    var segs := init + [seg];
    if NamedBy(init, ssid) {
      var j :| 0 <= j < |init| && init[j] != "" && SegmentName(init[j]) == ssid;
      assert segs[j] == init[j];
    }
    if seg != "" && SegmentName(seg) == ssid {
      assert segs[|init|] == seg;
    }
    if NamedBy(segs, ssid) {
      var j :| 0 <= j < |segs| && segs[j] != "" && SegmentName(segs[j]) == ssid;
      if j < |init| {
        assert init[j] == segs[j];
      }
    }
  }

  /**
   * When the scan completes, a name is in the dictionary exactly when some segment names it
   * and its classification records a value, and it holds that value: a repeated name is
   * classified again and the later update replaces the earlier one with the same value.
   */
  lemma {:induction false} ScanEntry(verdict: string -> Outcome<Option<string>>, segs: seq<string>, ssid: string)
    requires ScanSegments(verdict, segs).Ok?
    ensures var pwd := ScanSegments(verdict, segs).value;
      && (ssid in pwd <==> NamedBy(segs, ssid) && verdict(ssid).Ok? && verdict(ssid).value.Some?)
      && (ssid in pwd ==> pwd[ssid] == verdict(ssid).value.value)
  {
    if segs == [] {
      assert !NamedBy(segs, ssid);
    } else {
      var init := segs[..|segs| - 1];
      var seg := segs[|segs| - 1];
      assert segs == init + [seg];
      ScanEntry(verdict, init, ssid);
      NamedBySnoc(init, seg, ssid);
    }
  }

  /** Once the loop has crashed, the rest of the segments do not matter: the crash is the outcome. */
  lemma {:induction false} ScanCrashFinal(verdict: string -> Outcome<Option<string>>, segs: seq<string>, i: nat)
    requires i <= |segs| && ScanSegments(verdict, segs[..i]).Fail?
    ensures ScanSegments(verdict, segs) == ScanSegments(verdict, segs[..i])
    decreases |segs|
  {
    if i < |segs| {
      var init := segs[..|segs| - 1];
      assert init[..i] == segs[..i];
      ScanCrashFinal(verdict, init, i);
    } else {
      assert segs[..i] == segs;
    }
  }

  /** One more turn of the loop after a prefix that did not crash. */
  lemma ScanSnoc(verdict: string -> Outcome<Option<string>>, segs: seq<string>, i: nat, pwd: map<string, string>)
    requires i < |segs| && ScanSegments(verdict, segs[..i]) == Ok(pwd)
    ensures ScanSegments(verdict, segs[..i + 1]) == ScanStep(verdict, pwd, segs[i])
  {
    assert segs[..i + 1][..i] == segs[..i];
  }

  /** `verdictOf` gives the verdict the profile named `ssid` gets through `popen`. */
  predicate Agrees(popen: string -> string, verdictOf: string -> Outcome<Option<string>>, ssid: string)
  {
    verdictOf(ssid) == DetailVerdict(DetailLines(popen, ssid))
  }

  ghost predicate AllAgree(popen: string -> string, verdictOf: string -> Outcome<Option<string>>)
  {
    forall ssid :: Agrees(popen, verdictOf, ssid)
  }

  lemma VerdictOfAgrees(popen: string -> string)
    ensures AllAgree(popen, VerdictOf(popen))
  {
  }

  /** One profile: the detail command, the retry with the quoted name, and the classification. */
  method ReadProfile(popen: string -> string, ssid: string) returns (verdict: Outcome<Option<string>>)
    ensures verdict == DetailVerdict(DetailLines(popen, ssid))
  {
    var ssidinfo := Split(popen(PlainCmd(ssid)), "\n");
    if |ssidinfo| < 3 {
      ssidinfo := Split(popen(QuotedCmd(ssid)), "\n");
    }
    assert ssidinfo == DetailLines(popen, ssid);
    verdict := ClassifyDetail(ssidinfo);
  }

  /** The body of the main loop for one segment. */
  method HandleSegment(popen: string -> string, ghost verdictOf: string -> Outcome<Option<string>>,
                       pwd: map<string, string>, segment: string)
    returns (r: Outcome<map<string, string>>)
    requires AllAgree(popen, verdictOf)
    ensures r == ScanStep(verdictOf, pwd, segment)
  {
    if segment == "" {
      return Ok(pwd);
    }
    var ssid := LStripChar(segment, ' ');
    var verdict := ReadProfile(popen, ssid);
    assert Agrees(popen, verdictOf, ssid);
    if verdict.Fail? {
      return Fail(verdict.reason);
    }
    if verdict.value.Some? {
      return Ok(pwd[ssid := verdict.value.value]);
    }
    return Ok(pwd);
  }

  /**
   * The script's main loop over the segments, proved against any `verdictOf` that agrees
   * with the profiles' verdicts.
   */
  method ScanLoop(popen: string -> string, ghost verdictOf: string -> Outcome<Option<string>>, ssids: seq<string>)
    returns (r: Outcome<map<string, string>>)
    requires AllAgree(popen, verdictOf)
    ensures r == ScanSegments(verdictOf, ssids)
  {
    var pwd: map<string, string> := map[];
    var i := 0;
    while i < |ssids|
      invariant i <= |ssids|
      invariant ScanSegments(verdictOf, ssids[..i]) == Ok(pwd)
    {
      ScanSnoc(verdictOf, ssids, i, pwd);
      var next := HandleSegment(popen, verdictOf, pwd, ssids[i]);
      if next.Fail? {
        ScanCrashFinal(verdictOf, ssids, i + 1);
        return next;
      }
      pwd := next.value;
      i := i + 1;
    }
    assert ssids[..i] == ssids;
    return Ok(pwd);
  }

  /** The main loop over the given segments, reading the profiles through `popen`. */
  method ScanProfiles(popen: string -> string, ssids: seq<string>) returns (r: Outcome<map<string, string>>)
    ensures r == ScanSegments(VerdictOf(popen), ssids)
  {
    VerdictOfAgrees(popen);
    r := ScanLoop(popen, VerdictOf(popen), ssids);
  }

  /** The script's scan: list the profiles, take the segments, run the main loop. */
  method LegacyScan(popen: string -> string) returns (r: Outcome<map<string, string>>)
    ensures r == LegacyPasswords(popen)
  {
    var ssids := Segments(popen(ListCmd));
    r := ScanProfiles(popen, ssids);
  }

  /**
   * The rows both scripts show: the sorted, numbered pairs; the `zip(*pwds)` that splits
   * them into columns raises on an empty result.
   */
  function LegacyTable(pwd: map<string, string>): Outcome<seq<seq<string>>>
  {
    if |pwd| == 0 then Fail(IndexErrorReason) else Ok(Table(pwd))
  }

  /** The rows a script shows after a scan with outcome `scan`, or the crash of the scan or of the `zip`. */
  function RowsAfter(scan: Outcome<map<string, string>>): Outcome<seq<seq<string>>>
  {
    match scan
    case Fail(e) => Fail(e)
    case Ok(pwd) => LegacyTable(pwd)
  }

  /**
   * A completed scan shows one row per recorded profile, and every recorded profile has
   * one, numbered from 1 in ascending name order; a scan that records nothing crashes at
   * the `zip`.
   */
  lemma LegacyTableShape(pwd: map<string, string>)
    ensures LegacyTable(pwd).Fail? <==> pwd == map[]
    ensures LegacyTable(pwd).Ok? ==>
      var rows := LegacyTable(pwd).value;
      && |rows| == |pwd|
      && (forall i :: 0 <= i < |rows| ==>
            && |rows[i]| == 3 && rows[i][0] == NatToString(i + 1) && rows[i][1] in pwd && rows[i][2] == pwd[rows[i][1]])
      && (forall i, j :: 0 <= i < j < |rows| ==> Less(rows[i][1], rows[j][1]))
      && (forall k :: k in pwd ==> exists i :: 0 <= i < |rows| && rows[i][1] == k)
  {
    if pwd != map[] {
      assert pwd.Keys != {};
      TableShape(pwd);
    }
  }
}
