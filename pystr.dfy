/**
 * The Python `str` operations the parsers rely on, over `seq<char>`:
 * substring search (`t in s`, `s.find(t)`), `s.split(sep)` and `sep.join(parts)`,
 * `strip`/`lstrip`, `split()[0]`, `replace(pat, "")`, `str(n)` for a natural number,
 * and the part of a line a regular-expression `.*` matches.
 */
module PyStr {
  import opened Wrappers

  /** `t` occurs in `s` starting at index `i`. */
  predicate OccursAt(s: string, t: string, i: nat)
  {
    i + |t| <= |s| && s[i..i + |t|] == t
  }

  /** The first index at or after `from` where `t` occurs in `s` (Python's `s.find(t, from)`, with `None` for -1). */
  function FindFrom(s: string, t: string, from: nat): (r: Option<nat>)
    ensures r.Some? ==> from <= r.value && OccursAt(s, t, r.value)
    ensures r.Some? ==> forall j :: from <= j < r.value ==> !OccursAt(s, t, j)
    ensures r.None? ==> forall j :: from <= j ==> !OccursAt(s, t, j)
    decreases |s| - from
  {
    if |s| < from + |t| then None
    else if s[from..from + |t|] == t then Some(from)
    else FindFrom(s, t, from + 1)
  }

  /** The first index where `t` occurs in `s`. */
  function Find(s: string, t: string): Option<nat>
  {
    FindFrom(s, t, 0)
  }

  /** Python's `t in s`. */
  function Contains(s: string, t: string): bool
  {
    Find(s, t).Some?
  }

  /** `sep.join(parts)`. */
  function Join(parts: seq<string>, sep: string): string
  {
    if |parts| == 0 then []
    else if |parts| == 1 then parts[0]
    else parts[0] + sep + Join(parts[1..], sep)
  }

  /** The text before the first occurrence of `sep` does not contain `sep`. */
  lemma PrefixBeforeFirst(s: string, sep: string, i: nat)
    requires sep != [] && OccursAt(s, sep, i)
    requires forall j :: 0 <= j < i ==> !OccursAt(s, sep, j)
    ensures !Contains(s[..i], sep)
  {
    forall j: nat ensures !OccursAt(s[..i], sep, j) {
      if j + |sep| <= i {
        assert s[..i][j..j + |sep|] == s[j..j + |sep|];
        assert j < i && !OccursAt(s, sep, j);
      }
    }
  }

  /**
   * Python's `s.split(sep)` for a non-empty separator: the pieces between the
   * non-overlapping occurrences of `sep`, found left to right. For a separator that
   * overlaps itself (`"aa"` in `"aaa"`) these ensures alone admit other splittings;
   * SplitFirstPiece and SplitSecondPiece pin down the leftmost one Python makes, and
   * no separator of the collectors overlaps itself.
   */
  function Split(s: string, sep: string): (parts: seq<string>)
    requires sep != []
    ensures |parts| >= 1
    ensures Join(parts, sep) == s
    ensures forall k :: 0 <= k < |parts| ==> !Contains(parts[k], sep)
    ensures |parts| >= 2 <==> Contains(s, sep)
    decreases |s|
  {
    match Find(s, sep)
    case None => [s]
    case Some(i) =>
      PrefixBeforeFirst(s, sep, i);
      var rest := Split(s[i + |sep|..], sep);
      assert s == s[..i] + sep + s[i + |sep|..];
      [s[..i]] + rest
  }

  /** Splitting on a one-character separator peels off a first piece that holds no separator. */
  lemma SplitCons(a: string, sep: string, b: string)
    requires |sep| == 1 && sep[0] !in a
    ensures Split(a + sep + b, sep) == [a] + Split(b, sep)
  {
    var s := a + sep + b;
    assert OccursAt(s, sep, |a|) by { assert s[|a|..|a| + 1] == sep; }
    forall j | 0 <= j < |a| ensures !OccursAt(s, sep, j) {
      assert s[j] == a[j];
    }
    assert Find(s, sep) == Some(|a|);
    assert s[..|a|] == a;
    assert s[|a| + |sep|..] == b;
  }

  /** The first piece of `s.split(sep)`: a prefix of `s` without `sep`, ending at the end of `s` or at the first `sep`. */
  lemma SplitFirstPiece(s: string, sep: string)
    requires sep != []
    ensures var p := Split(s, sep)[0];
      && p == s[..|p|]
      && !Contains(p, sep)
      && (|p| == |s| || OccursAt(s, sep, |p|))
  {
  }

  /** The second piece of `s.split(sep)` is the first piece of the text after the first `sep`. */
  lemma SplitSecondPiece(s: string, sep: string, i: nat)
    requires sep != [] && OccursAt(s, sep, i)
    requires forall j :: 0 <= j < i ==> !OccursAt(s, sep, j)
    ensures |Split(s, sep)| >= 2
    ensures Split(s, sep)[1] == Split(s[i + |sep|..], sep)[0]
  {
    assert Find(s, sep) == Some(i);
  }

  /** Splitting on one character gives one more piece than there are occurrences of it. */
  lemma {:induction false} SplitCountsSeparators(s: string, c: char)
    ensures |Split(s, [c])| == multiset(s)[c] + 1
    decreases |s|
  {
    match Find(s, [c])
    case None =>
      forall j | 0 <= j < |s| ensures s[j] != c {
        assert !OccursAt(s, [c], j);
        assert s[j..j + 1] == [s[j]];
      }
      assert c !in multiset(s);
    case Some(i) =>
      forall j | 0 <= j < i ensures s[j] != c {
        assert !OccursAt(s, [c], j);
        assert s[j..j + 1] == [s[j]];
      }
      assert c !in multiset(s[..i]);
      assert s[i..i + 1] == [c];
      assert s == s[..i] + [c] + s[i + 1..];
      SplitCountsSeparators(s[i + 1..], c);
  }

  /** Python's `str.isspace()` for one character: what `strip()` and `split()` treat as whitespace. */
  predicate IsSpace(c: char)
  {
    var n := c as int;
    || (0x09 <= n <= 0x0D) || (0x1C <= n <= 0x20) || n == 0x85 || n == 0xA0 || n == 0x1680
    || (0x2000 <= n <= 0x200A) || n == 0x2028 || n == 0x2029 || n == 0x202F || n == 0x205F
    || n == 0x3000
  }

  /** Python's `s.lstrip()`. */
  function LStrip(s: string): (r: string)
    ensures |r| <= |s| && r == s[|s| - |r|..]
    ensures forall k :: 0 <= k < |s| - |r| ==> IsSpace(s[k])
    ensures r == [] || !IsSpace(r[0])
  {
    if s != [] && IsSpace(s[0]) then LStrip(s[1..]) else s
  }

  /** Python's `s.rstrip()`. */
  function RStrip(s: string): (r: string)
    ensures |r| <= |s| && r == s[..|r|]
    ensures forall k :: |r| <= k < |s| ==> IsSpace(s[k])
    ensures r == [] || !IsSpace(r[|r| - 1])
  {
    if s != [] && IsSpace(s[|s| - 1]) then RStrip(s[..|s| - 1]) else s
  }

  /** The number of whitespace characters `s.lstrip()` removes. */
  function LeadingSpaces(s: string): (n: nat)
    ensures n <= |s|
  {
    |s| - |LStrip(s)|
  }

  /** Python's `s.strip()`: `s` without its leading and trailing whitespace. */
  function Strip(s: string): (r: string)
    ensures r == [] || (!IsSpace(r[0]) && !IsSpace(r[|r| - 1]))
    ensures LeadingSpaces(s) + |r| <= |s| && r == s[LeadingSpaces(s)..LeadingSpaces(s) + |r|]
    ensures forall k :: 0 <= k < LeadingSpaces(s) ==> IsSpace(s[k])
    ensures forall k :: LeadingSpaces(s) + |r| <= k < |s| ==> IsSpace(s[k])
  {
    RStrip(LStrip(s))
  }

  /** `strip()` leaves a string with no surrounding whitespace unchanged, so stripping twice is stripping once. */
  lemma StripUnpadded(s: string)
    requires s == [] || (!IsSpace(s[0]) && !IsSpace(s[|s| - 1]))
    ensures Strip(s) == s
  {
  }

  /** `s.strip()` is empty exactly when every character of `s` is whitespace. */
  lemma StripEmptyIffBlank(s: string)
    ensures Strip(s) == [] <==> forall k :: 0 <= k < |s| ==> IsSpace(s[k])
  {
    if Strip(s) != [] {
      assert Strip(s)[0] == s[LeadingSpaces(s)];
    }
  }

  /** Python's `s.lstrip(c)` for the single character `c`. */
  function LStripChar(s: string, c: char): (r: string)
    ensures |r| <= |s| && r == s[|s| - |r|..]
    ensures forall k :: 0 <= k < |s| - |r| ==> s[k] == c
    ensures r == [] || r[0] != c
  {
    if s != [] && s[0] == c then LStripChar(s[1..], c) else s
  }

  /** The longest prefix of `s` that holds no whitespace. */
  function TakeWord(s: string): (w: string)
    ensures |w| <= |s| && w == s[..|w|]
    ensures forall k :: 0 <= k < |w| ==> !IsSpace(w[k])
    ensures |w| == |s| || IsSpace(s[|w|])
  {
    if s == [] || IsSpace(s[0]) then [] else [s[0]] + TakeWord(s[1..])
  }

  /** Python's `line.strip().split()[0]`, which the caller evaluates only when `line.strip()` is not empty. */
  function FirstWord(line: string): (w: string)
    requires Strip(line) != []
    ensures w != [] && |w| <= |Strip(line)| && w == Strip(line)[..|w|]
    ensures forall k :: 0 <= k < |w| ==> !IsSpace(w[k])
    ensures |w| == |Strip(line)| || IsSpace(Strip(line)[|w|])
  {
    TakeWord(Strip(line))
  }

  /** Total length of the pieces. */
  function TotalLength(parts: seq<string>): nat
  {
    if parts == [] then 0 else |parts[0]| + TotalLength(parts[1..])
  }

  lemma {:induction false} JoinLength(parts: seq<string>, sep: string)
    requires |parts| >= 1
    ensures |Join(parts, sep)| == TotalLength(parts) + |sep| * (|parts| - 1)
  {
    if |parts| > 1 {
      JoinLength(parts[1..], sep);
    }
  }

  /** Joining without a separator is shorter by one separator per gap. */
  lemma JoinWithoutSeparator(parts: seq<string>, sep: string)
    requires |parts| >= 1
    ensures |Join(parts, [])| + |sep| * (|parts| - 1) == |Join(parts, sep)|
    ensures |parts| == 1 ==> Join(parts, []) == Join(parts, sep)
  {
    JoinLength(parts, sep);
    JoinLength(parts, []);
  }

  /** Python's `s.replace(pat, "")`: every non-overlapping occurrence of `pat`, found left to right, removed. */
  function RemoveAll(s: string, pat: string): (r: string)
    requires pat != []
    ensures !Contains(s, pat) ==> r == s
    ensures |r| + |pat| * (|Split(s, pat)| - 1) == |s|
  {
    var parts := Split(s, pat);
    var n := |parts|;
    JoinWithoutSeparator(parts, pat);
    assert Join(parts, pat) == s;
    assert !Contains(s, pat) ==> n == 1;
    Join(parts, [])
  }

  /** `pat` cannot overlap itself: its first character occurs nowhere else in it. */
  predicate SelfDisjoint(pat: string)
  {
    pat != [] && pat[0] !in pat[1..]
  }

  /** After a text without it, the first occurrence of a separator that cannot overlap itself is where the split happens. */
  lemma SplitAtFirst(a: string, sep: string, b: string)
    requires SelfDisjoint(sep) && !Contains(a, sep)
    ensures Split(a + sep + b, sep) == [a] + Split(b, sep)
  {
    var s := a + sep + b;
    assert OccursAt(s, sep, |a|) by { assert s[|a|..|a| + |sep|] == sep; }
    forall j | 0 <= j < |a| ensures !OccursAt(s, sep, j) {
      if j + |sep| <= |a| {
        assert s[j..j + |sep|] == a[j..j + |sep|];
        assert !OccursAt(a, sep, j);
      } else {
        assert sep[|a| - j] == sep[1..][|a| - j - 1];
        assert s[j..j + |sep|][|a| - j] == s[|a|] == sep[0];
      }
    }
    assert Find(s, sep) == Some(|a|);
    assert s[..|a|] == a;
    assert s[|a| + |sep|..] == b;
  }

  /** For a pattern that cannot overlap itself, `replace(pat, "")` drops its first occurrence and carries on after it. */
  lemma RemoveAllFirst(a: string, pat: string, b: string)
    requires SelfDisjoint(pat) && !Contains(a, pat)
    ensures RemoveAll(a + pat + b, pat) == a + RemoveAll(b, pat)
  {
    SplitAtFirst(a, pat, b);
    var rest := Split(b, pat);
    JoinCons(a, rest, []);
    assert a + [] == a;
  }

  /** Joining a leading part onto at least one more. */
  lemma JoinCons(x: string, rest: seq<string>, sep: string)
    requires |rest| >= 1
    ensures Join([x] + rest, sep) == x + sep + Join(rest, sep)
  {
    assert ([x] + rest)[1..] == rest;
  }

  /** What a regular-expression `.*` matches at the start of `s`: the text before the first line break. */
  function RestOfLine(s: string): (r: string)
    ensures |r| <= |s| && r == s[..|r|]
    ensures '\n' !in r
    ensures |r| == |s| || s[|r|] == '\n'
  {
    if s == [] || s[0] == '\n' then [] else [s[0]] + RestOfLine(s[1..])
  }

  /** The index of the last `c` in `s` (Python's `s.rfind(c)`). */
  function LastIndexOf(s: string, c: char): (r: Option<nat>)
    ensures r.Some? ==> r.value < |s| && s[r.value] == c
    ensures r.Some? ==> forall k :: r.value < k < |s| ==> s[k] != c
    ensures r.None? ==> c !in s
  {
    if s == [] then None
    else if s[|s| - 1] == c then Some(|s| - 1)
    else LastIndexOf(s[..|s| - 1], c)
  }

  /** The index of the first line that contains `t`. */
  function FirstContaining(lines: seq<string>, t: string): (r: Option<nat>)
    ensures r.Some? ==> r.value < |lines| && Contains(lines[r.value], t)
    ensures r.Some? ==> forall k :: 0 <= k < r.value ==> !Contains(lines[k], t)
    ensures r.None? ==> forall k :: 0 <= k < |lines| ==> !Contains(lines[k], t)
  {
    if lines == [] then None
    else if Contains(lines[0], t) then Some(0)
    else match FirstContaining(lines[1..], t)
      case None => None
      case Some(k) => Some(k + 1)
  }

  /** The first line containing `t` is the one before which no line contains it. */
  lemma FirstContainingAt(lines: seq<string>, t: string, i: nat)
    requires i < |lines| && Contains(lines[i], t)
    requires forall k :: 0 <= k < i ==> !Contains(lines[k], t)
    ensures FirstContaining(lines, t) == Some(i)
  {
  }

  /** No line contains `t`: there is no first one. */
  lemma FirstContainingNone(lines: seq<string>, t: string)
    requires forall k :: 0 <= k < |lines| ==> !Contains(lines[k], t)
    ensures FirstContaining(lines, t).None?
  {
  }

  /** One decimal digit. */
  function DigitChar(d: nat): (c: char)
    requires d < 10
    ensures '0' <= c <= '9' && c as int - '0' as int == d
  {
    ('0' as int + d) as char
  }

  predicate AllDigits(s: string)
  {
    forall k :: 0 <= k < |s| ==> '0' <= s[k] <= '9'
  }

  /** Python's `str(n)` for a natural number: its decimal digits without leading zeros. */
  function NatToString(n: nat): (r: string)
    ensures r != [] && AllDigits(r)
    ensures r[0] == '0' <==> n == 0
    decreases n
  {
    if n < 10 then [DigitChar(n)] else NatToString(n / 10) + [DigitChar(n % 10)]
  }

  /** Python's `int(s)` on a string of decimal digits. */
  function ParseDecimal(s: string): nat
    requires AllDigits(s)
  {
    if s == [] then 0 else ParseDecimal(s[..|s| - 1]) * 10 + (s[|s| - 1] as int - '0' as int)
  }

  /** `int(str(n)) == n`. */
  lemma {:induction false} ParseNatToString(n: nat)
    ensures ParseDecimal(NatToString(n)) == n
  {
    if n >= 10 {
      ParseNatToString(n / 10);
      var r := NatToString(n);
      assert r[..|r| - 1] == NatToString(n / 10);
    }
  }

  /** Distinct numbers have distinct decimal strings. */
  lemma NatToStringInjective(a: nat, b: nat)
    requires NatToString(a) == NatToString(b)
    ensures a == b
  {
    ParseNatToString(a);
    ParseNatToString(b);
  }

  /** `c * n`: the character repeated `n` times. */
  function Repeat(c: char, n: nat): (s: string)
    ensures |s| == n && forall k :: 0 <= k < n ==> s[k] == c
  {
    if n == 0 then [] else [c] + Repeat(c, n - 1)
  }

  /** Text written line by line: each element followed by a line break. */
  function ConcatLines(ls: seq<string>): string
  {
    if ls == [] then [] else ls[0] + "\n" + ConcatLines(ls[1..])
  }

  /** Writing one more line appends it at the end. */
  lemma {:induction false} ConcatLinesSnoc(ls: seq<string>, l: string)
    ensures ConcatLines(ls + [l]) == ConcatLines(ls) + l + "\n"
  {
    if ls != [] {
      assert (ls + [l])[1..] == ls[1..] + [l];
      ConcatLinesSnoc(ls[1..], l);
    }
  }

  /** No line holds a line break. */
  predicate NoBreaks(ls: seq<string>)
  {
    forall k :: 0 <= k < |ls| ==> '\n' !in ls[k]
  }

  /** Reading back two blocks of lines written one after the other gives each block in turn. */
  lemma SplitConcatBlocks(first: seq<string>, second: seq<string>)
    requires NoBreaks(first) && NoBreaks(second)
    ensures var lines := Split(ConcatLines(first + second), "\n");
      && |lines| == |first| + |second| + 1
      && lines[..|first|] == first
      && lines[|first|..|first| + |second|] == second
      && lines[|first| + |second|] == ""
  {
    var all := first + second;
    assert NoBreaks(all) by {
      forall k | 0 <= k < |all| ensures '\n' !in all[k] {
        if k < |first| {
          assert all[k] == first[k];
        } else {
          assert all[k] == second[k - |first|];
        }
      }
    }
    SplitConcatLines(all);
    var lines := all + [""];
    assert lines[..|first|] == first;
    assert lines[|first|..|first| + |second|] == second;
  }

  /** Reading back text written line by line (`text.split('\n')`) gives the lines and a final empty piece. */
  lemma {:induction false} SplitConcatLines(ls: seq<string>)
    requires NoBreaks(ls)
    ensures Split(ConcatLines(ls), "\n") == ls + [""]
  {
    if ls == [] {
      assert Find("", "\n") == None;
    } else {
      SplitCons(ls[0], "\n", ConcatLines(ls[1..]));
      SplitConcatLines(ls[1..]);
    }
  }
}
