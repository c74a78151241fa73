/**
 * The three regular-expression searches of the collector, written out by hand:
 * `ssid=(.*)` and `psk=(.*)` in a NetworkManager keyfile, and `password: "(.*)"`
 * in the output of macOS `security find-generic-password`. In Python's `re`,
 * `.` matches any character except a line break, and `.*` is greedy.
 */
module Patterns {
  import opened Wrappers
  import opened PyStr

  /**
   * `re.search(key + '(.*)', text).group(1)` for a literal `key`: `.*` always matches,
   * so the search succeeds at the first occurrence of `key` and captures the rest of that line.
   */
  function SearchField(text: string, key: string): (r: Option<string>)
    requires key != []
    ensures r.Some? <==> Contains(text, key)
    ensures r.Some? ==>
      var i := Find(text, key).value;
      && '\n' !in r.value
      && OccursAt(text, key + r.value, i)
      && (i + |key| + |r.value| == |text| || text[i + |key| + |r.value|] == '\n')
  {
    match Find(text, key)
    case None => None
    case Some(i) =>
      var v := RestOfLine(text[i + |key|..]);
      assert text[i..i + |key| + |v|] == key + v by {
        assert text[i..i + |key|] == key;
        assert text[i + |key|..][..|v|] == text[i + |key|..i + |key| + |v|];
      }
      Some(v)
  }

  const PasswordPrefix := "password: \""

  /** The text a match at `i` closing at `close` captures satisfies the greedy-match conditions. */
  predicate GreedyCapture(text: string, i: nat, v: string)
  {
    var close := i + |PasswordPrefix| + |v|;
    && '\n' !in v
    && OccursAt(text, PasswordPrefix + v + "\"", i)
    && forall k :: close < k < |text| && text[k] == '"' ==> '\n' in text[close..k]
  }

  /** The prefix, the text up to the cut and the closing quote occur in order at `i`. */
  lemma QuotedAt(text: string, i: nat, line: string, j: nat)
    requires OccursAt(text, PasswordPrefix, i)
    requires line == RestOfLine(text[i + |PasswordPrefix|..])
    requires j < |line| && line[j] == '"'
    ensures OccursAt(text, PasswordPrefix + line[..j] + "\"", i)
  {
    var start := i + |PasswordPrefix|;
    var w := PasswordPrefix + line[..j] + "\"";
    assert |line| <= |text| - start && line == text[start..][..|line|];
    forall k | 0 <= k < |w| ensures text[i + k] == w[k] {
      if k < |PasswordPrefix| {
        assert text[i..start][k] == PasswordPrefix[k];
      } else {
        assert line[k - |PasswordPrefix|] == text[start..][k - |PasswordPrefix|];
      }
    }
    assert text[i..i + |w|] == w;
  }

  /** After the last quote of the line, any later quote lies past a line break. */
  lemma NoLaterQuoteOnLine(text: string, start: nat, line: string, j: nat)
    requires start <= |text|
    requires line == RestOfLine(text[start..])
    requires j < |line| && forall k :: j < k < |line| ==> line[k] != '"'
    ensures forall k :: start + j < k < |text| && text[k] == '"' ==> '\n' in text[start + j..k]
  {
    var close := start + j;
    assert text[start..start + |line|] == line;
    forall k | close < k < |text|
      ensures text[k] == '"' ==> '\n' in text[close..k]
    {
      if k < start + |line| {
        assert text[k] == text[start..start + |line|][k - start];
      } else if k > start + |line| {
        assert text[start + |line|] == '\n';
        assert text[close..k][start + |line| - close] == '\n';
      } else {
        assert text[k] == '\n';
      }
    }
  }

  /** Cutting the rest of the line at its last double quote gives a greedy capture. */
  lemma CutAtLastQuote(text: string, i: nat, j: nat)
    requires OccursAt(text, PasswordPrefix, i)
    requires var line := RestOfLine(text[i + |PasswordPrefix|..]);
      j < |line| && line[j] == '"' && forall k :: j < k < |line| ==> line[k] != '"'
    ensures GreedyCapture(text, i, RestOfLine(text[i + |PasswordPrefix|..])[..j])
  {
    var line := RestOfLine(text[i + |PasswordPrefix|..]);
    QuotedAt(text, i, line, j);
    NoLaterQuoteOnLine(text, i + |PasswordPrefix|, line, j);
  }

  /**
   * The match of `password: "(.*)"` that starts at index `i`, if there is one: the greedy `.*`
   * runs to the last double quote before the end of the line.
   */
  function MatchPasswordAt(text: string, i: nat): (r: Option<string>)
    ensures r.Some? ==> GreedyCapture(text, i, r.value)
    ensures r.None? ==> !OccursAt(text, PasswordPrefix, i) || '"' !in RestOfLine(text[i + |PasswordPrefix|..])
  {
    if !OccursAt(text, PasswordPrefix, i) then None
    else
      var line := RestOfLine(text[i + |PasswordPrefix|..]);
      match LastIndexOf(line, '"')
      case None => None
      case Some(j) =>
        CutAtLastQuote(text, i, j);
        Some(line[..j])
  }

  /** The leftmost position at or after `from` where `password: "(.*)"` matches (the position `re.search` reports). */
  function FirstPasswordMatch(text: string, from: nat): (r: Option<nat>)
    ensures r.Some? ==> from <= r.value && MatchPasswordAt(text, r.value).Some?
    ensures r.Some? ==> forall j :: from <= j < r.value ==> MatchPasswordAt(text, j).None?
    ensures r.None? ==> forall j :: from <= j ==> MatchPasswordAt(text, j).None?
    decreases |text| + 1 - from
  {
    if from > |text| then None
    else if MatchPasswordAt(text, from).Some? then Some(from)
    else FirstPasswordMatch(text, from + 1)
  }

  /** `re.search(r'password: "(.*)"', text).group(1)`, or `None` when the search finds nothing. */
  function PasswordCapture(text: string): Option<string>
  {
    match FirstPasswordMatch(text, 0)
    case None => None
    case Some(i) => MatchPasswordAt(text, i)
  }

  /** The capture comes from the leftmost match, and there is none exactly when no position matches. */
  lemma PasswordCaptureLeftmost(text: string)
    ensures PasswordCapture(text).None? <==> forall i :: MatchPasswordAt(text, i).None?
    ensures PasswordCapture(text).Some? ==>
      exists i: nat :: MatchPasswordAt(text, i) == PasswordCapture(text)
        && forall j :: 0 <= j < i ==> MatchPasswordAt(text, j).None?
  {
  }
}
