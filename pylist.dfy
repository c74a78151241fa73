/** The two list and dictionary idioms the parsers are built from. */
module PyList {
  import opened Wrappers

  /**
   * A loop that appends `f(x)` for each `x` in order when `f` gives something
   * (`[y for x in s if (y := f(x)) is not None]`).
   */
  function FilterMap<T, U>(f: T -> Option<U>, s: seq<T>): (r: seq<U>)
    ensures |r| <= |s|
  {
    if s == [] then []
    else FilterMap(f, s[..|s| - 1]) + (match f(s[|s| - 1]) case Some(y) => [y] case None => [])
  }

  /** The output for a concatenation is the concatenation of the outputs: one output per input, in input order. */
  lemma {:induction false} FilterMapAppend<T, U>(f: T -> Option<U>, a: seq<T>, b: seq<T>)
    ensures FilterMap(f, a + b) == FilterMap(f, a) + FilterMap(f, b)
    decreases |b|
  {
    if b != [] {
      var b' := b[..|b| - 1];
      assert (a + b)[..|a + b| - 1] == a + b';
      FilterMapAppend(f, a, b');
    } else {
      assert a + b == a;
    }
  }

  /** One more turn of that loop: the element at `i` adds its output, if any. */
  lemma FilterMapStep<T, U>(f: T -> Option<U>, s: seq<T>, i: nat)
    requires i < |s|
    ensures FilterMap(f, s[..i + 1]) == FilterMap(f, s[..i]) + (if f(s[i]).Some? then [f(s[i]).value] else [])
  {
    assert s[..i + 1][..i] == s[..i];
  }

  /** `y` is produced exactly when some input element gives it. */
  lemma {:induction false} FilterMapMembership<T, U>(f: T -> Option<U>, s: seq<T>, y: U)
    ensures y in FilterMap(f, s) <==> exists k :: 0 <= k < |s| && f(s[k]) == Some(y)
  {
    if s != [] {
      var s' := s[..|s| - 1];
      FilterMapMembership(f, s', y);
      var x := s[|s| - 1];
      assert FilterMap(f, s) == FilterMap(f, s') + (if f(x).Some? then [f(x).value] else []);
      if exists k :: 0 <= k < |s'| && f(s'[k]) == Some(y) {
        var k :| 0 <= k < |s'| && f(s'[k]) == Some(y);
        assert s[k] == s'[k];
      }
      if exists k :: 0 <= k < |s| && f(s[k]) == Some(y) {
        var k :| 0 <= k < |s| && f(s[k]) == Some(y);
        if k < |s'| {
          assert s'[k] == s[k];
        }
      }
    }
  }

  /** Some element satisfies `p`. */
  predicate SomeSatisfies<T>(p: T -> bool, s: seq<T>)
  {
    exists j :: 0 <= j < |s| && p(s[j])
  }

  /** One more element: some element satisfies `p` when an earlier one did or the new one does. */
  lemma SomeSatisfiesSnoc<T>(p: T -> bool, s: seq<T>)
    requires s != []
    ensures SomeSatisfies(p, s) <==> SomeSatisfies(p, s[..|s| - 1]) || p(s[|s| - 1])
  {
    var init := s[..|s| - 1];
    if SomeSatisfies(p, init) {
      var j :| 0 <= j < |init| && p(init[j]);
      assert s[j] == init[j];
    }
    if SomeSatisfies(p, s) {
      var j :| 0 <= j < |s| && p(s[j]);
      if j < |init| {
        assert init[j] == s[j];
      }
    }
  }

  /** The dictionary left by the assignments `d[k] = v`, made in order on an empty dictionary. */
  function Assigned(writes: seq<(string, string)>): (d: map<string, string>)
    ensures d.Keys == set k | 0 <= k < |writes| :: writes[k].0
  {
    if writes == [] then map[]
    else
      var w := writes[|writes| - 1];
      var d := Assigned(writes[..|writes| - 1])[w.0 := w.1];
      assert forall k :: 0 <= k < |writes| - 1 ==> writes[..|writes| - 1][k] == writes[k];
      d
  }

  /** Last write wins: a key holds the value of its last assignment. */
  lemma {:induction false} AssignedLastWins(writes: seq<(string, string)>, k: nat)
    requires k < |writes|
    requires forall j :: k < j < |writes| ==> writes[j].0 != writes[k].0
    ensures Assigned(writes)[writes[k].0] == writes[k].1
  {
    if k < |writes| - 1 {
      var init := writes[..|writes| - 1];
      assert init[k] == writes[k];
      AssignedLastWins(init, k);
    }
  }

  /** The dictionary the loop `for n in names: if n: d[n] = f(n)` fills, starting from an empty one. */
  function FillNonEmpty(names: seq<string>, f: string -> string): (d: map<string, string>)
    ensures d.Keys == set n | n in names && n != ""
  {
    map n | n in names && n != "" :: f(n)
  }

  /** One more turn of that loop. */
  lemma FillNonEmptyStep(names: seq<string>, i: nat, f: string -> string)
    requires i < |names|
    ensures FillNonEmpty(names[..i + 1], f)
      == if names[i] == "" then FillNonEmpty(names[..i], f) else FillNonEmpty(names[..i], f)[names[i] := f(names[i])]
  {
    assert names[..i + 1] == names[..i] + [names[i]];
  }
}
