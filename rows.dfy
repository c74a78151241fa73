/**
 * Result normalisation shared by all three programs: `sorted(d.items())` on a
 * dictionary from network name to secret, and the numbered rows
 * `[str(i), name, secret]` (i counting from 1) that the tables and exports show.
 */
module Rows {
  import opened PyStr

  /** Python's `a < b` on `str`: lexicographic by code point, a proper prefix first. */
  predicate Less(a: string, b: string)
  {
    if a == [] then b != []
    else if b == [] then false
    else if a[0] != b[0] then a[0] < b[0]
    else Less(a[1..], b[1..])
  }

  lemma {:induction false} LessIrreflexive(a: string)
    ensures !Less(a, a)
  {
    if a != [] {
      LessIrreflexive(a[1..]);
    }
  }

  lemma {:induction false} LessTransitive(a: string, b: string, c: string)
    requires Less(a, b) && Less(b, c)
    ensures Less(a, c)
  {
    if a != [] && b != [] && c != [] && a[0] == b[0] && b[0] == c[0] {
      LessTransitive(a[1..], b[1..], c[1..]);
    }
  }

  /** Two different strings are always ordered one way or the other. */
  lemma {:induction false} LessTotal(a: string, b: string)
    ensures a == b || Less(a, b) || Less(b, a)
  {
    if a != [] && b != [] && a[0] == b[0] {
      LessTotal(a[1..], b[1..]);
      if a[1..] == b[1..] {
        assert a == [a[0]] + a[1..] && b == [b[0]] + b[1..];
      }
    }
  }

  lemma LessAsymmetric(a: string, b: string)
    ensures !(Less(a, b) && Less(b, a))
  {
    if Less(a, b) && Less(b, a) {
      LessTransitive(a, b, a);
      LessIrreflexive(a);
    }
  }

  /** `k` is the smallest string of `keys`. */
  predicate IsLeast(k: string, keys: set<string>)
  {
    k in keys && forall j :: j in keys && j != k ==> Less(k, j)
  }

  lemma {:induction false} LeastExists(keys: set<string>)
    requires keys != {}
    ensures exists k :: IsLeast(k, keys)
    decreases |keys|
  {
    var x :| x in keys;
    if keys != {x} {
      var rest := keys - {x};
      LeastExists(rest);
      var m :| IsLeast(m, rest);
      LessTotal(x, m);
      if Less(x, m) {
        forall j | j in keys && j != x ensures Less(x, j) {
          if j != m {
            LessTransitive(x, m, j);
          }
        }
        assert IsLeast(x, keys);
      } else {
        assert IsLeast(m, keys);
      }
    } else {
      assert IsLeast(x, keys);
    }
  }

  lemma LeastUnique(keys: set<string>, a: string, b: string)
    requires IsLeast(a, keys) && IsLeast(b, keys)
    ensures a == b
  {
    if a != b {
      LessAsymmetric(a, b);
    }
  }

  /** The smallest key. */
  function Least(keys: set<string>): (k: string)
    requires keys != {}
    ensures IsLeast(k, keys)
  {
    LeastExists(keys);
    assert forall a, b :: IsLeast(a, keys) && IsLeast(b, keys) ==> a == b by {
      forall a, b | IsLeast(a, keys) && IsLeast(b, keys) ensures a == b {
        LeastUnique(keys, a, b);
      }
    }
    var k :| IsLeast(k, keys);
    k
  }

  /** Names strictly ascend down the rows, so no name appears twice. */
  predicate Ascending(items: seq<(string, string)>)
  {
    forall i, j :: 0 <= i < j < |items| ==> Less(items[i].0, items[j].0)
  }

  /** The properties `sorted(d.items())` has. */
  predicate SortsDict(d: map<string, string>, items: seq<(string, string)>)
  {
    && |items| == |d|
    && Ascending(items)
    && (forall i :: 0 <= i < |items| ==> items[i].0 in d && items[i].1 == d[items[i].0])
    && (forall k :: k in d ==> (k, d[k]) in items)
  }

  /** Putting the least pair in front of the sorted rest sorts the whole dictionary. */
  lemma SortsDictCons(d: map<string, string>, k: string, tail: seq<(string, string)>)
    requires IsLeast(k, d.Keys)
    requires SortsDict(d - {k}, tail)
    ensures SortsDict(d, [(k, d[k])] + tail)
  {
    var rest := d - {k};
    assert rest.Keys == d.Keys - {k};
    assert |rest.Keys| == |d.Keys| - 1;
    ConsAscending(d, k, tail);
    ConsEntries(d, k, tail);
    ConsCovers(d, k, tail);
  }

  lemma ConsAscending(d: map<string, string>, k: string, tail: seq<(string, string)>)
    requires IsLeast(k, d.Keys)
    requires Ascending(tail) && forall i :: 0 <= i < |tail| ==> tail[i].0 in d - {k}
    ensures Ascending([(k, d[k])] + tail)
  {
    var items := [(k, d[k])] + tail;
    forall i, j | 0 <= i < j < |items| ensures Less(items[i].0, items[j].0) {
      assert items[j] == tail[j - 1];
      if i > 0 {
        assert items[i] == tail[i - 1];
      }
    }
  }

  lemma ConsEntries(d: map<string, string>, k: string, tail: seq<(string, string)>)
    requires k in d
    requires forall i :: 0 <= i < |tail| ==> tail[i].0 in d - {k} && tail[i].1 == (d - {k})[tail[i].0]
    ensures forall i :: 0 <= i < |tail| + 1 ==>
      ([(k, d[k])] + tail)[i].0 in d && ([(k, d[k])] + tail)[i].1 == d[([(k, d[k])] + tail)[i].0]
  {
    var items := [(k, d[k])] + tail;
    forall i | 0 <= i < |items| ensures items[i].0 in d && items[i].1 == d[items[i].0] {
      if i > 0 {
        assert items[i] == tail[i - 1];
      }
    }
  }

  lemma ConsCovers(d: map<string, string>, k: string, tail: seq<(string, string)>)
    requires k in d
    requires forall key :: key in d - {k} ==> (key, (d - {k})[key]) in tail
    ensures forall key :: key in d ==> (key, d[key]) in [(k, d[k])] + tail
  {
    var rest := d - {k};
    forall key | key in d ensures (key, d[key]) in [(k, d[k])] + tail {
      if key != k {
        assert key in rest;
        assert (key, rest[key]) in tail;
      }
    }
  }

  /** `sorted(d.items())`: every pair of the dictionary exactly once, in ascending name order. */
  function SortedItems(d: map<string, string>): (items: seq<(string, string)>)
    ensures SortsDict(d, items)
    decreases |d|
  {
    if |d| == 0 then []
    else
      var k := Least(d.Keys);
      assert (d - {k}).Keys == d.Keys - {k};
      var tail := SortedItems(d - {k});
      SortsDictCons(d, k, tail);
      [(k, d[k])] + tail
  }

  /** The numbered rows `[str(i), name, secret]`, i counting from 1. */
  function Numbered(items: seq<(string, string)>): (rows: seq<seq<string>>)
    ensures |rows| == |items|
    ensures forall i :: 0 <= i < |rows| ==> |rows[i]| == 3
  {
    if items == [] then []
    else
      var n := |items|;
      Numbered(items[..n - 1]) + [[NatToString(n), items[n - 1].0, items[n - 1].1]]
  }

  /** Row i holds the number i + 1, then the name and the secret of the i-th pair. */
  lemma {:induction false} NumberedRow(items: seq<(string, string)>, i: nat)
    requires i < |items|
    ensures Numbered(items)[i] == [NatToString(i + 1), items[i].0, items[i].1]
  {
    var n := |items|;
    if i < n - 1 {
      NumberedRow(items[..n - 1], i);
    }
  }

  /** Reading a row's number back gives its 1-based position, so the numbers are 1, 2, ..., n. */
  lemma NumberedSequence(items: seq<(string, string)>, i: nat)
    requires i < |items|
    ensures AllDigits(Numbered(items)[i][0]) && ParseDecimal(Numbered(items)[i][0]) == i + 1
  {
    NumberedRow(items, i);
    ParseNatToString(i + 1);
  }

  /**
   * `pwds = [list(x) for x in items]` followed by
   * `for i, p in enumerate(pwds, 1): p.insert(0, str(i))`.
   */
  method NumberRows(items: seq<(string, string)>) returns (rows: seq<seq<string>>)
    ensures rows == Numbered(items)
  {
    rows := seq(|items|, k requires 0 <= k < |items| => [items[k].0, items[k].1]);
    var i := 0;
    while i < |rows|
      invariant i <= |rows| == |items|
      invariant rows[..i] == Numbered(items[..i])
      invariant forall k :: i <= k < |rows| ==> rows[k] == [items[k].0, items[k].1]
    {
      assert items[..i + 1][..i] == items[..i];
      assert Numbered(items[..i + 1]) == Numbered(items[..i]) + [[NatToString(i + 1), items[i].0, items[i].1]];
      ghost var done := rows[..i];
      var row := [NatToString(i + 1)] + rows[i];
      assert row == [NatToString(i + 1), items[i].0, items[i].1];
      rows := rows[i := row];
      assert rows[..i] == done;
      assert rows[..i + 1] == rows[..i] + [row];
      i := i + 1;
    }
    assert rows == rows[..i] && items == items[..i];
  }
  /** The table shown for a dictionary: its sorted pairs, numbered. */
  function Table(d: map<string, string>): seq<seq<string>>
  {
    Numbered(SortedItems(d))
  }

  /** Row i of the numbered rows holds the number i + 1 and the i-th pair. */
  lemma NumberedCells(items: seq<(string, string)>)
    ensures forall i :: 0 <= i < |items| ==>
      && |Numbered(items)[i]| == 3 && Numbered(items)[i][0] == NatToString(i + 1)
      && Numbered(items)[i][1] == items[i].0 && Numbered(items)[i][2] == items[i].1
  {
    forall i | 0 <= i < |items|
      ensures Numbered(items)[i] == [NatToString(i + 1), items[i].0, items[i].1]
    {
      NumberedRow(items, i);
    }
  }

  /** The numbered rows of a sorting of `d`, cell by cell. */
  lemma NumberedSorting(d: map<string, string>, items: seq<(string, string)>)
    requires SortsDict(d, items)
    ensures var rows := Numbered(items);
      && |rows| == |d|
      && (forall i :: 0 <= i < |rows| ==>
            && |rows[i]| == 3 && rows[i][0] == NatToString(i + 1)
            && rows[i][1] in d && rows[i][2] == d[rows[i][1]])
      && (forall i, j :: 0 <= i < j < |rows| ==> Less(rows[i][1], rows[j][1]))
      && (forall k :: k in d ==> exists i :: 0 <= i < |rows| && rows[i][1] == k)
  {
    var rows := Numbered(items);
    NumberedCells(items);
    assert forall i :: 0 <= i < |rows| ==> rows[i][1] == items[i].0 && rows[i][2] == items[i].1;
    forall k | k in d ensures exists i :: 0 <= i < |rows| && rows[i][1] == k {
      assert (k, d[k]) in items;
      var i :| 0 <= i < |items| && items[i] == (k, d[k]);
      assert rows[i][1] == k;
    }
  }

  /**
   * One row per entry: row i is `[str(i + 1), name, secret]` for a name of the dictionary
   * and that name's secret, the names strictly ascend, and every entry has its row.
   */
  lemma TableShape(d: map<string, string>)
    ensures |Table(d)| == |d|
    ensures forall i :: 0 <= i < |Table(d)| ==>
      && |Table(d)[i]| == 3 && Table(d)[i][0] == NatToString(i + 1)
      && Table(d)[i][1] in d && Table(d)[i][2] == d[Table(d)[i][1]]
    ensures forall i, j :: 0 <= i < j < |Table(d)| ==> Less(Table(d)[i][1], Table(d)[j][1])
    ensures forall k :: k in d ==> exists i :: 0 <= i < |Table(d)| && Table(d)[i][1] == k
  {
    NumberedSorting(d, SortedItems(d));
  }

  /** `sorted(d.items())` followed by the numbering loop. */
  method Tabulate(d: map<string, string>) returns (rows: seq<seq<string>>)
    ensures rows == Table(d)
  {
    var items := SortedItems(d);
    rows := NumberRows(items);
  }

  /** The records a `csv.writer` is given: the header row, then the table's rows. */
  function CsvRecords(header: seq<string>, rows: seq<seq<string>>): seq<seq<string>>
  {
    [header] + rows
  }

  /** Record k (k from 1) of the export of a dictionary is `[str(k), name, secret]` for the k-th name in ascending order. */
  lemma CsvLayout(header: seq<string>, d: map<string, string>)
    ensures |CsvRecords(header, Table(d))| == |d| + 1
    ensures CsvRecords(header, Table(d))[0] == header
    ensures forall k :: 1 <= k <= |d| ==>
      CsvRecords(header, Table(d))[k] == [NatToString(k), SortedItems(d)[k - 1].0, SortedItems(d)[k - 1].1]
  {
    var items := SortedItems(d);
    forall k | 1 <= k <= |d|
      ensures CsvRecords(header, Table(d))[k] == [NatToString(k), items[k - 1].0, items[k - 1].1]
    {
      NumberedRow(items, k - 1);
    }
  }
}
