/**
 * `output_data.groupby(['sector', 'output']).sum().reset_index()`: one row per distinct
 * (sector, output) pair, in sorted key order, with `amount` summed over the group.
 */
module Grouping {
  import opened Tables
  import opened Collation

  /** groupby drops rows whose sector or output is NaN (its default `dropna=True`). */
  predicate Keyed(r: OutputRow) {
    r.sector.Present? && r.output.Present?
  }

  function KeyOf(r: OutputRow): Key
    requires Keyed(r)
  {
    (r.sector.value, r.output.value)
  }

  /** Some row of `rows` belongs to the group `k`. */
  predicate HasKey(rows: seq<OutputRow>, k: Key) {
    exists i :: 0 <= i < |rows| && Keyed(rows[i]) && KeyOf(rows[i]) == k
  }

  /** A key smaller than every key of a strictly sorted list may be put in front of it. */
  lemma PrependSorted(k: Key, ks: seq<Key>)
    requires StrictlySorted(ks)
    requires forall j :: 0 <= j < |ks| ==> KeyLess(k, ks[j])
    ensures StrictlySorted([k] + ks)
  {
  }

  /** Adds `k` to a strictly sorted key list, in its place, unless it is already there. */
  function InsertKey(ks: seq<Key>, k: Key): (r: seq<Key>)
    requires StrictlySorted(ks)
    ensures StrictlySorted(r)
    ensures forall x :: x in r <==> x in ks || x == k
  {
    if ks == [] then [k]
    else if k == ks[0] then ks
    else if KeyLess(k, ks[0]) then
      assert forall j :: 0 <= j < |ks| ==> KeyLess(k, ks[j]) by {
        forall j | 0 <= j < |ks| ensures KeyLess(k, ks[j]) {
          if j > 0 { KeyLessTransitive(k, ks[0], ks[j]); }
        }
      }
      PrependSorted(k, ks);
      [k] + ks
    else
      KeyLessTotal(k, ks[0]);
      var rest := InsertKey(ks[1..], k);
      assert forall j :: 0 <= j < |rest| ==> KeyLess(ks[0], rest[j]) by {
        forall j | 0 <= j < |rest| ensures KeyLess(ks[0], rest[j]) {
          assert rest[j] in rest;
        }
      }
      PrependSorted(ks[0], rest);
      [ks[0]] + rest
  }

  /** The group keys of `rows`, each once, in the order pandas sorts them. */
  function GroupKeys(rows: seq<OutputRow>): (ks: seq<Key>)
    ensures StrictlySorted(ks)
    ensures forall k :: k in ks <==> HasKey(rows, k)
  {
    if rows == [] then []
    else
      var rest := GroupKeys(rows[1..]);
      assert forall k :: HasKey(rows, k) <==> (Keyed(rows[0]) && KeyOf(rows[0]) == k) || HasKey(rows[1..], k) by {
        forall k ensures HasKey(rows, k) <==> (Keyed(rows[0]) && KeyOf(rows[0]) == k) || HasKey(rows[1..], k) {
          if HasKey(rows[1..], k) {
            var i :| 0 <= i < |rows| - 1 && Keyed(rows[1..][i]) && KeyOf(rows[1..][i]) == k;
            assert rows[i + 1] == rows[1..][i];
          }
          if HasKey(rows, k) {
            var i :| 0 <= i < |rows| && Keyed(rows[i]) && KeyOf(rows[i]) == k;
            if i > 0 { assert rows[1..][i - 1] == rows[i]; }
          }
        }
      }
      if Keyed(rows[0]) then InsertKey(rest, KeyOf(rows[0])) else rest
  }

  /** The group keys are determined by the rows: any strictly sorted list of exactly those keys is them. */
  lemma GroupKeysCanonical(rows: seq<OutputRow>, ks: seq<Key>)
    requires StrictlySorted(ks)
    requires forall k :: k in ks <==> HasKey(rows, k)
    ensures GroupKeys(rows) == ks
  {
    StrictlySortedUnique(GroupKeys(rows), ks);
  }

  /** `sum()` skips NaN. */
  function AmountOrZero(c: Cell<real>): real {
    if c.Present? then c.value else 0.0
  }

  /** The summed `amount` of group `k`; flows that are never negative sum to a non-negative total. */
  function GroupSum(rows: seq<OutputRow>, k: Key): (s: real)
    ensures (forall i :: 0 <= i < |rows| ==> AmountOrZero(rows[i].amount) >= 0.0) ==> s >= 0.0
  {
    if rows == [] then 0.0
    else (if Keyed(rows[0]) && KeyOf(rows[0]) == k then AmountOrZero(rows[0].amount) else 0.0)
         + GroupSum(rows[1..], k)
  }

  /** Summing a concatenation adds the sums of its parts. */
  lemma {:induction false} GroupSumConcat(a: seq<OutputRow>, b: seq<OutputRow>, k: Key)
    ensures GroupSum(a + b, k) == GroupSum(a, k) + GroupSum(b, k)
  {
    if a == [] {
      assert a + b == b;
    } else {
      assert (a + b)[1..] == a[1..] + b;
      GroupSumConcat(a[1..], b, k);
    }
  }

  /** Rows outside the group contribute nothing to its sum. */
  lemma {:induction false} GroupSumOutside(rows: seq<OutputRow>, k: Key)
    requires !HasKey(rows, k)
    ensures GroupSum(rows, k) == 0.0
  {
    if rows != [] {
      forall i | 0 <= i < |rows| - 1
        ensures !(Keyed(rows[1..][i]) && KeyOf(rows[1..][i]) == k)
      {
        assert rows[1..][i] == rows[i + 1];
      }
      GroupSumOutside(rows[1..], k);
    }
  }

  /** The link that stands for group `k`, its columns renamed source/target/value. */
  function GroupLink(rows: seq<OutputRow>, k: Key): Link<Cell<string>> {
    Link(Present(k.0), Present(k.1), Present(GroupSum(rows, k)))
  }

  /** The grouped block of the link table. */
  function GroupedLinks(rows: seq<OutputRow>): (g: seq<Link<Cell<string>>>)
    ensures |g| == |GroupKeys(rows)|
  {
    var ks := GroupKeys(rows);
    seq(|ks|, i requires 0 <= i < |ks| => GroupLink(rows, ks[i]))
  }

  /**
   * The grouped block holds one row for each (sector, output) pair that occurs, in sorted
   * order and so never the same pair twice, and each row's value is the group's sum.
   */
  lemma GroupedLinksSpec(rows: seq<OutputRow>)
    ensures var g := GroupedLinks(rows);
      && (forall i :: 0 <= i < |g| ==>
            g[i].source.Present? && g[i].target.Present? &&
            HasKey(rows, (g[i].source.value, g[i].target.value)) &&
            g[i].value == Present(GroupSum(rows, (g[i].source.value, g[i].target.value))))
      && (forall i, j :: 0 <= i < j < |g| ==>
            KeyLess((g[i].source.value, g[i].target.value), (g[j].source.value, g[j].target.value)))
      && (forall i, j :: 0 <= i < j < |g| ==> g[i].source != g[j].source || g[i].target != g[j].target)
      && (forall r :: r in rows && Keyed(r) ==>
            exists i :: 0 <= i < |g| && g[i].source == r.sector && g[i].target == r.output)
  {
    var g, ks := GroupedLinks(rows), GroupKeys(rows);
    forall i | 0 <= i < |g|
      ensures (g[i].source.value, g[i].target.value) == ks[i]
    {
    }
    forall i, j | 0 <= i < j < |g|
      ensures g[i].source != g[j].source || g[i].target != g[j].target
    {
      KeyLessIrreflexive(ks[i]);
    }
    forall r | r in rows && Keyed(r)
      ensures exists i :: 0 <= i < |g| && g[i].source == r.sector && g[i].target == r.output
    {
      var n :| 0 <= n < |rows| && rows[n] == r;
      assert HasKey(rows, KeyOf(r));
      var i :| 0 <= i < |ks| && ks[i] == KeyOf(r);
      assert g[i].source == r.sector && g[i].target == r.output;
    }
  }

  /** Two rows with the same (sector, output) pair collapse into one link carrying both amounts. */
  lemma SamePairCollapses(sector: string, output: string, a: real, b: real, x: Cell<string>, y: Cell<string>)
    ensures GroupedLinks([OutputRow(Present(sector), Present(output), Present(a), x),
                          OutputRow(Present(sector), Present(output), Present(b), y)])
         == [Link(Present(sector), Present(output), Present(a + b))]
  {
    var rows := [OutputRow(Present(sector), Present(output), Present(a), x),
                 OutputRow(Present(sector), Present(output), Present(b), y)];
    var k := (sector, output);
    assert HasKey(rows, k) by { assert Keyed(rows[0]) && KeyOf(rows[0]) == k; }
    forall l ensures l in [k] <==> HasKey(rows, l) {
      if HasKey(rows, l) {
        var i :| 0 <= i < |rows| && Keyed(rows[i]) && KeyOf(rows[i]) == l;
      }
    }
    GroupKeysCanonical(rows, [k]);
    assert GroupSum(rows, k) == a + b by {
      assert rows[1..] == [rows[1]];
      assert GroupSum([rows[1]], k) == b + GroupSum([], k);
    }
  }
}
