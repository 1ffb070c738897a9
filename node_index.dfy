/**
 * The Sankey node index: every distinct node name of the link table gets the position
 * of its first occurrence (`pd.unique`), a dictionary maps names back to positions, and
 * the source and target columns are rewritten as those positions.
 */
module NodeIndex {
  import opened Tables
  import opened Seqs

  /** A node name as it stands in a source or target cell; NaN is a value like any other. */
  type Name = Cell<string>

  /** The position of the first occurrence of `x` in `s`. */
  function FirstIndex(s: seq<Name>, x: Name): (p: nat)
    requires x in s
    ensures p < |s| && s[p] == x
    ensures forall q :: 0 <= q < p ==> s[q] != x
  {
    if s[0] == x then 0 else 1 + FirstIndex(s[1..], x)
  }

  /** Extending a sequence does not move the first occurrence of a value it already holds. */
  lemma FirstIndexPrefix(s: seq<Name>, t: seq<Name>, x: Name)
    requires x in s
    ensures x in s + t && FirstIndex(s + t, x) == FirstIndex(s, x)
  {
    var p, q := FirstIndex(s + t, x), FirstIndex(s, x);
    assert (s + t)[q] == x;
  }

  /** `pd.unique`: the distinct values of `s`, each once. */
  function Unique(s: seq<Name>): (u: seq<Name>)
    ensures NoDuplicates(u)
    ensures forall i :: 0 <= i < |u| ==> u[i] in s
    ensures forall i :: 0 <= i < |s| ==> s[i] in u
    ensures |u| <= |s|
  {
    if s == [] then []
    else
      var init := s[..|s| - 1];
      var u := Unique(init);
      assert forall i :: 0 <= i < |s| - 1 ==> s[i] == init[i];
      if s[|s| - 1] in u then u else u + [s[|s| - 1]]
  }

  /** `pd.unique` lists the values in the order in which they first occur in `s`. */
  lemma {:induction false} UniqueInFirstOccurrenceOrder(s: seq<Name>, i: nat, j: nat)
    requires i < j < |Unique(s)|
    ensures FirstIndex(s, Unique(s)[i]) < FirstIndex(s, Unique(s)[j])
  {
    var n := |s|;
    var init, last := s[..n - 1], s[n - 1];
    assert s == init + [last];
    var u, v := Unique(s), Unique(init);
    if j < |v| {
      assert u[i] == v[i] && u[j] == v[j];
      UniqueInFirstOccurrenceOrder(init, i, j);
      FirstIndexPrefix(init, [last], v[i]);
      FirstIndexPrefix(init, [last], v[j]);
    } else {
      // u[j] is the last value of s, seen nowhere before it
      assert last !in v && u[j] == last && u[i] == v[i];
      assert last !in init;
      FirstIndexPrefix(init, [last], v[i]);
      assert FirstIndex(s, last) == n - 1;
    }
  }

  /** `{k: v for v, k in enumerate(labels)}`: a later position overwrites an earlier one. */
  function Enumerate(labels: seq<Name>): (m: map<Name, nat>)
    ensures forall i :: 0 <= i < |labels| ==> labels[i] in m
    ensures forall x :: x in m ==> m[x] < |labels| && labels[m[x]] == x
    ensures forall x :: x in m ==> forall q :: m[x] < q < |labels| ==> labels[q] != x
  {
    if labels == [] then map[]
    else
      var init := labels[..|labels| - 1];
      var m := Enumerate(init);
      EnumerateStep(init, labels[|labels| - 1], m);
      assert init + [labels[|labels| - 1]] == labels;
      m[labels[|labels| - 1] := |labels| - 1]
  }

  /** Entering one more label keeps the dictionary pointing at last occurrences. */
  lemma EnumerateStep(init: seq<Name>, last: Name, m: map<Name, nat>)
    requires forall i :: 0 <= i < |init| ==> init[i] in m
    requires forall x :: x in m ==> m[x] < |init| && init[m[x]] == x
    requires forall x :: x in m ==> forall q :: m[x] < q < |init| ==> init[q] != x
    ensures var labels, r := init + [last], m[last := |init|];
      && (forall i :: 0 <= i < |labels| ==> labels[i] in r)
      && (forall x :: x in r ==> r[x] < |labels| && labels[r[x]] == x)
      && (forall x :: x in r ==> forall q :: r[x] < q < |labels| ==> labels[q] != x)
  {
    var labels, r, n := init + [last], m[last := |init|], |init| + 1;
    forall i | 0 <= i < n - 1 ensures labels[i] in r {
      assert labels[i] == init[i];
    }
    forall x | x in r && x != last ensures r[x] < n && labels[r[x]] == x {
      assert r[x] == m[x] && labels[m[x]] == init[m[x]];
    }
    forall x, q | x in r && r[x] < q < n ensures labels[q] != x {
      if x != last {
        assert x in m && r[x] == m[x];
        if q < n - 1 {
          assert labels[q] == init[q];
        }
      }
    }
  }

  /** On a duplicate-free label list the dictionary is exactly the inverse of indexing. */
  lemma EnumerateInverts(labels: seq<Name>)
    requires NoDuplicates(labels)
    ensures forall i :: 0 <= i < |labels| ==> Enumerate(labels)[labels[i]] == i
    ensures forall x :: x in Enumerate(labels) <==> x in labels
  {
  }

  /** `Series.map(mapping_dict)`: a name the dictionary lacks becomes NaN. */
  function Lookup(m: map<Name, nat>, x: Name): (c: Cell<nat>)
    ensures c.Present? <==> x in m
    ensures c.Present? ==> c.value == m[x]
  {
    if x in m then Present(m[x]) else Missing
  }

  /** Rewrites one link's source and target as node ids; the value is untouched. */
  function RemapLink(m: map<Name, nat>, l: Link<Name>): (r: Link<Cell<nat>>)
    ensures r.value == l.value
    ensures r.source.Present? <==> l.source in m
    ensures r.target.Present? <==> l.target in m
    ensures r.source.Present? ==> r.source.value == m[l.source]
    ensures r.target.Present? ==> r.target.value == m[l.target]
  {
    Link(Lookup(m, l.source), Lookup(m, l.target), l.value)
  }

  /** `links['source'] = links['source'].map(d)` followed by the same for `target`. */
  function Remap(m: map<Name, nat>, links: seq<Link<Name>>): (r: seq<Link<Cell<nat>>>)
    ensures |r| == |links|
    ensures forall i :: 0 <= i < |links| ==> r[i] == RemapLink(m, links[i])
  {
    seq(|links|, i requires 0 <= i < |links| => RemapLink(m, links[i]))
  }

  /**
   * The order in which `ravel('K')` visits the (rows x 2) array of source and target
   * names: numpy takes memory order, which depends on how pandas laid the frame out.
   */
  datatype Traversal = RowMajor | ColumnMajor

  function RowMajorCells(links: seq<Link<Name>>): seq<Name> {
    if links == [] then [] else [links[0].source, links[0].target] + RowMajorCells(links[1..])
  }

  function Sources(links: seq<Link<Name>>): seq<Name> {
    seq(|links|, i requires 0 <= i < |links| => links[i].source)
  }

  function Targets(links: seq<Link<Name>>): seq<Name> {
    seq(|links|, i requires 0 <= i < |links| => links[i].target)
  }

  /** A name occurs as the source or target of some link. */
  predicate Occurs(links: seq<Link<Name>>, x: Name) {
    exists i :: 0 <= i < |links| && (links[i].source == x || links[i].target == x)
  }

  /** Row-major order visits row k's source at 2k and its target at 2k + 1. */
  lemma {:induction false} RowMajorCellsAt(links: seq<Link<Name>>)
    ensures |RowMajorCells(links)| == 2 * |links|
    ensures forall k :: 0 <= k < |links| ==>
      RowMajorCells(links)[2 * k] == links[k].source && RowMajorCells(links)[2 * k + 1] == links[k].target
  {
    if links != [] {
      RowMajorCellsAt(links[1..]);
      var c := RowMajorCells(links);
      forall k | 1 <= k < |links|
        ensures c[2 * k] == links[k].source && c[2 * k + 1] == links[k].target
      {
        assert links[1..][k - 1] == links[k];
      }
    }
  }

  /** Every cell of the row-major flattening is the source or target of some link. */
  lemma {:induction false} RowMajorCellsOccur(links: seq<Link<Name>>)
    ensures forall p :: 0 <= p < |RowMajorCells(links)| ==> Occurs(links, RowMajorCells(links)[p])
  {
    if links != [] {
      RowMajorCellsOccur(links[1..]);
      var c, rest := RowMajorCells(links), RowMajorCells(links[1..]);
      forall p | 0 <= p < |c| ensures Occurs(links, c[p]) {
        if p < 2 {
          assert links[0].source == c[p] || links[0].target == c[p];
        } else {
          assert c[p] == rest[p - 2];
          var k :| 0 <= k < |links| - 1 && (links[1..][k].source == c[p] || links[1..][k].target == c[p]);
          assert links[k + 1] == links[1..][k];
        }
      }
    }
  }

  /** Every cell of the column-major flattening is the source or target of some link. */
  lemma ColumnMajorCellsOccur(links: seq<Link<Name>>)
    ensures forall p :: 0 <= p < 2 * |links| ==> Occurs(links, (Sources(links) + Targets(links))[p])
  {
    var c := Sources(links) + Targets(links);
    forall p | 0 <= p < 2 * |links| ensures Occurs(links, c[p]) {
      if p < |links| {
        assert c[p] == links[p].source;
      } else {
        assert c[p] == links[p - |links|].target;
      }
    }
  }

  /** The flattened source/target cells, in the given traversal order. */
  function NodeCells(links: seq<Link<Name>>, order: Traversal): (cells: seq<Name>)
    ensures |cells| == 2 * |links|
    ensures forall k :: 0 <= k < |links| ==> links[k].source in cells && links[k].target in cells
    ensures forall p :: 0 <= p < |cells| ==> Occurs(links, cells[p])
  {
    match order
    case RowMajor =>
      RowMajorCellsAt(links);
      RowMajorCellsOccur(links);
      RowMajorCells(links)
    case ColumnMajor =>
      var c := Sources(links) + Targets(links);
      forall k | 0 <= k < |links| ensures links[k].source in c && links[k].target in c {
        assert c[k] == links[k].source && c[|links| + k] == links[k].target;
      }
      ColumnMajorCellsOccur(links);
      c
  }

  /** The label list `unique_source_target`. */
  function Labels(links: seq<Link<Name>>, order: Traversal): (labels: seq<Name>)
    ensures NoDuplicates(labels)
    ensures |labels| <= 2 * |links|
    ensures forall k :: 0 <= k < |links| ==> links[k].source in labels && links[k].target in labels
  {
    Unique(NodeCells(links, order))
  }

  /**
   * The node index is a bijection between the names of the link table and [0, |labels|):
   * the labels are distinct and are exactly the names that occur, the dictionary inverts
   * them, and every remapped source and target is an id whose label is the replaced name.
   */
  lemma NodeIndexBijection(links: seq<Link<Name>>, order: Traversal)
    ensures var labels := Labels(links, order);
      && NoDuplicates(labels)
      && (forall i :: 0 <= i < |labels| ==> Occurs(links, labels[i]))
      && (forall k :: 0 <= k < |links| ==> links[k].source in labels && links[k].target in labels)
    ensures var labels := Labels(links, order); var m := Enumerate(labels);
      && (forall x :: x in m <==> x in labels)
      && (forall i :: 0 <= i < |labels| ==> m[labels[i]] == i)
    ensures var labels := Labels(links, order); var ids := Remap(Enumerate(labels), links);
      forall k :: 0 <= k < |links| ==>
        && ids[k].source.Present? && ids[k].source.value < |labels| && labels[ids[k].source.value] == links[k].source
        && ids[k].target.Present? && ids[k].target.value < |labels| && labels[ids[k].target.value] == links[k].target
        && ids[k].value == links[k].value
  {
    var cells := NodeCells(links, order);
    var labels := Labels(links, order);
    EnumerateInverts(labels);
    forall i | 0 <= i < |labels| ensures Occurs(links, labels[i]) {
      var p :| 0 <= p < |cells| && cells[p] == labels[i];
    }
  }
}
