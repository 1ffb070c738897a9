/**
 * The Sankey link table: the input rows as they are, then the grouped output rows, then
 * the output rows that have no NaN cell with their `sector` column dropped.
 */
module LinkBuilder {
  import opened Tables
  import opened Seqs
  import opened Grouping
  import opened NodeIndex

  /** The input sheet, its columns renamed source/target/value, taken as links unchanged. */
  function InputLinks(rows: seq<InputRow>): (l: seq<Link<Name>>)
    ensures |l| == |rows|
  {
    seq(|rows|, i requires 0 <= i < |rows| => Link(rows[i].source, rows[i].target, rows[i].value))
  }

  /** `dropna()`, or equally `dropna(how='any')`: the rows with no NaN cell, in order. */
  function DropMissing(rows: seq<OutputRow>): (d: seq<OutputRow>)
    ensures |d| <= |rows|
    ensures forall i :: 0 <= i < |d| ==> d[i] in rows && Complete(d[i])
    ensures forall i :: 0 <= i < |rows| && Complete(rows[i]) ==> rows[i] in d
  {
    Filter(Complete, rows)
  }

  /** Dropping incomplete rows a second time changes nothing. */
  lemma DropMissingIdempotent(rows: seq<OutputRow>)
    ensures DropMissing(DropMissing(rows)) == DropMissing(rows)
  {
    FilterIdempotent(Complete, rows);
  }

  /** Dropping rows keeps the rows that stay in their relative order. */
  lemma DropMissingConcat(a: seq<OutputRow>, b: seq<OutputRow>)
    ensures DropMissing(a + b) == DropMissing(a) + DropMissing(b)
  {
    FilterConcat(Complete, a, b);
  }

  /** A sheet without NaN cells is left as it is, and only such a sheet. */
  lemma DropMissingKeepsCompleteSheet(rows: seq<OutputRow>)
    ensures DropMissing(rows) == rows <==> forall i :: 0 <= i < |rows| ==> Complete(rows[i])
  {
    FilterKeepsAll(Complete, rows);
  }

  /**
   * A complete row with `sector` dropped: the remaining columns output, other and amount,
   * renamed source/target/value by their position in the sheet.
   */
  function SeparateLink(r: OutputRow, layout: Layout): (l: Link<Name>)
    requires Complete(r)
    ensures l.value == r.amount && l.value.Present?
    ensures l.source.Present? && l.target.Present?
    ensures (l.source, l.target) == (r.output, r.other) || (l.source, l.target) == (r.other, r.output)
  {
    match layout
    case OutputThenOther => Link(r.output, r.other, r.amount)
    case OtherThenOutput => Link(r.other, r.output, r.amount)
  }

  /** `output_data.dropna().reset_index(drop=True).dropna(how='any').drop('sector', axis=1)`. */
  function SeparateLinks(rows: seq<OutputRow>, layout: Layout): (l: seq<Link<Name>>)
    ensures |l| == |DropMissing(rows)|
  {
    var kept := DropMissing(DropMissing(rows));
    DropMissingIdempotent(rows);
    seq(|kept|, i requires 0 <= i < |kept| => SeparateLink(kept[i], layout))
  }

  /** The separate block of a concatenation is the blocks of its parts, in order. */
  lemma SeparateLinksConcat(a: seq<OutputRow>, b: seq<OutputRow>, layout: Layout)
    ensures SeparateLinks(a + b, layout) == SeparateLinks(a, layout) + SeparateLinks(b, layout)
  {
    DropMissingConcat(a, b);
    SeparateLinksFromCompleteRows(a, layout);
    SeparateLinksFromCompleteRows(b, layout);
    SeparateLinksFromCompleteRows(a + b, layout);
    var d, da, db := DropMissing(a + b), DropMissing(a), DropMissing(b);
    var l, la, lb := SeparateLinks(a + b, layout), SeparateLinks(a, layout), SeparateLinks(b, layout);
    assert |l| == |la| + |lb|;
    assert d == da + db;
    forall i | 0 <= i < |l| ensures l[i] == (la + lb)[i] {
      assert l[i] == SeparateLink(d[i], layout);
      if i < |la| {
        assert d[i] == da[i] && la[i] == SeparateLink(da[i], layout);
        assert (la + lb)[i] == la[i];
      } else {
        var j := i - |la|;
        assert d[i] == db[j] && lb[j] == SeparateLink(db[j], layout);
        assert (la + lb)[i] == lb[j];
      }
    }
    assert l == la + lb;
  }

  /**
   * Each link of the separate block is the sector-less projection of the complete row at
   * the same position: it carries that row's amount, and its endpoints are that row's
   * output and other column in the sheet's column order.
   */
  lemma SeparateLinksFromCompleteRows(rows: seq<OutputRow>, layout: Layout)
    ensures forall i :: 0 <= i < |SeparateLinks(rows, layout)| ==>
      var r := DropMissing(rows)[i]; var l := SeparateLinks(rows, layout)[i];
      && r in rows && Complete(r) && l == SeparateLink(r, layout)
      && l.value == r.amount && l.value.Present?
  {
    DropMissingIdempotent(rows);
  }

  /** A single row contributes its link when it is complete, and nothing otherwise. */
  lemma SeparateLinksOfRow(r: OutputRow, layout: Layout)
    ensures SeparateLinks([r], layout) == if Complete(r) then [SeparateLink(r, layout)] else []
  {
    DropMissingIdempotent([r]);
    assert [r][1..] == [];
  }

  /** `pd.concat([input_data, output_data_grouped, output_data_separate])`. */
  function BuildLinks(input: seq<InputRow>, output: seq<OutputRow>, layout: Layout): (links: seq<Link<Name>>)
    ensures |links| == |input| + |GroupKeys(output)| + |DropMissing(output)|
    ensures links[..|input|] == InputLinks(input)
    ensures links[|input|..|input| + |GroupKeys(output)|] == GroupedLinks(output)
    ensures links[|input| + |GroupKeys(output)|..] == SeparateLinks(output, layout)
  {
    var a, g, s := InputLinks(input), GroupedLinks(output), SeparateLinks(output, layout);
    assert (a + g + s)[..|a|] == a;
    assert (a + g + s)[|a|..|a| + |g|] == g;
    assert (a + g + s)[|a| + |g|..] == s;
    a + g + s
  }
}
