/**
 * One pass of the dashboard script for a given slider position: the Sankey labels and
 * links and the two sector emissions tables handed to the charts.
 */
module Dashboard {
  import opened Tables
  import opened Seqs
  import opened Grouping
  import opened NodeIndex
  import opened LinkBuilder
  import opened FlowScaler
  import opened Emissions

  /** What the charts receive. */
  datatype View = View(
    labels: seq<Name>,
    links: seq<Link<Cell<nat>>>,
    government: seq<Emission>,
    industry: seq<Emission>)

  /** The Sankey labels and links built from a named link table. */
  function Sankey(named: seq<Link<Name>>, order: Traversal, factor: real): (s: (seq<Name>, seq<Link<Cell<nat>>>))
    ensures NoDuplicates(s.0)
  {
    var labels := Labels(named, order);
    (labels, Scale(Remap(Enumerate(labels), named), factor))
  }

  /**
   * The pipeline for the two sheets and the efficiency `factor`; `layout` is the column
   * order of the output sheet and `order` the traversal `ravel('K')` takes.
   */
  function Render(input: seq<InputRow>, output: seq<OutputRow>, layout: Layout, order: Traversal, factor: real): (v: View)
    ensures NoDuplicates(v.labels)
  {
    var sankey := Sankey(BuildLinks(input, output, layout), order, factor);
    View(sankey.0, sankey.1,
         EmissionsTable(input, output, "government", factor),
         EmissionsTable(input, output, "industry", factor))
  }

  /**
   * Each Sankey link refers by id to the labels of the names it had, with its value
   * scaled by the factor, and the labels are distinct names of the table.
   */
  lemma SankeySpec(named: seq<Link<Name>>, order: Traversal, factor: real)
    ensures var labels := Sankey(named, order, factor).0;
      && NoDuplicates(labels)
      && forall i :: 0 <= i < |labels| ==> Occurs(named, labels[i])
    ensures |Sankey(named, order, factor).1| == |named|
    ensures var s := Sankey(named, order, factor);
      forall k :: 0 <= k < |s.1| ==>
        && s.1[k].source.Present? && s.1[k].source.value < |s.0|
        && s.0[s.1[k].source.value] == named[k].source
        && s.1[k].target.Present? && s.1[k].target.value < |s.0|
        && s.0[s.1[k].target.value] == named[k].target
        && s.1[k].value == Times(named[k].value, factor)
  {
    NodeIndexBijection(named, order);
    SankeyLinks(named, order, factor);
  }

  /** The link half of `SankeySpec`, proved link by link from the node index. */
  lemma SankeyLinks(named: seq<Link<Name>>, order: Traversal, factor: real)
    ensures var s := Sankey(named, order, factor);
      forall k :: 0 <= k < |s.1| ==>
        && s.1[k].source.Present? && s.1[k].source.value < |s.0|
        && s.0[s.1[k].source.value] == named[k].source
        && s.1[k].target.Present? && s.1[k].target.value < |s.0|
        && s.0[s.1[k].target.value] == named[k].target
        && s.1[k].value == Times(named[k].value, factor)
  {
    var labels := Labels(named, order);
    var ids: seq<Link<Cell<nat>>> := Remap(Enumerate(labels), named);
    var links: seq<Link<Cell<nat>>> := Scale(ids, factor);
    assert Sankey(named, order, factor) == (labels, links);
    NodeIndexBijection(named, order);
    forall k | 0 <= k < |links|
      ensures && links[k].source.Present? && links[k].source.value < |labels|
              && labels[links[k].source.value] == named[k].source
              && links[k].target.Present? && links[k].target.value < |labels|
              && labels[links[k].target.value] == named[k].target
              && links[k].value == Times(named[k].value, factor)
    {
      assert links[k].source == ids[k].source && links[k].target == ids[k].target;
      assert links[k].value == Times(ids[k].value, factor) && ids[k].value == named[k].value;
    }
  }

  /**
   * The rendered Sankey data is that of the concatenated link table: as many links as
   * the three blocks hold together, each consistent with the labels as above.
   */
  lemma RenderSankeySpec(input: seq<InputRow>, output: seq<OutputRow>, layout: Layout, order: Traversal, factor: real)
    ensures var v, named := Render(input, output, layout, order, factor), BuildLinks(input, output, layout);
      && (v.labels, v.links) == Sankey(named, order, factor)
      && |v.links| == |input| + |GroupKeys(output)| + |DropMissing(output)|
  {
    var named := BuildLinks(input, output, layout);
    SankeySpec(named, order, factor);
  }

  /**
   * Moving the slider changes only values: the labels and link endpoints are those of
   * factor 1, and the links are the factor-1 links scaled by the factor.
   */
  lemma SliderChangesOnlyValues(input: seq<InputRow>, output: seq<OutputRow>, layout: Layout, order: Traversal, factor: real)
    ensures var v, base := Render(input, output, layout, order, factor), Render(input, output, layout, order, 1.0);
      && v.labels == base.labels
      && v.links == Scale(base.links, factor)
  {
    var named := BuildLinks(input, output, layout);
    var ids := Remap(Enumerate(Labels(named, order)), named);
    var v, base := Render(input, output, layout, order, factor), Render(input, output, layout, order, 1.0);
    assert v.links == Scale(ids, factor) && base.links == Scale(ids, 1.0);
    ScaleByOne(ids);
  }

  /** The government and industry tables are each their own sector's table, original half first. */
  lemma RenderEmissionsSpec(input: seq<InputRow>, output: seq<OutputRow>, layout: Layout, order: Traversal, factor: real)
    ensures var v := Render(input, output, layout, order, factor);
      && v.government[..|v.government| / 2] == OriginalEmissions(input, output, "government")
      && v.industry[..|v.industry| / 2] == OriginalEmissions(input, output, "industry")
      && (forall i :: 0 <= i < |v.government| ==> (v.government[i].tag == Original <==> i < |v.government| / 2))
      && (forall i :: 0 <= i < |v.industry| ==> (v.industry[i].tag == Original <==> i < |v.industry| / 2))
  {
    var v := Render(input, output, layout, order, factor);
    SectorTable(v.government, input, output, "government", factor);
    SectorTable(v.industry, input, output, "industry", factor);
  }

  /** The tag split of one sector's table, for a table already known to be that table. */
  lemma SectorTable(t: seq<Emission>, input: seq<InputRow>, output: seq<OutputRow>, sector: string, factor: real)
    requires t == EmissionsTable(input, output, sector, factor)
    ensures t[..|t| / 2] == OriginalEmissions(input, output, sector)
    ensures forall i :: 0 <= i < |t| ==> (t[i].tag == Original <==> i < |t| / 2)
  {
    EmissionsTableTags(input, output, sector, factor);
  }
}
