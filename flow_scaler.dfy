/** `links['value'] = links['value'] * factor`: the efficiency factor applied to every flow. */
module FlowScaler {
  import opened Tables

  function ScaleLink<N>(l: Link<N>, factor: real): Link<N> {
    l.(value := Times(l.value, factor))
  }

  /** Every link keeps its endpoints, and its value is multiplied by `factor`. */
  function Scale<N>(links: seq<Link<N>>, factor: real): (r: seq<Link<N>>)
    ensures |r| == |links|
    ensures forall i :: 0 <= i < |links| ==>
      r[i].source == links[i].source && r[i].target == links[i].target &&
      r[i].value == Times(links[i].value, factor)
  {
    if links == [] then [] else [ScaleLink(links[0], factor)] + Scale(links[1..], factor)
  }

  /** A factor of 1 leaves the table as it is. */
  lemma {:induction false} ScaleByOne<N>(links: seq<Link<N>>)
    ensures Scale(links, 1.0) == links
  {
    if links != [] {
      ScaleByOne(links[1..]);
      assert links == [links[0]] + links[1..];
    }
  }

  /** Scaling twice is scaling once by the product of the factors. */
  lemma {:induction false} ScaleCompose<N>(links: seq<Link<N>>, f: real, g: real)
    ensures Scale(Scale(links, f), g) == Scale(links, f * g)
  {
    if links != [] {
      ScaleCompose(links[1..], f, g);
      var once := Scale(links, f);
      assert once[1..] == Scale(links[1..], f);
      assert once[0] == ScaleLink(links[0], f);
      TimesCompose(links[0].value, f, g);
      assert ScaleLink(once[0], g) == ScaleLink(links[0], f * g);
    }
  }

  /** Scaling works row by row, so it commutes with concatenating tables. */
  lemma {:induction false} ScaleConcat<N>(a: seq<Link<N>>, b: seq<Link<N>>, f: real)
    ensures Scale(a + b, f) == Scale(a, f) + Scale(b, f)
  {
    if a == [] {
      assert a + b == b;
    } else {
      assert (a + b)[1..] == a[1..] + b;
      ScaleConcat(a[1..], b, f);
    }
  }
}
