/** The two spreadsheet sheets and the link table, as rows of typed cells. */
module Tables {

  /** A spreadsheet cell as pandas holds it: a value, or NaN where the cell is empty. */
  datatype Cell<T> = Missing | Present(value: T)

  /** Multiplication of a numeric column by a scalar: NaN stays NaN. */
  function Times(c: Cell<real>, k: real): (r: Cell<real>)
    ensures r.Present? <==> c.Present?
    ensures r.Present? ==> r.value == c.value * k
  {
    match c
    case Missing => Missing
    case Present(x) => Present(x * k)
  }

  /** Multiplying by two factors in turn is multiplying by their product. */
  lemma TimesCompose(c: Cell<real>, f: real, g: real)
    ensures Times(Times(c, f), g) == Times(c, f * g)
  {
    if c.Present? {
      var x := c.value;
      var once, both := Times(Times(c, f), g), Times(c, f * g);
      assert once.value == x * f * g && both.value == x * (f * g);
      assert x * f * g == x * (f * g);
      assert once == Present(once.value) && both == Present(both.value);
    }
  }

  /** A row of the `input_to_sector` sheet, its three columns renamed source/target/value. */
  datatype InputRow = InputRow(source: Cell<string>, target: Cell<string>, value: Cell<real>)

  /**
   * A row of the `sector_to_output` sheet. Besides sector, output and amount the sheet
   * holds one further, non-numeric column (`other`): `groupby(...).sum()` leaves it out
   * (pandas 1.x drops such columns from a sum),
   * `dropna` still inspects it, and it is one of the three columns left once `sector`
   * is dropped.
   */
  datatype OutputRow = OutputRow(sector: Cell<string>, output: Cell<string>, amount: Cell<real>, other: Cell<string>)

  /**
   * Where `output` and `other` stand in the sheet. After `sector` is dropped the three
   * remaining columns are renamed source/target/value by position; `amount` is the
   * last of them (otherwise the later `value * factor` would multiply text).
   */
  datatype Layout = OutputThenOther | OtherThenOutput

  /** `dropna(how='any')` keeps a row only when none of its cells is NaN. */
  predicate Complete(r: OutputRow) {
    r.sector.Present? && r.output.Present? && r.amount.Present? && r.other.Present?
  }

  /** A row of the link table: node names (later node ids) and a flow value. */
  datatype Link<N> = Link(source: N, target: N, value: Cell<real>)
}
