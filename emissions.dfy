/**
 * The per-sector emissions tables behind the two histograms: the sector's inputs and
 * its outputs at the baseline efficiency, then the same rows at the chosen efficiency.
 */
module Emissions {
  import opened Tables
  import opened Seqs

  /** `original_efficiency_factor`. */
  const ORIGINAL_EFFICIENCY_FACTOR: real := 0.5

  /** The `type` column: "input", "output" or "waste". */
  datatype Kind = Input | Output | Waste

  /** The `emission_type` column: "original" or "modified". */
  datatype Tag = Original | Modified

  datatype Emission = Emission(kind: Kind, source: Cell<string>, emissions: Cell<real>, tag: Tag)

  /** `input_data.loc[input_data['target'] == sector]`: a NaN target matches no sector. */
  function InputsFor(rows: seq<InputRow>, sector: string): (s: seq<InputRow>)
    ensures forall i :: 0 <= i < |s| ==> s[i] in rows && s[i].target == Present(sector)
    ensures forall i :: 0 <= i < |rows| && rows[i].target == Present(sector) ==> rows[i] in s
  {
    Filter((r: InputRow) => r.target == Present(sector), rows)
  }

  /** `output_data.loc[output_data['sector'] == sector]`. */
  function OutputsFor(rows: seq<OutputRow>, sector: string): (s: seq<OutputRow>)
    ensures forall i :: 0 <= i < |s| ==> s[i] in rows && s[i].sector == Present(sector)
    ensures forall i :: 0 <= i < |rows| && rows[i].sector == Present(sector) ==> rows[i] in s
  {
    Filter((r: OutputRow) => r.sector == Present(sector), rows)
  }

  /** `np.where(source == 'cars', 'output', 'waste')`: NaN is not "cars". */
  function KindOf(output: Cell<string>): (k: Kind)
    ensures k != Input
    ensures k == Output <==> output == Present("cars")
    ensures k == Waste <==> output != Present("cars")
  {
    if output == Present("cars") then Output else Waste
  }

  function InputEmission(r: InputRow): Emission {
    Emission(Input, r.source, Times(r.value, ORIGINAL_EFFICIENCY_FACTOR), Original)
  }

  function OutputEmission(r: OutputRow): Emission {
    Emission(KindOf(r.output), r.output, Times(r.amount, ORIGINAL_EFFICIENCY_FACTOR), Original)
  }

  /** The sector's input rows, then its output and waste rows, all tagged "original". */
  function OriginalEmissions(input: seq<InputRow>, output: seq<OutputRow>, sector: string): (t: seq<Emission>)
    ensures |t| == |InputsFor(input, sector)| + |OutputsFor(output, sector)|
  {
    var ins, outs := InputsFor(input, sector), OutputsFor(output, sector);
    seq(|ins|, i requires 0 <= i < |ins| => InputEmission(ins[i]))
      + seq(|outs|, i requires 0 <= i < |outs| => OutputEmission(outs[i]))
  }

  /** `assign(emissions=emissions * factor, emission_type='modified')` on one row. */
  function Modify(e: Emission, factor: real): (m: Emission)
    ensures m.kind == e.kind && m.source == e.source && m.tag == Modified
    ensures m.emissions.Present? <==> e.emissions.Present?
    ensures m.emissions.Present? ==> m.emissions.value == e.emissions.value * factor
  {
    e.(emissions := Times(e.emissions, factor), tag := Modified)
  }

  /** `pd.concat([original, modified], ignore_index=True)` for one sector. */
  function EmissionsTable(input: seq<InputRow>, output: seq<OutputRow>, sector: string, factor: real): (t: seq<Emission>)
    ensures |t| == 2 * |OriginalEmissions(input, output, sector)|
  {
    var original := OriginalEmissions(input, output, sector);
    original + seq(|original|, i requires 0 <= i < |original| => Modify(original[i], factor))
  }

  /**
   * The original table: first each input row whose target is the sector, as an "input"
   * emission of half its value from its source; then each output row of the sector, as
   * half its amount from its output, "output" exactly when the output is "cars", else
   * "waste"; every row tagged "original"; and no other rows.
   */
  lemma OriginalEmissionsSpec(input: seq<InputRow>, output: seq<OutputRow>, sector: string)
    ensures var t, ins, outs := OriginalEmissions(input, output, sector), InputsFor(input, sector), OutputsFor(output, sector);
      && (forall i :: 0 <= i < |ins| ==>
            && ins[i] in input && ins[i].target == Present(sector)
            && t[i].kind == Input && t[i].source == ins[i].source && t[i].tag == Original
            && t[i].emissions == Times(ins[i].value, 0.5))
      && (forall i :: 0 <= i < |outs| ==>
            && outs[i] in output && outs[i].sector == Present(sector)
            && t[|ins| + i].source == outs[i].output && t[|ins| + i].tag == Original
            && (t[|ins| + i].kind == Output <==> outs[i].output == Present("cars"))
            && (t[|ins| + i].kind == Waste <==> outs[i].output != Present("cars"))
            && t[|ins| + i].emissions == Times(outs[i].amount, 0.5))
      && (forall r :: r in input && r.target == Present(sector) ==> r in ins)
      && (forall r :: r in output && r.sector == Present(sector) ==> r in outs)
  {
    var ins, outs := InputsFor(input, sector), OutputsFor(output, sector);
    forall r | r in input && r.target == Present(sector) ensures r in ins {
      var k :| 0 <= k < |input| && input[k] == r;
    }
    forall r | r in output && r.sector == Present(sector) ensures r in outs {
      var k :| 0 <= k < |output| && output[k] == r;
    }
  }

  /**
   * The final table has twice the rows of the original one: the originals first, then
   * each original row again with its emissions multiplied by the factor and tagged
   * "modified".
   */
  lemma EmissionsTableHalves(input: seq<InputRow>, output: seq<OutputRow>, sector: string, factor: real)
    ensures var t, o := EmissionsTable(input, output, sector, factor), OriginalEmissions(input, output, sector);
      && t[..|o|] == o
      && forall i :: 0 <= i < |o| ==>
           t[|o| + i] == Emission(o[i].kind, o[i].source, Times(o[i].emissions, factor), Modified)
  {
  }

  /** Exactly the first half of the final table is tagged "original", and it is the original table. */
  lemma EmissionsTableTags(input: seq<InputRow>, output: seq<OutputRow>, sector: string, factor: real)
    ensures var t := EmissionsTable(input, output, sector, factor);
      && t[..|t| / 2] == OriginalEmissions(input, output, sector)
      && forall i :: 0 <= i < |t| ==> (t[i].tag == Original <==> i < |t| / 2)
  {
    var t, o := EmissionsTable(input, output, sector, factor), OriginalEmissions(input, output, sector);
    assert |t| / 2 == |o|;
    EmissionsTableHalves(input, output, sector, factor);
    OriginalEmissionsSpec(input, output, sector);
    forall i | 0 <= i < |o| ensures o[i].tag == Original {
      if i >= |InputsFor(input, sector)| {
        var j := i - |InputsFor(input, sector)|;
        assert o[|InputsFor(input, sector)| + j].tag == Original;
      }
    }
  }

  /** With a factor of 1 both halves carry the same emissions; only the tag differs. */
  lemma FactorOneKeepsEmissions(input: seq<InputRow>, output: seq<OutputRow>, sector: string)
    ensures var t, n := EmissionsTable(input, output, sector, 1.0), |OriginalEmissions(input, output, sector)|;
      forall i :: 0 <= i < n ==>
        t[n + i] == t[i].(tag := Modified) && t[i].tag == Original
  {
    var o := OriginalEmissions(input, output, sector);
    forall i | 0 <= i < |o| ensures Times(o[i].emissions, 1.0) == o[i].emissions {
      if o[i].emissions.Present? {
        var e := Times(o[i].emissions, 1.0);
        assert e == Present(e.value);
      }
    }
  }

  /**
   * The modified emissions are the sheet's figures times the baseline factor times the
   * chosen factor.
   */
  lemma ModifiedIsBaselineTimesFactor(input: seq<InputRow>, output: seq<OutputRow>, sector: string, factor: real)
    ensures var t, ins, outs := EmissionsTable(input, output, sector, factor), InputsFor(input, sector), OutputsFor(output, sector);
      var n := |ins| + |outs|;
      && (forall i :: 0 <= i < |ins| ==> t[n + i].emissions == Times(ins[i].value, 0.5 * factor))
      && (forall i :: 0 <= i < |outs| ==> t[n + |ins| + i].emissions == Times(outs[i].amount, 0.5 * factor))
  {
    var ins, outs := InputsFor(input, sector), OutputsFor(output, sector);
    var t, o := EmissionsTable(input, output, sector, factor), OriginalEmissions(input, output, sector);
    var n := |ins| + |outs|;
    forall i | 0 <= i < |ins| ensures t[n + i].emissions == Times(ins[i].value, 0.5 * factor) {
      assert t[n + i] == Modify(o[i], factor) && o[i] == InputEmission(ins[i]);
      TimesCompose(ins[i].value, 0.5, factor);
    }
    forall i | 0 <= i < |outs| ensures t[n + |ins| + i].emissions == Times(outs[i].amount, 0.5 * factor) {
      assert t[n + |ins| + i] == Modify(o[|ins| + i], factor) && o[|ins| + i] == OutputEmission(outs[i]);
      TimesCompose(outs[i].amount, 0.5, factor);
    }
  }

  /** A sector that no row mentions gets an empty table; that is not an error. */
  lemma UnknownSectorIsEmpty(input: seq<InputRow>, output: seq<OutputRow>, sector: string, factor: real)
    requires forall i :: 0 <= i < |input| ==> input[i].target != Present(sector)
    requires forall i :: 0 <= i < |output| ==> output[i].sector != Present(sector)
    ensures EmissionsTable(input, output, sector, factor) == []
  {
    FilterNone((r: InputRow) => r.target == Present(sector), input);
    FilterNone((r: OutputRow) => r.sector == Present(sector), output);
  }

  /** Only the sector's own rows matter: the table of the selected rows is the same table. */
  lemma EmissionsTableSelectsSector(input: seq<InputRow>, output: seq<OutputRow>, sector: string, factor: real)
    ensures EmissionsTable(InputsFor(input, sector), OutputsFor(output, sector), sector, factor)
         == EmissionsTable(input, output, sector, factor)
  {
    FilterIdempotent((r: InputRow) => r.target == Present(sector), input);
    FilterIdempotent((r: OutputRow) => r.sector == Present(sector), output);
  }

  /** Input row "households" to "government" of 100: 50 original, 10 modified at factor 0.2. */
  lemma HouseholdsToGovernment()
    ensures EmissionsTable([InputRow(Present("households"), Present("government"), Present(100.0))], [], "government", 0.2)
         == [Emission(Input, Present("households"), Present(50.0), Original),
             Emission(Input, Present("households"), Present(10.0), Modified)]
  {
    var row := InputRow(Present("households"), Present("government"), Present(100.0));
    assert InputsFor([row], "government") == [row];
    var o := OriginalEmissions([row], [], "government");
    assert o == [Emission(Input, Present("households"), Present(50.0), Original)];
    assert Modify(o[0], 0.2).emissions == Present(10.0);
  }

  /** Output row industry to "cars" of 40: an "output" emission of 20, 10 at factor 0.5. */
  lemma IndustryCars(other: Cell<string>)
    ensures EmissionsTable([], [OutputRow(Present("industry"), Present("cars"), Present(40.0), other)], "industry", 0.5)
         == [Emission(Output, Present("cars"), Present(20.0), Original),
             Emission(Output, Present("cars"), Present(10.0), Modified)]
  {
    var row := OutputRow(Present("industry"), Present("cars"), Present(40.0), other);
    assert OutputsFor([row], "industry") == [row];
    var o := OriginalEmissions([], [row], "industry");
    assert o == [Emission(Output, Present("cars"), Present(20.0), Original)];
    assert Modify(o[0], 0.5).emissions == Present(10.0);
  }

  /** Output row government to "sludge" of 10: a "waste" emission of 5. */
  lemma GovernmentSludge(other: Cell<string>, factor: real)
    ensures var t := EmissionsTable([], [OutputRow(Present("government"), Present("sludge"), Present(10.0), other)], "government", factor);
      |t| == 2 && t[0] == Emission(Waste, Present("sludge"), Present(5.0), Original)
  {
    var row := OutputRow(Present("government"), Present("sludge"), Present(10.0), other);
    assert OutputsFor([row], "government") == [row];
    assert Present("sludge") != Present("cars") by { assert "sludge"[0] != "cars"[0]; }
  }
}
