/** The analysis of an uploaded sheet: the column check, the three result columns
    (identified material, factor, row GWP) and the summary, as values. The `DataFrame`
    class in module Sheet performs the same steps in place and is proved against `Run`. */
module Pipeline {
  import opened GwpTable
  import opened Classifier
  import opened Aggregation

  const DescriptionColumn: string := "Description"
  const WeightColumn: string := "Weight (kg)"
  const MaterialColumn: string := "Identified Material"
  const FactorColumn: string := "GWP per kg"
  const GwpColumn: string := "GWP (kg CO2eq)"

  const MissingColumnsMessage: string :=
    "The Excel must contain at least 'Description' and 'Weight (kg)' columns."

  /** One column of the sheet: free text, or numbers. */
  datatype Column = Text(texts: seq<string>) | Numbers(values: seq<real>)

  function Height(column: Column): nat
  {
    match column
    case Text(texts) => |texts|
    case Numbers(values) => |values|
  }

  /** The "Identified Material" column: one call of `identify_material` per description. */
  function Labels(oracle: Oracle, descriptions: seq<string>): (materials: seq<string>)
    ensures |materials| == |descriptions|
    ensures forall i :: 0 <= i < |descriptions| ==> materials[i] == IdentifyMaterial(oracle, descriptions[i])
  {
    seq(|descriptions|, i requires 0 <= i < |descriptions| => IdentifyMaterial(oracle, descriptions[i]))
  }

  /** The "GWP per kg" column: the table lookup with default 0, row by row. */
  function Factors(materials: seq<string>): (factors: seq<real>)
    ensures |factors| == |materials|
    ensures forall i :: 0 <= i < |materials| ==> factors[i] == FactorOf(materials[i])
  {
    seq(|materials|, i requires 0 <= i < |materials| => FactorOf(materials[i]))
  }

  /** The GWP of one row, in kg CO2eq: its weight times its factor. Weights are not
      checked, so a negative weight gives a negative GWP. */
  function RowGwp(weightKg: real, factor: real): (gwpKg: real)
    ensures factor == 0.0 ==> gwpKg == 0.0
  {
    weightKg * factor
  }

  /** The "GWP (kg CO2eq)" column: weight times factor, row by row. */
  function Products(weights: seq<real>, factors: seq<real>): (gwps: seq<real>)
    requires |weights| == |factors|
    ensures |gwps| == |weights|
    ensures forall i :: 0 <= i < |weights| ==> gwps[i] == RowGwp(weights[i], factors[i])
  {
    seq(|weights|, i requires 0 <= i < |weights| => RowGwp(weights[i], factors[i]))
  }

  datatype ShapeError = MissingColumns(message: string)

  datatype Result<T> = Success(value: T) | Failure(error: ShapeError)

  /** What a completed analysis leaves: the sheet with its result columns, and the totals. */
  datatype Analysis = Analysis(cells: map<string, Column>, summary: Summary)

  /** A sheet as read: every column is `rows` long, the description column (when there is
      one) holds text and the weight column (when there is one) holds numbers. */
  predicate WellFormed(cells: map<string, Column>, rows: nat)
  {
    && (forall name :: name in cells ==> Height(cells[name]) == rows)
    && (DescriptionColumn in cells ==> cells[DescriptionColumn].Text?)
    && (WeightColumn in cells ==> cells[WeightColumn].Numbers?)
  }

  /** The text of column `name`, or no rows when the sheet has no such text column. */
  function TextsOf(cells: map<string, Column>, name: string): seq<string>
  {
    if name in cells && cells[name].Text? then cells[name].texts else []
  }

  /** The numbers of column `name`, or no rows when the sheet has no such numeric column. */
  function ValuesOf(cells: map<string, Column>, name: string): seq<real>
  {
    if name in cells && cells[name].Numbers? then cells[name].values else []
  }

  /** The result columns of `after` annotate the rows of `descriptions` and `weights` one for
      one and in order: each row carries the label the classifier gave for its own
      description, that label's factor and weight times factor. */
  predicate RowsAnnotated(oracle: Oracle, descriptions: seq<string>, weights: seq<real>, after: map<string, Column>)
  {
    && MaterialColumn in after && after[MaterialColumn].Text?
    && FactorColumn in after && after[FactorColumn].Numbers?
    && GwpColumn in after && after[GwpColumn].Numbers?
    && var materials := TextsOf(after, MaterialColumn);
       var factors := ValuesOf(after, FactorColumn);
       var gwps := ValuesOf(after, GwpColumn);
       && |materials| == |factors| == |gwps| == |descriptions| == |weights|
       && (forall i :: 0 <= i < |descriptions| ==> materials[i] == IdentifyMaterial(oracle, descriptions[i]))
       && (forall i :: 0 <= i < |materials| ==> factors[i] == FactorOf(materials[i]))
       && (forall i :: 0 <= i < |weights| ==> gwps[i] == RowGwp(weights[i], factors[i]))
  }

  /** The sheet with the three result columns set: each replaces a column of the same name
      in place or is added. */
  function WithResults(cells: map<string, Column>, materials: seq<string>, factors: seq<real>, gwps: seq<real>): (after: map<string, Column>)
    ensures after.Keys == cells.Keys + {MaterialColumn, FactorColumn, GwpColumn}
    ensures after[MaterialColumn] == Text(materials)
    ensures after[FactorColumn] == Numbers(factors)
    ensures after[GwpColumn] == Numbers(gwps)
    ensures forall name :: name in cells && name != MaterialColumn && name != FactorColumn && name != GwpColumn
              ==> after[name] == cells[name]
  {
    cells[MaterialColumn := Text(materials)][FactorColumn := Numbers(factors)][GwpColumn := Numbers(gwps)]
  }

  /** Setting the three result columns, each as long as the sheet, keeps every other
      column and the sheet's shape. */
  lemma WithResultsKeeps(cells: map<string, Column>, rows: nat, materials: seq<string>, factors: seq<real>, gwps: seq<real>)
    requires WellFormed(cells, rows)
    requires |materials| == |factors| == |gwps| == rows
    ensures var after := WithResults(cells, materials, factors, gwps);
      && WellFormed(after, rows)
      && after.Keys == cells.Keys + {MaterialColumn, FactorColumn, GwpColumn}
      && (forall name :: name in cells && name != MaterialColumn && name != FactorColumn && name != GwpColumn
            ==> after[name] == cells[name])
  {
    var after := WithResults(cells, materials, factors, gwps);
    assert after.Keys == cells.Keys + {MaterialColumn, FactorColumn, GwpColumn};
    assert DescriptionColumn in cells ==> after[DescriptionColumn] == cells[DescriptionColumn];
    assert WeightColumn in cells ==> after[WeightColumn] == cells[WeightColumn];
  }

  /** The whole analysis of one sheet: it fails, with the one message and no result, exactly
      when a required column is missing; otherwise its totals are those of the weight column
      and of the new GWP column. */
  function Run(oracle: Oracle, cells: map<string, Column>, rows: nat): (r: Result<Analysis>)
    requires WellFormed(cells, rows)
    ensures r.Failure? <==> DescriptionColumn !in cells || WeightColumn !in cells
    ensures r.Failure? ==> r.error == MissingColumns(MissingColumnsMessage)
    ensures r.Success? ==>
      && GwpColumn in r.value.cells && r.value.cells[GwpColumn].Numbers?
      && r.value.summary == Summarize(ValuesOf(cells, WeightColumn), ValuesOf(r.value.cells, GwpColumn))
  {
    if DescriptionColumn !in cells || WeightColumn !in cells then
      Failure(MissingColumns(MissingColumnsMessage))
    else
      var weights := ValuesOf(cells, WeightColumn);
      var materials := Labels(oracle, TextsOf(cells, DescriptionColumn));
      var factors := Factors(materials);
      var gwps := Products(weights, factors);
      Success(Analysis(WithResults(cells, materials, factors, gwps), Summarize(weights, gwps)))
  }

  /** The columns of a completed analysis: every column of the sheet except the three
      result columns is kept as it was (weights pass through unvalidated), those three are
      added or replaced, and all of them are as long as the sheet. */
  lemma RunKeepsColumns(oracle: Oracle, cells: map<string, Column>, rows: nat)
    requires WellFormed(cells, rows)
    requires Run(oracle, cells, rows).Success?
    ensures var after := Run(oracle, cells, rows).value.cells;
      && WellFormed(after, rows)
      && after.Keys == cells.Keys + {MaterialColumn, FactorColumn, GwpColumn}
      && (forall name :: name in cells && name != MaterialColumn && name != FactorColumn && name != GwpColumn
            ==> after[name] == cells[name])
  {
    var descriptions, weights := TextsOf(cells, DescriptionColumn), ValuesOf(cells, WeightColumn);
    var materials := Labels(oracle, descriptions);
    var factors := Factors(materials);
    var gwps := Products(weights, factors);
    assert Run(oracle, cells, rows).value.cells == WithResults(cells, materials, factors, gwps);
    WithResultsKeeps(cells, rows, materials, factors, gwps);
  }

  /** A completed analysis annotates every row of the sheet, in order. */
  lemma RunAnnotatesEveryRow(oracle: Oracle, cells: map<string, Column>, rows: nat)
    requires WellFormed(cells, rows)
    requires Run(oracle, cells, rows).Success?
    ensures RowsAnnotated(oracle, TextsOf(cells, DescriptionColumn), ValuesOf(cells, WeightColumn),
                          Run(oracle, cells, rows).value.cells)
  {
    var descriptions, weights := TextsOf(cells, DescriptionColumn), ValuesOf(cells, WeightColumn);
    var materials := Labels(oracle, descriptions);
    var factors := Factors(materials);
    var gwps := Products(weights, factors);
    var after := WithResults(cells, materials, factors, gwps);
    assert Run(oracle, cells, rows).value.cells == after;
    assert after[MaterialColumn] == Text(materials);
    assert after[FactorColumn] == Numbers(factors);
    assert after[GwpColumn] == Numbers(gwps);
  }

  /** Setting the same result columns twice is setting them once. */
  lemma WithResultsTwice(cells: map<string, Column>, materials: seq<string>, factors: seq<real>, gwps: seq<real>)
    ensures var after := WithResults(cells, materials, factors, gwps);
      WithResults(after, materials, factors, gwps) == after
  {
  }

  /** Analysing the annotated sheet again reproduces it and its totals exactly. */
  lemma RerunIsStable(oracle: Oracle, cells: map<string, Column>, rows: nat)
    requires WellFormed(cells, rows)
    requires Run(oracle, cells, rows).Success?
    ensures Run(oracle, Run(oracle, cells, rows).value.cells, rows) == Run(oracle, cells, rows)
  {
    var descriptions, weights := TextsOf(cells, DescriptionColumn), ValuesOf(cells, WeightColumn);
    var materials := Labels(oracle, descriptions);
    var factors := Factors(materials);
    var gwps := Products(weights, factors);
    var after := WithResults(cells, materials, factors, gwps);
    assert Run(oracle, cells, rows).value.cells == after;
    WithResultsKeeps(cells, rows, materials, factors, gwps);
    assert TextsOf(after, DescriptionColumn) == descriptions;
    assert ValuesOf(after, WeightColumn) == weights;
    WithResultsTwice(cells, materials, factors, gwps);
  }

  lemma ProductBounded(w: real, f: real)
    requires 0.0 <= w && 0.0 <= f <= MaxFactor
    ensures 0.0 <= RowGwp(w, f) <= MaxFactor * w
  {
    assert RowGwp(w, f) == w * f;
    assert w * (MaxFactor - f) >= 0.0;
  }

  /** With non-negative weights, the sum of the row GWPs lies between 0 and the largest
      factor times the total weight. */
  lemma {:induction false} SumOfProductsBounded(weights: seq<real>, factors: seq<real>)
    requires |weights| == |factors|
    requires forall i :: 0 <= i < |weights| ==> 0.0 <= weights[i]
    requires forall i :: 0 <= i < |factors| ==> 0.0 <= factors[i] <= MaxFactor
    ensures 0.0 <= Sum(weights)
    ensures 0.0 <= Sum(Products(weights, factors)) <= MaxFactor * Sum(weights)
  {
    if weights != [] {
      var n := |weights| - 1;
      var gwps := Products(weights, factors);
      var front := Products(weights[..n], factors[..n]);
      assert gwps[..n] == front by {
        forall k | 0 <= k < n ensures gwps[..n][k] == front[k] {
          assert gwps[k] == RowGwp(weights[k], factors[k]);
        }
      }
      SumOfProductsBounded(weights[..n], factors[..n]);
      ProductBounded(weights[n], factors[n]);
      assert Sum(gwps) == Sum(front) + RowGwp(weights[n], factors[n]);
      assert Sum(weights) == Sum(weights[..n]) + weights[n];
    }
  }

  /** The GWP column of a completed analysis is the row-by-row product of the weights and
      the factors of the identified materials. */
  lemma GwpColumnIsProduct(oracle: Oracle, cells: map<string, Column>, rows: nat)
    requires WellFormed(cells, rows)
    requires Run(oracle, cells, rows).Success?
    ensures |ValuesOf(cells, WeightColumn)| == |TextsOf(cells, DescriptionColumn)|
    ensures ValuesOf(Run(oracle, cells, rows).value.cells, GwpColumn)
      == Products(ValuesOf(cells, WeightColumn), Factors(Labels(oracle, TextsOf(cells, DescriptionColumn))))
  {
  }

  /** When no weight is negative, the new GWP column sums to between 0 and the largest
      factor times the total weight. */
  lemma GwpColumnBounded(oracle: Oracle, cells: map<string, Column>, rows: nat)
    requires WellFormed(cells, rows)
    requires Run(oracle, cells, rows).Success?
    requires forall i :: 0 <= i < |ValuesOf(cells, WeightColumn)| ==> 0.0 <= ValuesOf(cells, WeightColumn)[i]
    ensures 0.0 <= Sum(ValuesOf(cells, WeightColumn))
    ensures 0.0 <= Sum(ValuesOf(Run(oracle, cells, rows).value.cells, GwpColumn)) <= MaxFactor * Sum(ValuesOf(cells, WeightColumn))
  {
    GwpColumnIsProduct(oracle, cells, rows);
    var weights := ValuesOf(cells, WeightColumn);
    var factors := Factors(Labels(oracle, TextsOf(cells, DescriptionColumn)));
    SumOfProductsBounded(weights, factors);
  }

  lemma SummaryWithin(weights: seq<real>, gwps: seq<real>, summary: Summary)
    requires summary == Summarize(weights, gwps)
    requires 0.0 <= Sum(weights)
    requires 0.0 <= Sum(gwps) <= MaxFactor * Sum(weights)
    ensures 0.0 <= summary.specificGwp <= MaxFactor
  {
    SpecificGwpWithin(weights, gwps, MaxFactor);
  }

  /** When no weight is negative, the specific GWP lies between 0 and the largest factor. */
  lemma SpecificGwpBounded(oracle: Oracle, cells: map<string, Column>, rows: nat)
    requires WellFormed(cells, rows)
    requires Run(oracle, cells, rows).Success?
    requires forall i :: 0 <= i < |ValuesOf(cells, WeightColumn)| ==> 0.0 <= ValuesOf(cells, WeightColumn)[i]
    ensures 0.0 <= Run(oracle, cells, rows).value.summary.specificGwp <= MaxFactor
  {
    var r := Run(oracle, cells, rows);
    var weights := ValuesOf(cells, WeightColumn);
    var gwps := ValuesOf(r.value.cells, GwpColumn);
    GwpColumnBounded(oracle, cells, rows);
    SummaryWithin(weights, gwps, r.value.summary);
  }

  /** A sheet with both columns and no rows gives totals of 0, 0 and 0, and no error. */
  lemma EmptySheet(oracle: Oracle, cells: map<string, Column>)
    requires WellFormed(cells, 0)
    requires DescriptionColumn in cells && WeightColumn in cells
    ensures Run(oracle, cells, 0).Success?
    ensures Run(oracle, cells, 0).value.summary == Summary(0.0, 0.0, 0.0)
  {
  }

  /** A sheet without a description column fails as a whole: no result columns, no totals. */
  lemma MissingDescriptionFails(oracle: Oracle, cells: map<string, Column>, rows: nat)
    requires WellFormed(cells, rows)
    requires DescriptionColumn !in cells
    ensures Run(oracle, cells, rows) == Failure(MissingColumns(MissingColumnsMessage))
  {
  }

  /** The answer "Aluminium" to "aluminium mast" is lower-cased into the key "aluminium". */
  lemma MastLabel(oracle: Oracle)
    requires oracle("aluminium mast") == Reply("Aluminium")
    ensures IdentifyMaterial(oracle, "aluminium mast") == "aluminium"
  {
    StripAluminium();
    NormalizeStripped("Aluminium", "Aluminium");
    LowerAluminium();
    ReplyIdentified(oracle, "aluminium mast", "Aluminium");
  }

  /** The answer " teak\n" to "teak deck" is stripped into the key "teak". */
  lemma DeckLabel(oracle: Oracle)
    requires oracle("teak deck") == Reply(" teak\n")
    ensures IdentifyMaterial(oracle, "teak deck") == "teak"
  {
    StripTeak();
    NormalizeStripped(" teak\n", "teak");
    LowerTeak();
    ReplyIdentified(oracle, "teak deck", " teak\n");
  }

  lemma TwoLabels(oracle: Oracle, first: string, second: string, firstMaterial: string, secondMaterial: string)
    requires IdentifyMaterial(oracle, first) == firstMaterial
    requires IdentifyMaterial(oracle, second) == secondMaterial
    ensures Labels(oracle, [first, second]) == [firstMaterial, secondMaterial]
  {
  }

  /** The two descriptions of the example are classified as aluminium and teak. */
  lemma MastAndDeckLabels(oracle: Oracle)
    requires oracle("aluminium mast") == Reply("Aluminium")
    requires oracle("teak deck") == Reply(" teak\n")
    ensures Labels(oracle, ["aluminium mast", "teak deck"]) == ["aluminium", "teak"]
  {
    MastLabel(oracle);
    DeckLabel(oracle);
    TwoLabels(oracle, "aluminium mast", "teak deck", "aluminium", "teak");
  }

  lemma MastAndDeckProducts()
    ensures Factors(["aluminium", "teak"]) == [9.16, 0.21]
    ensures Products([100.0, 50.0], [9.16, 0.21]) == [916.0, 10.5]
  {
    var gwps := Products([100.0, 50.0], [9.16, 0.21]);
    assert gwps[0] == RowGwp(100.0, 9.16);
    assert gwps[1] == RowGwp(50.0, 0.21);
  }

  lemma MastAndDeckSummary()
    ensures Summarize([100.0, 50.0], [916.0, 10.5]) == Summary(0.15, 0.9265, 0.9265 / 0.15)
  {
    assert Sum([100.0, 50.0]) == 150.0 by {
      assert [100.0, 50.0][..1] == [100.0];
      assert [100.0][..0] == [];
    }
    assert Sum([916.0, 10.5]) == 926.5 by {
      assert [916.0, 10.5][..1] == [916.0];
      assert [916.0][..0] == [];
    }
  }

  /** The analysis of a sheet whose columns are present is the sheet with the three result
      columns computed from its descriptions and weights, and their totals. */
  lemma RunComputes(oracle: Oracle, cells: map<string, Column>, rows: nat, descriptions: seq<string>, weights: seq<real>)
    requires WellFormed(cells, rows)
    requires DescriptionColumn in cells && cells[DescriptionColumn] == Text(descriptions)
    requires WeightColumn in cells && cells[WeightColumn] == Numbers(weights)
    ensures |weights| == |descriptions|
    ensures var materials := Labels(oracle, descriptions);
      var gwps := Products(weights, Factors(materials));
      Run(oracle, cells, rows) == Success(Analysis(WithResults(cells, materials, Factors(materials), gwps), Summarize(weights, gwps)))
  {
  }

  /** An aluminium mast of 100 kg and a teak deck of 50 kg: 916 and 10.5 kg CO2eq, 0.15 t,
      0.9265 t CO2eq and a specific GWP of 0.9265 / 0.15. */
  lemma MastAndDeck(oracle: Oracle)
    requires oracle("aluminium mast") == Reply("Aluminium")
    requires oracle("teak deck") == Reply(" teak\n")
    ensures var r := Run(oracle, map[DescriptionColumn := Text(["aluminium mast", "teak deck"]),
                                     WeightColumn := Numbers([100.0, 50.0])], 2);
      && r.Success?
      && TextsOf(r.value.cells, MaterialColumn) == ["aluminium", "teak"]
      && ValuesOf(r.value.cells, GwpColumn) == [916.0, 10.5]
      && r.value.summary == Summary(0.15, 0.9265, 0.9265 / 0.15)
  {
    var cells := map[DescriptionColumn := Text(["aluminium mast", "teak deck"]),
                     WeightColumn := Numbers([100.0, 50.0])];
    assert WellFormed(cells, 2);
    RunComputes(oracle, cells, 2, ["aluminium mast", "teak deck"], [100.0, 50.0]);
    MastAndDeckLabels(oracle);
    MastAndDeckProducts();
    MastAndDeckSummary();
  }

  /** A description the model answers with a material outside the table (such as
      "titanium") still yields its row, labelled "unknown", with factor 0 and GWP 0. */
  lemma UnrecognisedAnswerRow(oracle: Oracle, cells: map<string, Column>, rows: nat, i: nat, answer: string)
    requires WellFormed(cells, rows)
    requires Run(oracle, cells, rows).Success?
    requires i < |TextsOf(cells, DescriptionColumn)|
    requires AnswerText(oracle(TextsOf(cells, DescriptionColumn)[i])) == Some(answer)
    requires Normalize(answer) !in GwpDb
    ensures var after := Run(oracle, cells, rows).value.cells;
      && i < |TextsOf(after, MaterialColumn)| && TextsOf(after, MaterialColumn)[i] == Unknown
      && i < |ValuesOf(after, FactorColumn)| && ValuesOf(after, FactorColumn)[i] == 0.0
      && i < |ValuesOf(after, GwpColumn)| && ValuesOf(after, GwpColumn)[i] == 0.0
  {
    RunAnnotatesEveryRow(oracle, cells, rows);
    var after := Run(oracle, cells, rows).value.cells;
    assert TextsOf(after, MaterialColumn)[i] == Unknown;
    SentinelsHaveNoFactor();
    assert ValuesOf(after, FactorColumn)[i] == 0.0;
  }

  /** A description whose call raises still yields its row, labelled "error", with factor 0
      and GWP 0, and the run completes. */
  lemma FailedCallRow(oracle: Oracle, cells: map<string, Column>, rows: nat, i: nat)
    requires WellFormed(cells, rows)
    requires Run(oracle, cells, rows).Success?
    requires i < |TextsOf(cells, DescriptionColumn)|
    requires oracle(TextsOf(cells, DescriptionColumn)[i]) == Raised
    ensures var after := Run(oracle, cells, rows).value.cells;
      && i < |TextsOf(after, MaterialColumn)| && TextsOf(after, MaterialColumn)[i] == Error
      && i < |ValuesOf(after, FactorColumn)| && ValuesOf(after, FactorColumn)[i] == 0.0
      && i < |ValuesOf(after, GwpColumn)| && ValuesOf(after, GwpColumn)[i] == 0.0
  {
    RunAnnotatesEveryRow(oracle, cells, rows);
    var after := Run(oracle, cells, rows).value.cells;
    assert TextsOf(after, MaterialColumn)[i] == Error;
    SentinelsHaveNoFactor();
    assert ValuesOf(after, FactorColumn)[i] == 0.0;
  }
}
