/** The uploaded sheet as the dataframe the script mutates: the column check, the three
    result columns assigned in place, and the totals. Each step is proved to produce exactly
    what the value-level `Pipeline.Run` describes. */
module Sheet {
  import opened GwpTable
  import opened Classifier
  import opened Aggregation
  import opened Pipeline

  /** The column order after `df[name] = ...`: an existing column keeps its place, a new one
      goes to the end. */
  function Appended(columns: seq<string>, name: string): (result: seq<string>)
    ensures name in result
    ensures forall other :: other in result <==> other in columns || other == name
    ensures name in columns ==> result == columns
    ensures name !in columns ==> |result| == |columns| + 1 && result[..|columns|] == columns && result[|columns|] == name
  {
    if name in columns then columns else columns + [name]
  }

  /** The column order after the three result columns are assigned. */
  function WithResultOrder(columns: seq<string>): seq<string>
  {
    Appended(Appended(Appended(columns, MaterialColumn), FactorColumn), GwpColumn)
  }

  predicate Distinct(columns: seq<string>)
  {
    forall i, j :: 0 <= i < j < |columns| ==> columns[i] != columns[j]
  }

  /** Appending a name that is not yet a column keeps the names distinct. */
  lemma AppendedDistinct(columns: seq<string>, name: string)
    requires Distinct(columns)
    ensures Distinct(Appended(columns, name))
  {
  }

  /** `descriptions.apply(identify_material)`: one classifier call per row, in row order. */
  method ApplyIdentify(oracle: Oracle, descriptions: seq<string>) returns (materials: seq<string>)
    ensures materials == Labels(oracle, descriptions)
  {
    materials := [];
    var i := 0;
    while i < |descriptions|
      invariant 0 <= i <= |descriptions|
      invariant materials == Labels(oracle, descriptions[..i])
    {
      var material := IdentifyMaterial(oracle, descriptions[i]);
      assert descriptions[..i + 1] == descriptions[..i] + [descriptions[i]];
      materials := materials + [material];
      i := i + 1;
    }
    assert descriptions[..i] == descriptions;
  }

  /** `materials.apply(lambda x: GWP_DB.get(x, 0))`: the factor of each label, in row order. */
  method ApplyLookup(materials: seq<string>) returns (factors: seq<real>)
    ensures factors == Factors(materials)
  {
    factors := [];
    var i := 0;
    while i < |materials|
      invariant 0 <= i <= |materials|
      invariant |factors| == i
      invariant forall k :: 0 <= k < i ==> factors[k] == FactorOf(materials[k])
    {
      factors := factors + [FactorOf(materials[i])];
      i := i + 1;
    }
  }

  /** `weights * factors`: the element-wise product of two columns of the same length. */
  method MultiplyColumns(weights: seq<real>, factors: seq<real>) returns (gwps: seq<real>)
    requires |weights| == |factors|
    ensures gwps == Products(weights, factors)
  {
    gwps := [];
    var i := 0;
    while i < |weights|
      invariant 0 <= i <= |weights|
      invariant |gwps| == i
      invariant forall k :: 0 <= k < i ==> gwps[k] == RowGwp(weights[k], factors[k])
    {
      gwps := gwps + [RowGwp(weights[i], factors[i])];
      i := i + 1;
    }
  }

  class DataFrame {
    /** The column names, in display order. */
    var columns: seq<string>
    /** The cells of each column, by name. */
    var cells: map<string, Column>
    /** The number of rows; no step adds or removes a row. */
    const rows: nat

    ghost predicate Valid()
      reads this
    {
      && Distinct(columns)
      && (forall name :: name in cells <==> name in columns)
      && WellFormed(cells, rows)
    }

    /** The sheet as read from the uploaded workbook. */
    constructor (columns: seq<string>, cells: map<string, Column>, rows: nat)
      requires Distinct(columns)
      requires forall name :: name in cells <==> name in columns
      requires WellFormed(cells, rows)
      ensures Valid()
      ensures this.columns == columns && this.cells == cells && this.rows == rows
    {
      this.columns := columns;
      this.cells := cells;
      this.rows := rows;
    }

    /** `df[name] = column`: replaces the column of that name where it stands, or adds it at
        the end. */
    method SetColumn(name: string, column: Column)
      requires Valid()
      requires Height(column) == rows
      requires name == DescriptionColumn ==> column.Text?
      requires name == WeightColumn ==> column.Numbers?
      modifies this
      ensures Valid()
      ensures cells == old(cells)[name := column]
      ensures columns == Appended(old(columns), name)
    {
      AppendedDistinct(columns, name);
      columns := Appended(columns, name);
      cells := cells[name := column];
    }

    /** The analysis of an uploaded sheet: the check for the description and weight columns,
        then one classifier call per description, the factor of each label, weight times
        factor, and the totals. The
        frame ends up exactly as `Run` describes it; a failed check leaves it untouched. */
    method Analyze(oracle: Oracle) returns (r: Result<Summary>)
      requires Valid()
      modifies this
      ensures Valid()
      ensures var spec := Run(oracle, old(cells), rows);
        && (spec.Failure? ==> r == Failure(spec.error) && cells == old(cells) && columns == old(columns))
        && (spec.Success? ==> r == Success(spec.value.summary) && cells == spec.value.cells
                              && columns == WithResultOrder(old(columns)))
    {
      if DescriptionColumn !in columns || WeightColumn !in columns {
        return Failure(MissingColumns(MissingColumnsMessage));
      }
      ghost var before := cells;
      var descriptions := cells[DescriptionColumn].texts;
      var weights := cells[WeightColumn].values;
      var materials := ApplyIdentify(oracle, descriptions);
      SetColumn(MaterialColumn, Text(materials));
      var factors := ApplyLookup(materials);
      SetColumn(FactorColumn, Numbers(factors));
      var gwps := MultiplyColumns(weights, factors);
      SetColumn(GwpColumn, Numbers(gwps));
      RunComputes(oracle, before, rows, descriptions, weights);
      r := Success(Summarize(weights, gwps));
    }
  }
}
