/** The fixed emissions-factor table of the lightship estimator and its total lookup. */
module GwpTable {

  /** kg CO2-equivalent per kg of material, keyed by the material name exactly as written
      in the source (note the upper-case "PVC"). */
  const GwpDb: map<string, real> := map[
    "aluminium" := 9.16,
    "stainless steel" := 6.15,
    "carbon fiber" := 20.0,
    "plywood" := 0.35,
    "teak" := 0.21,
    "PVC" := 2.9,
    "brass" := 7.2
  ]

  /** The table holds exactly the seven materials the classifier is asked to choose from. */
  lemma TableKeys()
    ensures GwpDb.Keys == {"aluminium", "stainless steel", "carbon fiber", "plywood", "teak", "PVC", "brass"}
  {
  }

  /** Sentinel label: the classifier answered, but not with a key of the table. */
  const Unknown: string := "unknown"

  /** Sentinel label: the classifier call, or reading its answer, failed. */
  const Error: string := "error"

  /** The largest factor in the table (carbon fiber). */
  const MaxFactor: real := 20.0

  /** The labels a row can carry: a table key or one of the two sentinels. */
  predicate IsLabel(material: string)
  {
    material in GwpDb || material == Unknown || material == Error
  }

  /** `GWP_DB.get(material, 0)`: never fails, and gives 0 for anything outside the table. */
  function FactorOf(material: string): (f: real)
    ensures material in GwpDb ==> f == GwpDb[material]
    ensures 0.0 <= f <= MaxFactor
    ensures f == 0.0 <==> material !in GwpDb
  {
    if material in GwpDb then GwpDb[material] else 0.0
  }

  /** Neither sentinel is a key, so both carry factor 0. */
  lemma SentinelsHaveNoFactor()
    ensures Unknown !in GwpDb && Error !in GwpDb
    ensures FactorOf(Unknown) == 0.0 && FactorOf(Error) == 0.0
  {
  }

  /** The table spells PVC in capitals only. */
  lemma PvcOnlyUpperCase()
    ensures "PVC" in GwpDb && "pvc" !in GwpDb
  {
    assert "pvc"[0] != "PVC"[0];
  }

  /** Every factor of the table is positive and "PVC" is the only key with factor 2.9. */
  lemma FactorsPositiveAndDistinct()
    ensures forall k :: k in GwpDb ==> 0.0 < GwpDb[k] <= MaxFactor
    ensures forall k :: k in GwpDb && GwpDb[k] == 2.9 ==> k == "PVC"
  {
  }
}
