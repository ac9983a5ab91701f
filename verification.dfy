/**
 * Post-processing of the photo-verification prompt (src/ai/flows/verify-recycling-flow.ts).
 * The prompt itself is an untrusted oracle: its output is an input here, and only the
 * points override that runs after it is modelled.
 */
module Verification {
  import opened Common

  /** The five values of the output schema's `material` enum. */
  datatype Material = Plastico | Papel | Vidro | Metal | Outros

  function Name(m: Material): string
  {
    match m
    case Plastico => "Plástico"
    case Papel => "Papel"
    case Vidro => "Vidro"
    case Metal => "Metal"
    case Outros => "Outros"
  }

  /** Reads a material name back into the enum; `None` for anything outside the schema. */
  function Parse(s: string): (m: Option<Material>)
    ensures m.Some? ==> Name(m.value) == s
    ensures m.None? ==> forall k: Material :: Name(k) != s
  {
    if s == "Plástico" then Some(Plastico)
    else if s == "Papel" then Some(Papel)
    else if s == "Vidro" then Some(Vidro)
    else if s == "Metal" then Some(Metal)
    else if s == "Outros" then Some(Outros)
    else None
  }

  /** Parsing a printed material gives the material back. */
  lemma ParseName(m: Material)
    ensures Parse(Name(m)) == Some(m)
  {
  }

  /**
   * What the verification prompt returns. `material` is kept as the string the prompt
   * produced, so that the table's `|| 5` fallback is expressible; `points` is the
   * oracle's own figure, which the flow overwrites.
   */
  datatype Output = Output(isValid: bool, material: string, points: int, comment: string)

  /** The output schema's constraint on `material`. */
  predicate InSchema(o: Output)
  {
    Parse(o.material).Some?
  }

  /** The flow's `materialPoints` table. */
  const MaterialPoints: map<string, int> :=
    map["Plástico" := 20, "Papel" := 15, "Vidro" := 10, "Metal" := 75, "Outros" := 5]

  /**
   * `materialPoints[material] || 5`: a missing entry (or a zero one) falls back to 5.
   * No entry of the table is zero, so a listed material always gets its own value.
   */
  function TablePoints(material: string): (n: int)
    ensures material in MaterialPoints ==> n == MaterialPoints[material]
    ensures material !in MaterialPoints ==> n == 5
    ensures 5 <= n <= 75
  {
    if material in MaterialPoints && MaterialPoints[material] != 0 then MaterialPoints[material] else 5
  }

  /**
   * The override applied to the prompt's output: a valid result gets the table value
   * for its material, an invalid one gets 0. Nothing but `points` changes.
   */
  function Clamp(o: Output): (r: Output)
    ensures r.isValid == o.isValid && r.material == o.material && r.comment == o.comment
    ensures !o.isValid ==> r.points == 0
    ensures o.isValid && o.material == "Plástico" ==> r.points == 20
    ensures o.isValid && o.material == "Papel" ==> r.points == 15
    ensures o.isValid && o.material == "Vidro" ==> r.points == 10
    ensures o.isValid && o.material == "Metal" ==> r.points == 75
    ensures o.isValid && o.material == "Outros" ==> r.points == 5
    ensures o.isValid && !InSchema(o) ==> r.points == 5
    ensures r.points in {0, 5, 10, 15, 20, 75}
  {
    if o.isValid then o.(points := TablePoints(o.material)) else o.(points := 0)
  }

  /** The flow: `output` may be absent (`null`), in which case it is returned as is. */
  function Flow(output: Option<Output>): (r: Option<Output>)
    ensures r.Some? <==> output.Some?
    ensures r.Some? ==> r.value == Clamp(output.value)
  {
    match output
    case None => None
    case Some(o) => Some(Clamp(o))
  }

  /** Whatever points the oracle reported, the flow's answer is the same. */
  lemma OraclePointsIgnored(o: Output, reported: int)
    ensures Flow(Some(o.(points := reported))) == Flow(Some(o))
  {
  }

  /** A valid result earns a positive amount, at least 5 and at most 75, whatever its material. */
  lemma ValidEarnsPositive(o: Output)
    requires o.isValid
    ensures 5 <= Clamp(o).points <= 75
  {
  }
}
