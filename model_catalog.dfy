/** The static catalog of src/modelCatalog.ts. */
module ModelCatalog {
  import opened AdvisorTypes

  const FreeCodingModels: seq<AdvisorModelSpec> := [
    AdvisorModelSpec(
      "kwaipilot/kat-coder-pro:free",
      "Kat Coder Pro (free tier)",
      "Chinese coding-specialist tuned for debugging suggestions and refactors.",
      true),
    AdvisorModelSpec(
      "openrouter/sherlock-dash-alpha",
      "Sherlock Dash Alpha",
      "Fast diagnostics-focused model optimised for code troubleshooting.",
      true),
    AdvisorModelSpec(
      "openrouter/sherlock-think-alpha",
      "Sherlock Think Alpha",
      "Deliberative debugging agent that produces longer reasoning chains.",
      true)
  ]

  const PaidFallbackModels: seq<AdvisorModelSpec> := [
    AdvisorModelSpec(
      "anthropic/claude-3.7-sonnet",
      "Claude 3.7 Sonnet",
      "Anthropic flagship coding-capable model for premium fallbacks.",
      false),
    AdvisorModelSpec(
      "mistralai/codestral-2508",
      "Codestral 25.08",
      "Mistral\U{2019}s production-grade code generation model.",
      false)
  ]

  /** Every catalog id, free ones first. */
  function AllIds(): (ids: seq<string>)
    ensures |ids| == |FreeCodingModels| + |PaidFallbackModels|
    ensures forall k :: 0 <= k < |FreeCodingModels| ==> ids[k] == FreeCodingModels[k].id
    ensures forall k :: 0 <= k < |PaidFallbackModels| ==> ids[|FreeCodingModels| + k] == PaidFallbackModels[k].id
  {
    seq(|FreeCodingModels|, k requires 0 <= k < |FreeCodingModels| => FreeCodingModels[k].id)
    + seq(|PaidFallbackModels|, k requires 0 <= k < |PaidFallbackModels| => PaidFallbackModels[k].id)
  }

  /**
   * The shape of the catalog: three free models, two paid ones, the `isFree`
   * flags match the list, and no id occurs twice.
   */
  lemma CatalogShape()
    ensures |FreeCodingModels| == 3 && |PaidFallbackModels| == 2
    ensures forall m :: m in FreeCodingModels ==> m.isFree
    ensures forall m :: m in PaidFallbackModels ==> !m.isFree
    ensures forall i, j :: 0 <= i < j < |AllIds()| ==> AllIds()[i] != AllIds()[j]
  {
    var ids := AllIds();
    assert ids == [FreeCodingModels[0].id, FreeCodingModels[1].id, FreeCodingModels[2].id,
                   PaidFallbackModels[0].id, PaidFallbackModels[1].id];
    // Distinct: they differ in their first character, except the two Sherlock ids, which differ at index 20.
    assert ids[0][0] == 'k' && ids[3][0] == 'a' && ids[4][0] == 'm';
    assert ids[1][0] == 'o' && ids[2][0] == 'o';
    assert ids[1][20] == 'd' && ids[2][20] == 't';
  }
}
