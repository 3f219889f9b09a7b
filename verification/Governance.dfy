/** The governance engine's second look at a request, and how limits are taken from a key row. */
module Governance {
  import opened Wrappers
  import opened Limits

  type I32 = x: int | -0x8000_0000 <= x < 0x8000_0000

  /** The limit fields of an API key row. */
  datatype ApiKey = ApiKey(
    requestsPerMinute: Option<I32>,
    requestsPerDay: Option<I32>,
    maxSpend: Option<real>,
    allowedModels: Option<seq<string>>)

  datatype KeyRow = KeyRow(
    isActive: bool, expiresAt: Option<int>, allowedModels: Option<seq<string>>, maxSpend: Option<real>)

  datatype Reason = Inactive | ModelNotListed | ZeroBudget | BudgetSpent
  datatype Decision = Allow | Block(reason: Reason) | SoftLimit | KeyNotFound

  const DEFAULT_LIMITS := KeyLimitConfig(100, 10000, Some(100.0), [])

  /** `v as u64` for a 32-bit signed value: a negative limit becomes a huge one. */
  function AsU64(v: I32): nat {
    if v < 0 then v + 0x1_0000_0000_0000_0000 else v
  }

  /** The limits a request is held to. Switching enforcement off falls back to the default limits. */
  function LimitsOf(enforce: bool, k: ApiKey): KeyLimitConfig {
    if !enforce then DEFAULT_LIMITS
    else KeyLimitConfig(
      if k.requestsPerMinute.Some? then AsU64(k.requestsPerMinute.value) else 100,
      if k.requestsPerDay.Some? then AsU64(k.requestsPerDay.value) else 10000,
      k.maxSpend,
      if k.allowedModels.Some? then k.allowedModels.value else [])
  }

  function CheckRequest(row: Option<KeyRow>, model: string, utc: int, spend: real): Decision {
    if row.None? then KeyNotFound
    else
      var key := row.value;
      if !key.isActive then Block(Inactive)
      else if key.expiresAt.Some? && key.expiresAt.value < utc then SoftLimit
      else if key.allowedModels.Some? && key.allowedModels.value != [] && model !in key.allowedModels.value
      then Block(ModelNotListed)
      else if key.maxSpend.Some? then
        if key.maxSpend.value == 0.0 then Block(ZeroBudget)
        else
          var ratio := spend / key.maxSpend.value;
          if ratio >= 1.0 then Block(BudgetSpent)
          else if ratio > 0.8 then SoftLimit
          else Allow
      else Allow
  }

  predicate Unexpired(row: KeyRow, utc: int) {
    row.expiresAt.Some? ==> row.expiresAt.value >= utc
  }

  /** The key row that governance reads holds the same limits as the one that authenticated the request. */
  predicate SameLimits(k: ApiKey, row: KeyRow) {
    k.maxSpend == row.maxSpend && k.allowedModels == row.allowedModels
  }

  lemma RatioAgainstOne(spend: real, budget: real)
    requires budget != 0.0
    ensures budget > 0.0 ==> (spend / budget >= 1.0 <==> spend >= budget)
    ensures budget < 0.0 ==> (spend / budget >= 1.0 <==> spend <= budget)
  {
    var ratio := spend / budget;
    assert ratio * budget == spend;
    if budget > 0.0 {
      if ratio >= 1.0 { assert ratio * budget >= budget; } else { assert ratio * budget < budget; }
    } else {
      if ratio >= 1.0 { assert ratio * budget <= budget; } else { assert ratio * budget > budget; }
    }
  }

  lemma RatioAbove(spend: real, budget: real, part: real)
    requires budget > 0.0
    ensures spend / budget > part <==> spend > part * budget
  {
    var ratio := spend / budget;
    assert ratio * budget == spend;
    if ratio > part { assert ratio * budget > part * budget; } else { assert ratio * budget <= part * budget; }
  }

  /** The bands of a positive budget: blocked from the budget on, alerted above four fifths of it. */
  lemma BudgetBands(row: KeyRow, model: string, utc: int, spend: real)
    requires row.isActive && Unexpired(row, utc) && row.maxSpend.Some? && row.maxSpend.value > 0.0
    requires ModelAllowed(model, if row.allowedModels.Some? then row.allowedModels.value else [])
    ensures var d, budget := CheckRequest(Some(row), model, utc, spend), row.maxSpend.value;
            && (d == Block(BudgetSpent) <==> spend >= budget)
            && (d == SoftLimit <==> 4.0 * budget < 5.0 * spend && spend < budget)
            && (d == Allow <==> 5.0 * spend <= 4.0 * budget)
  {
    var budget := row.maxSpend.value;
    RatioAgainstOne(spend, budget);
    RatioAbove(spend, budget, 0.8);
  }

  /** On the same spend reading, the budget test of the second gate blocks what the first passed exactly
      when the key is consulted at all and its budget is not positive. */
  lemma {:induction false} BudgetGatesDisagreeIff(k: ApiKey, row: KeyRow, model: string, utc: int, spend: real)
    requires SameLimits(k, row)
    requires WithinBudget(spend, LimitsOf(true, k).maxSpend) && ModelAllowed(model, LimitsOf(true, k).allowedModels)
    ensures CheckRequest(Some(row), model, utc, spend).Block?
       <==> !row.isActive
            || (Unexpired(row, utc) && row.maxSpend.Some? && row.maxSpend.value <= 0.0)
  {
    if row.maxSpend.Some? && row.maxSpend.value != 0.0 { RatioAgainstOne(spend, row.maxSpend.value); }
  }

  /** With recorded spend that is not negative, governance blocks only deactivated keys. */
  lemma {:induction false} SecondGateAgrees(k: ApiKey, row: KeyRow, model: string, utc: int, spend: real)
    requires SameLimits(k, row) && spend >= 0.0
    requires WithinBudget(spend, LimitsOf(true, k).maxSpend) && ModelAllowed(model, LimitsOf(true, k).allowedModels)
    ensures CheckRequest(Some(row), model, utc, spend).Block? <==> !row.isActive
  {
    BudgetGatesDisagreeIff(k, row, model, utc, spend);
  }

  /** With enforcement off the first gate compares spend with the default budget of 100 and has no allowlist,
      but governance still applies the key's own: an active, unexpired key is blocked exactly in these cases. */
  lemma KillSwitchStillBlocks(k: ApiKey, row: KeyRow, model: string, utc: int, spend: real)
    requires SameLimits(k, row) && row.isActive && Unexpired(row, utc)
    requires 0.0 <= spend && WithinBudget(spend, LimitsOf(false, k).maxSpend)
    ensures CheckRequest(Some(row), model, utc, spend).Block?
       <==> || !ModelAllowed(model, LimitsOf(true, k).allowedModels)
            || (row.maxSpend.Some? && 0.0 <= row.maxSpend.value <= spend)
  {
    if row.maxSpend.Some? && row.maxSpend.value != 0.0 { RatioAgainstOne(spend, row.maxSpend.value); }
  }
}
