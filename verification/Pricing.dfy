/** Model pricing, the cost recorded for a request, and the daily cost totals of the analytics page. */
module Pricing {
  import opened Redis
  import opened Limits

  const U32: int := 0x1_0000_0000

  type Tokens = t: int | 0 <= t < 0x1_0000_0000

  datatype ModelPricing = ModelPricing(
    provider: string, model: string, inputPer1M: real, outputPer1M: real, markupPercent: real)

  type Prices = map<(string, string), ModelPricing>

  function Charge(tokens: int, perMillion: real): real {
    tokens as real / 1000000.0 * perMillion
  }

  /** The cost of raw amounts of tokens, before markup; an unpriced model costs nothing. */
  function ProviderCost(prices: Prices, provider: string, model: string, input: int, output: int): real {
    if (provider, model) in prices then
      var p := prices[(provider, model)];
      Charge(input, p.inputPer1M) + Charge(output, p.outputPer1M)
    else 0.0
  }

  /** Prices are per million tokens. */
  lemma PricePerMillion(prices: Prices, provider: string, model: string)
    requires (provider, model) in prices
    ensures ProviderCost(prices, provider, model, 1000000, 0) == prices[(provider, model)].inputPer1M
    ensures ProviderCost(prices, provider, model, 0, 1000000) == prices[(provider, model)].outputPer1M
  {
    assert 0 as real / 1000000.0 == 0.0 && 1000000 as real / 1000000.0 == 1.0;
  }

  class PricingEngine {
    var prices: Prices

    constructor ()
      ensures prices == map[
                ("openai", "gpt-4o") := ModelPricing("openai", "gpt-4o", 2500.0, 10000.0, 0.0),
                ("openai", "gpt-4o-mini") := ModelPricing("openai", "gpt-4o-mini", 150.0, 600.0, 0.0),
                ("anthropic", "claude-3-5-sonnet")
                  := ModelPricing("anthropic", "claude-3-5-sonnet", 3000.0, 15000.0, 0.0),
                ("anthropic", "claude-3-opus") := ModelPricing("anthropic", "claude-3-opus", 15000.0, 75000.0, 0.0)]
    {
      prices := map[];
      new;
      Register(ModelPricing("openai", "gpt-4o", 2500.0, 10000.0, 0.0));
      Register(ModelPricing("openai", "gpt-4o-mini", 150.0, 600.0, 0.0));
      Register(ModelPricing("anthropic", "claude-3-5-sonnet", 3000.0, 15000.0, 0.0));
      Register(ModelPricing("anthropic", "claude-3-opus", 15000.0, 75000.0, 0.0));
    }

    method Register(p: ModelPricing)
      modifies this
      ensures prices == old(prices)[(p.provider, p.model) := p]
    {
      prices := prices[(p.provider, p.model) := p];
    }

    function MarkupOf(provider: string, model: string): real
      reads this
    {
      if (provider, model) in prices then prices[(provider, model)].markupPercent else 0.0
    }

    /** The provider cost and the cost with markup. */
    function CalculateCost(provider: string, model: string, input: Tokens, output: Tokens): (c: (real, real))
      reads this
      ensures c.0 == ProviderCost(prices, provider, model, input, output)
      ensures 100.0 * (c.1 - c.0) == MarkupOf(provider, model) * c.0
    {
      if (provider, model) in prices then
        var p := prices[(provider, model)];
        var inputCost := input as real / 1000000.0 * p.inputPer1M;
        var outputCost := output as real / 1000000.0 * p.outputPer1M;
        var cost := inputCost + outputCost;
        (cost, cost * (1.0 + p.markupPercent / 100.0))
      else (0.0, 0.0)
    }
  }

  // ----- Recording a request -----

  /** A served request and its token usage. */
  datatype Usage = Usage(day: nat, provider: string, model: string, input: Tokens, output: Tokens)

  /** A row of requests_log; token counts are stored as 32-bit signed integers. */
  datatype LogRow = LogRow(day: nat, provider: string, model: string, input: int, output: int, cost: real)

  /** `t as i32` */
  function AsI32(t: Tokens): int {
    if t < 0x8000_0000 then t else t - 0x1_0000_0000
  }

  /** `x as u32` for a 64-bit sum */
  function AsU32(x: int): Tokens {
    x % 0x1_0000_0000
  }

  function Stored(prices: Prices, u: Usage): LogRow {
    LogRow(u.day, u.provider, u.model, AsI32(u.input), AsI32(u.output),
           ProviderCost(prices, u.provider, u.model, u.input, u.output))
  }

  class Billing {
    var rows: seq<LogRow>

    constructor ()
      ensures rows == []
    {
      rows := [];
    }
  }

  /** record_usage_async: a billing row, unless the record is rejected as invalid, and always the spend. */
  method RecordUsage(pricing: PricingEngine, billing: Billing, limits: KeyLimits, apiKey: string, u: Usage,
                     latencies: seq<int>, now: nat)
    modifies billing, limits.redis`spend
    ensures var cost := ProviderCost(pricing.prices, u.provider, u.model, u.input, u.output);
            var valid := cost >= 0.0 && pricing.MarkupOf(u.provider, u.model) >= 0.0
                         && forall i :: 0 <= i < |latencies| ==> latencies[i] >= 0;
            && billing.rows == old(billing.rows) + (if valid then [Stored(pricing.prices, u)] else [])
            && SpendAt(limits.redis.spend, apiKey, now) == SpendAt(old(limits.redis.spend), apiKey, now) + cost
  {
    var cost := pricing.CalculateCost(u.provider, u.model, u.input, u.output).0;
    if cost >= 0.0 && pricing.MarkupOf(u.provider, u.model) >= 0.0
       && forall i :: 0 <= i < |latencies| ==> latencies[i] >= 0 {
      billing.rows := billing.rows + [LogRow(u.day, u.provider, u.model, AsI32(u.input), AsI32(u.output), cost)];
    }
    limits.RecordSpend(apiKey, cost, now);
  }
}
