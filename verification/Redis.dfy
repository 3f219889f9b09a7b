/** The shared Redis store: one sorted set per window key and one spend counter per API key. */
module Redis {
  import opened Wrappers
  import opened SlidingWindow

  datatype WindowKey =
    | RateKey(apiKey: string, model: string)  // rate_limit:{api_key}:{model}
    | RpmKey(apiKey: string)                  // key_rpm:{api_key}
    | RpdKey(apiKey: string)                  // key_rpd:{api_key}

  datatype SpendCell = SpendCell(amount: real, deadline: nat)

  function Lookup(windows: map<WindowKey, Window>, k: WindowKey): Window {
    if k in windows then windows[k] else EMPTY_WINDOW
  }

  /** The spend counter as read at `clock`; a missing or expired counter reads as zero. */
  function SpendAt(spend: map<string, SpendCell>, apiKey: string, clock: nat): real {
    if apiKey in spend && clock < spend[apiKey].deadline then spend[apiKey].amount else 0.0
  }

  class RedisStore {
    var windows: map<WindowKey, Window>
    var spend: map<string, SpendCell>

    constructor ()
      ensures windows == map[] && spend == map[]
    {
      windows, spend := map[], map[];
    }

    method ZRemRangeByScore(k: WindowKey, limit: nat, clock: nat)
      modifies this`windows
      ensures windows == old(windows)[k := Trimmed(Lookup(old(windows), k), clock, limit)]
    {
      windows := windows[k := Trimmed(Lookup(windows, k), clock, limit)];
    }

    method ZCard(k: WindowKey, clock: nat) returns (n: nat)
      ensures n == |Live(Lookup(windows, k), clock)|
    {
      n := |Live(Lookup(windows, k), clock)|;
    }

    /** Adding to an expired or missing key creates it anew, without an expiry. */
    method ZAdd(k: WindowKey, score: nat, clock: nat)
      modifies this`windows
      ensures var w := Lookup(old(windows), k);
              var live := Live(w, clock);
              windows == old(windows)[k := Window(live + [score], if live == [] then None else w.deadline)]
    {
      var w := Lookup(windows, k);
      var live := Live(w, clock);
      windows := windows[k := Window(live + [score], if live == [] then None else w.deadline)];
    }

    method Expire(k: WindowKey, ttl: nat, clock: nat)
      modifies this`windows
      ensures windows == old(windows)[k := Window(Live(Lookup(old(windows), k), clock), Some(clock + ttl))]
    {
      windows := windows[k := Window(Live(Lookup(windows, k), clock), Some(clock + ttl))];
    }

    method GetSpend(apiKey: string, clock: nat) returns (amount: real)
      ensures amount == SpendAt(spend, apiKey, clock)
    {
      amount := SpendAt(spend, apiKey, clock);
    }

    /** INCRBYFLOAT followed by EXPIRE. */
    method AddSpend(apiKey: string, cost: real, ttl: nat, clock: nat)
      modifies this`spend
      ensures spend == old(spend)[apiKey := SpendCell(SpendAt(old(spend), apiKey, clock) + cost, clock + ttl)]
    {
      spend := spend[apiKey := SpendCell(SpendAt(spend, apiKey, clock) + cost, clock + ttl)];
    }
  }
}
