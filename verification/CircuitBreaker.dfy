/** The circuit of one backend, and the shared breaker that creates circuits on first use. */
module CircuitBreaker {
  import opened Wrappers
  import opened Circuit

  type BackendId = nat

  class BackendCircuit {
    const config: Config
    var state: CircuitState
    var failures: nat
    var successCount: nat
    var lastFailure: Option<nat>

    function View(): Circuit
      reads this
    {
      Circuit(state, failures, successCount, lastFailure)
    }

    constructor (config: Config)
      ensures View() == FRESH && this.config == config
    {
      this.config := config;
      state, failures, successCount, lastFailure := Closed, 0, 0, None;
    }

    method RecordSuccess()
      modifies this
      ensures View() == OnSuccess(config, old(View()))
    {
      match state {
        case Closed => failures := 0;
        case HalfOpen =>
          successCount := successCount + 1;
          if successCount >= config.halfOpenMaxCalls {
            state := Closed;
            failures := 0;
            successCount := 0;
          }
        case Open =>
      }
    }

    method RecordFailure(now: nat)
      modifies this
      ensures View() == OnFailure(config, old(View()), now)
    {
      match state {
        case Closed =>
          failures := failures + 1;
          lastFailure := Some(now);
          if failures >= config.threshold {
            state := Open;
          }
        case HalfOpen =>
          state := Open;
          lastFailure := Some(now);
          successCount := 0;
        case Open =>
          lastFailure := Some(now);
      }
    }

    predicate IsHealthy(now: nat)
      reads this
    {
      match state
      case Closed => true
      case Open => TimedOut(config, lastFailure, now)
      case HalfOpen => true
    }

    method TransitionIfNeeded(now: nat)
      modifies this
      ensures View() == Transitioned(config, old(View()), now)
    {
      if state == Open && TimedOut(config, lastFailure, now) {
        state := HalfOpen;
        successCount := 0;
      }
    }
  }

  /** Everything the breaker has been told, in order. */
  datatype Log = Nothing | Noted(before: Log, backend: BackendId, event: Event)

  /** The events of one backend. */
  function Own(log: Log, b: BackendId): Trace {
    match log
    case Nothing => Start
    case Noted(before, backend, e) => if backend == b then Then(Own(before, b), e) else Own(before, b)
  }

  /** An event is noted for its own backend only. */
  lemma OwnNext(config: Config, log: Log, b: BackendId, e: Event)
    ensures Own(Noted(log, b, e), b).Then?
    ensures Run(config, Own(Noted(log, b, e), b)) == Next(config, Run(config, Own(log, b)), e)
    ensures forall a :: a != b ==> Own(Noted(log, b, e), a) == Own(log, a)
  {
  }

  class CircuitBreaker {
    const config: Config
    var circuits: map<BackendId, BackendCircuit>
    ghost var log: Log

    /** Each backend's circuit is the run over that backend's own events, whatever happened to the others;
        a backend without a circuit has had no event. */
    ghost predicate Valid()
      reads this, circuits.Values
    {
      && (forall b :: b in circuits ==> circuits[b].config == config)
      && (forall a, b :: a in circuits && b in circuits && a != b ==> circuits[a] != circuits[b])
      && (forall b :: b in circuits ==> circuits[b].View() == Run(config, Own(log, b)))
      && (forall b :: b !in circuits ==> Own(log, b) == Start)
    }

    constructor (config: Config)
      ensures Valid() && log == Nothing && circuits == map[] && this.config == config
    {
      this.config := config;
      circuits := map[];
      log := Nothing;
    }

    /** `entry(backend).or_insert_with(make_circuit)` */
    method CircuitFor(b: BackendId) returns (c: BackendCircuit)
      requires Valid()
      modifies this`circuits
      ensures Valid() && log == old(log)
      ensures b in circuits && c == circuits[b]
      ensures old(circuits.Values) <= circuits.Values && fresh(circuits.Values - old(circuits.Values))
    {
      if b !in circuits {
        c := new BackendCircuit(config);
        circuits := circuits[b := c];
        forall v | v in old(circuits.Values) ensures v in circuits.Values {
          var a :| a in old(circuits) && old(circuits)[a] == v;
          assert circuits[a] == v;
        }
      }
      c := circuits[b];
    }

    method RecordSuccess(b: BackendId)
      requires Valid()
      modifies this, circuits.Values
      ensures Valid() && log == Noted(old(log), b, Success) && fresh(circuits.Values - old(circuits.Values))
    {
      hide OnSuccess, OnFailure, Transitioned, TimedOut, Own, Run;
      var c := CircuitFor(b);
      c.RecordSuccess();
      OwnNext(config, log, b, Success);
      log := Noted(log, b, Success);
    }

    method RecordFailure(b: BackendId, now: nat)
      requires Valid()
      modifies this, circuits.Values
      ensures Valid() && log == Noted(old(log), b, Failure(now)) && fresh(circuits.Values - old(circuits.Values))
    {
      hide OnSuccess, OnFailure, Transitioned, TimedOut, Own, Run;
      var c := CircuitFor(b);
      c.RecordFailure(now);
      OwnNext(config, log, b, Failure(now));
      log := Noted(log, b, Failure(now));
    }

    method IsBackendHealthy(b: BackendId, transitionAt: nat, answerAt: nat) returns (healthy: bool)
      requires Valid()
      modifies this, circuits.Values
      ensures Valid() && log == Noted(old(log), b, Check(transitionAt, answerAt))
      ensures fresh(circuits.Values - old(circuits.Values))
      ensures healthy == Answer(config, Run(config, Own(old(log), b)), transitionAt, answerAt)
    {
      hide OnSuccess, OnFailure, Transitioned, TimedOut, Own, Run;
      var c := CircuitFor(b);
      c.TransitionIfNeeded(transitionAt);
      OwnNext(config, log, b, Check(transitionAt, answerAt));
      log := Noted(log, b, Check(transitionAt, answerAt));
      healthy := c.IsHealthy(answerAt);
    }
  }
}
