/** The memoised health probe of the API client: whether the disk-storage server
    answered, cached until reset. The probe itself (a `fetch` with a two-second
    timeout) is an input to the model: its outcome is passed in. */
module Api {
  import opened Wrappers
  import opened Json

  /** How the health request ended: an OK response whose body parsed (the body),
      an OK response whose body did not parse, a non-OK response, or a thrown
      error or timeout. */
  datatype ProbeOutcome = OkJson(body: Value) | OkUnparseable | NotOk | Threw

  /** `_apiAvailable` (`None` for `null`) and `_healthData` (`None` for `null`). */
  datatype MemoState = MemoState(available: Option<bool>, health: Option<Value>)

  /** `{ available, health }`. */
  datatype HealthResult = HealthResult(available: bool, health: Option<Value>)

  /** The state after `checkApiHealth` with the given probe outcome. */
  function Checked(s: MemoState, probe: ProbeOutcome): (t: MemoState)
    ensures t.available.Some?
  {
    if s.available.Some? then s
    else match probe
      case OkJson(body) => MemoState(Some(true), Some(body))
      case _ => MemoState(Some(false), s.health)
  }

  /** What `checkApiHealth` resolves to: the state it leaves, read out. */
  function Answer(s: MemoState, probe: ProbeOutcome): HealthResult {
    var t := Checked(s, probe);
    HealthResult(t.available.value, t.health)
  }

  class HealthMemo {
    var apiAvailable: Option<bool>
    var healthData: Option<Value>

    /** The module's initial state: both `null`. */
    constructor ()
      ensures apiAvailable.None? && healthData.None?
    {
      apiAvailable := None;
      healthData := None;
    }

    function State(): MemoState
      reads this
    {
      MemoState(apiAvailable, healthData)
    }

    /** `checkApiHealth()`. */
    method CheckApiHealth(probe: ProbeOutcome) returns (r: HealthResult)
      modifies this
      ensures State() == Checked(old(State()), probe)
      ensures r == Answer(old(State()), probe)
      ensures IsApiAvailable().Some? && IsApiAvailable() == Some(r.available)
    {
      if apiAvailable.Some? {
        return HealthResult(apiAvailable.value, healthData);
      }
      match probe {
        case OkJson(body) =>
          healthData := Some(body);
          apiAvailable := Some(true);
        case OkUnparseable =>
          apiAvailable := Some(false);
        case NotOk =>
          apiAvailable := Some(false);
        case Threw =>
          apiAvailable := Some(false);
      }
      r := HealthResult(apiAvailable.value, healthData);
    }

    /** `resetApiCheck()`. */
    method ResetApiCheck()
      modifies this
      ensures apiAvailable.None? && healthData.None?
    {
      apiAvailable := None;
      healthData := None;
    }

    /** `isApiAvailable()`: `null` until a check has run; once set, it is what every
        further check answers and keeps, whatever the probe; while unset, the next
        check answers whether its probe gave a parsed OK response. */
    function IsApiAvailable(): (r: Option<bool>)
      reads this
      ensures r.Some? ==> forall p: ProbeOutcome :: Checked(State(), p) == State() && Answer(State(), p).available == r.value
      ensures r.None? ==> forall p: ProbeOutcome :: Answer(State(), p).available <==> p.OkJson?
    {
      apiAvailable
    }

    /** `getHealthData()`: the health data the next check answers with whenever that
        check does not record a new body, that is once a result is cached or when
        its probe gives no parsed OK response. */
    function GetHealthData(): (r: Option<Value>)
      reads this
      ensures forall p: ProbeOutcome :: State().available.Some? ==> Answer(State(), p).health == r
      ensures forall p: ProbeOutcome :: !p.OkJson? ==> Answer(State(), p).health == r
    {
      healthData
    }
  }

  /** Once a result is cached, `checkApiHealth` returns it and keeps it whatever
      the probe would have answered, so the probe's outcome is never used. */
  lemma CachedIgnoresProbe(s: MemoState, p: ProbeOutcome, q: ProbeOutcome)
    requires s.available.Some?
    ensures Checked(s, p) == s && Checked(s, p) == Checked(s, q)
    ensures Answer(s, p) == HealthResult(s.available.value, s.health)
  {
  }

  /** An unset memo records the probe: an OK parsed response gives available and
      its body; an OK response that does not parse, a non-OK response and a thrown
      probe give unavailable and keep the health data as it was. */
  lemma ProbeRecorded(s: MemoState, probe: ProbeOutcome)
    requires s.available.None?
    ensures probe.OkJson? ==> Checked(s, probe) == MemoState(Some(true), Some(probe.body))
    ensures !probe.OkJson? ==> Checked(s, probe) == MemoState(Some(false), s.health)
  {
  }

  /** A check is idempotent: checking again, with any outcome, changes nothing and
      answers the same. */
  lemma CheckIdempotent(s: MemoState, p: ProbeOutcome, q: ProbeOutcome)
    ensures Checked(Checked(s, p), q) == Checked(s, p)
    ensures Answer(Checked(s, p), q) == Answer(s, p)
  {
  }

  /** After a reset the next check probes again: its answer is the new probe's. */
  lemma ResetReprobes(p: ProbeOutcome)
    ensures Answer(MemoState(None, None), p).available <==> p.OkJson?
    ensures p.OkJson? ==> Answer(MemoState(None, None), p).health == Some(p.body)
    ensures !p.OkJson? ==> Answer(MemoState(None, None), p).health.None?
  {
  }
}
