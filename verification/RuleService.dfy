/** Threshold rules with a quality gate, hysteresis and a duration timer. */
module RuleService {
  import opened Basics

  datatype Condition = Normal | Active | Unknown

  /** A rule as the configuration spells it; without a recovery threshold the trigger threshold serves. */
  datatype RuleDefinition = RuleDefinition(
    ruleId: string, deviceId: string, pointId: string, enabled: bool, low: bool,
    triggerThreshold: real, recoveryThreshold: Option<real>, durationMs: int, minimumQuality: Quality)

  datatype Rule = Rule(
    ruleId: string, deviceId: string, pointId: string, enabled: bool, low: bool,
    triggerThreshold: real, recoveryThreshold: real, durationMs: nat, minimumQuality: Quality)

  /** A telemetry sample; the value of a non-numeric or non-finite one is absent. */
  datatype Sample = Sample(deviceId: string, pointId: string, quality: Quality, value: Option<real>,
                           sampleTs: Option<int>)

  datatype State = State(condition: Condition, pendingSince: int, lastEvaluationTs: int)

  const INITIAL := State(Normal, 0, 0)

  datatype Transition = Transition(rule: Rule, condition: Condition, timestamp: int, configRevision: string)

  /** What one sample means to a rule: behind the gate nothing, otherwise on which sides of the thresholds it is. */
  datatype Reading = Unusable | Usable(trigger: bool, recover: bool)

  datatype Timed = Timed(ts: int, reading: Reading)

  // --------------------------------------------------------- specification

  function QualityRank(q: Quality): nat {
    match q
    case Good => 3
    case Uncertain => 2
    case Stale => 1
    case Bad => 0
  }

  function ReadingOf(r: Rule, s: Sample): Reading {
    if QualityRank(s.quality) < QualityRank(r.minimumQuality) || s.value.None? then Unusable
    else if r.low then Usable(s.value.value < r.triggerThreshold, s.value.value > r.recoveryThreshold)
    else Usable(s.value.value > r.triggerThreshold, s.value.value < r.recoveryThreshold)
  }

  function Stamp(s: Sample, evaluationTs: int): int {
    if s.sampleTs.Some? && s.sampleTs.value > 0 then s.sampleTs.value else evaluationTs
  }

  /** One reading of one rule: the new state and the condition announced, if it changes. A `pendingSince` of 0 means
      that no timer runs. */
  function Next(durationMs: nat, s: State, t: Timed): (State, Option<Condition>) {
    var quiet := State(s.condition, 0, t.ts);
    match t.reading
    case Unusable => if s.condition == Active then (quiet.(condition := Unknown), Some(Unknown)) else (quiet, None)
    case Usable(trigger, recover) =>
      if s.condition != Normal then
        if recover then (quiet.(condition := Normal), Some(Normal))
        else if s.condition == Unknown then (State(Active, s.pendingSince, t.ts), Some(Active))
        else (State(Active, s.pendingSince, t.ts), None)
      else if !trigger then (quiet, None)
      else
        var since := if s.pendingSince == 0 then t.ts else s.pendingSince;
        if durationMs == 0 || t.ts - since >= durationMs then (quiet.(condition := Active), Some(Active))
        else (State(Normal, since, t.ts), None)
  }

  function StateOf(states: map<string, State>, ruleId: string): State {
    if ruleId in states then states[ruleId] else INITIAL
  }

  /** The last sample of a point; samples without an id are ignored. */
  function Latest(telemetry: seq<Sample>, deviceId: string, pointId: string): Option<Sample> {
    if telemetry == [] then None
    else
      var s := telemetry[|telemetry| - 1];
      if s.deviceId == deviceId != "" && s.pointId == pointId != "" then Some(s)
      else Latest(telemetry[..|telemetry| - 1], deviceId, pointId)
  }

  /** What a rule makes of the sample it finds, if any. */
  function RuleStep(r: Rule, s: State, sample: Option<Sample>, evaluationTs: int): (State, Option<Condition>) {
    if !r.enabled then (INITIAL, None)
    else if sample.None? then (s, None)
    else Next(r.durationMs, s, Timed(Stamp(sample.value, evaluationTs), ReadingOf(r, sample.value)))
  }

  function Announced(r: Rule, c: Option<Condition>, sample: Option<Sample>, evaluationTs: int,
                     revision: string): seq<Transition> {
    if c.Some? && sample.Some? then [Transition(r, c.value, Stamp(sample.value, evaluationTs), revision)] else []
  }

  function EvaluateAll(rules: seq<Rule>, states: map<string, State>, telemetry: seq<Sample>, evaluationTs: int,
                       revision: string):
    (map<string, State>, seq<Transition>)
  {
    if rules == [] then (states, [])
    else
      var r := rules[0];
      var sample := Latest(telemetry, r.deviceId, r.pointId);
      var (next, c) := RuleStep(r, StateOf(states, r.ruleId), sample, evaluationTs);
      var (rest, out) := EvaluateAll(rules[1..], states[r.ruleId := next], telemetry, evaluationTs, revision);
      (rest, Announced(r, c, sample, evaluationTs, revision) + out)
  }

  lemma EvaluateFrom(rules: seq<Rule>, i: nat, states: map<string, State>, telemetry: seq<Sample>, evaluationTs: int,
                     revision: string)
    requires i < |rules|
    ensures var r := rules[i];
      var sample := Latest(telemetry, r.deviceId, r.pointId);
      var (next, c) := RuleStep(r, StateOf(states, r.ruleId), sample, evaluationTs);
      var rest := EvaluateAll(rules[i + 1..], states[r.ruleId := next], telemetry, evaluationTs, revision);
      EvaluateAll(rules[i..], states, telemetry, evaluationTs, revision)
        == (rest.0, Announced(r, c, sample, evaluationTs, revision) + rest.1)
  {
    assert rules[i..][0] == rules[i] && rules[i..][1..] == rules[i + 1..];
  }

  /** The first `i` rules have been evaluated: what is left to do completes the whole evaluation. */
  predicate Evaluated(rules: seq<Rule>, i: nat, before: map<string, State>, states: map<string, State>,
                      out: seq<Transition>,
                      telemetry: seq<Sample>, evaluationTs: int, revision: string)
  {
    i <= |rules| &&
    var all := EvaluateAll(rules, before, telemetry, evaluationTs, revision);
    var rest := EvaluateAll(rules[i..], states, telemetry, evaluationTs, revision);
    all.0 == rest.0 && all.1 == out + rest.1
  }

  lemma EvaluateOneMore(rules: seq<Rule>, i: nat, before: map<string, State>, states: map<string, State>,
                        out: seq<Transition>,
                        telemetry: seq<Sample>, evaluationTs: int, revision: string)
    requires i < |rules| && Evaluated(rules, i, before, states, out, telemetry, evaluationTs, revision)
    ensures var r := rules[i];
      var sample := Latest(telemetry, r.deviceId, r.pointId);
      var (next, c) := RuleStep(r, StateOf(states, r.ruleId), sample, evaluationTs);
      Evaluated(rules, i + 1, before, states[r.ruleId := next], out + Announced(r, c, sample, evaluationTs, revision),
                telemetry, evaluationTs, revision)
  {
    EvaluateFrom(rules, i, states, telemetry, evaluationTs, revision);
  }

  function Lookup(latest: map<(string, string), Sample>, deviceId: string, pointId: string): Option<Sample> {
    if (deviceId, pointId) in latest then Some(latest[(deviceId, pointId)]) else None
  }

  function Usables(definitions: seq<RuleDefinition>): seq<Rule> {
    if definitions == [] then []
    else
      var d := definitions[|definitions| - 1];
      Usables(definitions[..|definitions| - 1]) + if d.ruleId == "" || d.deviceId == "" || d.pointId == "" then []
                                                  else [Parsed(d)]
  }

  function Parsed(d: RuleDefinition): Rule {
    Rule(d.ruleId, d.deviceId, d.pointId, d.enabled, d.low, d.triggerThreshold,
         if d.recoveryThreshold.Some? then d.recoveryThreshold.value else d.triggerThreshold,
         if d.durationMs < 0 then 0 else d.durationMs, d.minimumQuality)
  }

  // ------------------------------------------- what a sample means to a rule

  /** GOOD is better than UNCERTAIN, this better than STALE, and this better than BAD. */
  predicate AtLeast(q: Quality, minimum: Quality) {
    match minimum
    case Good => q == Good
    case Uncertain => q == Good || q == Uncertain
    case Stale => q != Bad
    case Bad => true
  }

  predicate UsableBy(r: Rule, s: Sample) {
    AtLeast(s.quality, r.minimumQuality) && s.value.Some?
  }

  /** A usable value below the trigger threshold of a LOW rule, or above that of a HIGH one. */
  predicate BeyondTrigger(r: Rule, s: Sample) {
    UsableBy(r, s) && (r.low ==> s.value.value < r.triggerThreshold) && (!r.low ==> s.value.value > r.triggerThreshold)
  }

  /** A usable value above the recovery threshold of a LOW rule, or below that of a HIGH one. */
  predicate BeyondRecovery(r: Rule, s: Sample) {
    UsableBy(r, s) && (r.low ==> s.value.value > r.recoveryThreshold)
    && (!r.low ==> s.value.value < r.recoveryThreshold)
  }

  // ------------------------------------------------------------ the service

  class RuleService {
    var rules: seq<Rule>
    var states: map<string, State>
    var configRevision: string

    constructor ()
      ensures rules == [] && states == map[] && configRevision == ""
    {
      rules, states, configRevision := [], map[], "";
    }

    /** The same revision changes nothing; another one replaces the rules and forgets every state and timer. */
    method Configure(definitions: seq<RuleDefinition>, revision: string)
      modifies this
      ensures configRevision == revision
      ensures revision == old(configRevision) ==> rules == old(rules) && states == old(states)
      ensures revision != old(configRevision) ==> rules == Usables(definitions) && states == map[]
    {
      if revision == configRevision {
        return;
      }
      var next: seq<Rule> := [];
      for i := 0 to |definitions|
        invariant next == Usables(definitions[..i])
      {
        var d := definitions[i];
        assert definitions[..i + 1][..i] == definitions[..i];
        if d.ruleId != "" && d.deviceId != "" && d.pointId != "" {
          next := next + [Parsed(d)];
        }
      }
      assert definitions[..|definitions|] == definitions;
      rules, states, configRevision := next, map[], revision;
    }

    method Evaluate(telemetry: seq<Sample>, evaluationTs: int) returns (transitions: seq<Transition>)
      modifies this`states
      ensures states == EvaluateAll(rules, old(states), telemetry, evaluationTs, configRevision).0
      ensures transitions == EvaluateAll(rules, old(states), telemetry, evaluationTs, configRevision).1
    {
      var latest := LatestSamples(telemetry);
      transitions := [];
      assert rules[0..] == rules;
      for i := 0 to |rules|
        invariant Evaluated(rules, i, old(states), states, transitions, telemetry, evaluationTs, configRevision)
      {
        var rule := rules[i];
        var state := if rule.ruleId in states then states[rule.ruleId] else INITIAL;
        var sample := Lookup(latest, rule.deviceId, rule.pointId);
        assert sample == Latest(telemetry, rule.deviceId, rule.pointId);
        var next, announced := EvaluateRule(rule, state, sample, evaluationTs);
        EvaluateOneMore(rules, i, old(states), states, transitions, telemetry, evaluationTs, configRevision);
        states := states[rule.ruleId := next];
        transitions := transitions + announced;
      }
      assert rules[|rules|..] == [];
    }

    method LatestSamples(telemetry: seq<Sample>) returns (latest: map<(string, string), Sample>)
      ensures forall d, p :: Lookup(latest, d, p) == Latest(telemetry, d, p)
    {
      latest := map[];
      for i := 0 to |telemetry|
        invariant forall d, p :: Lookup(latest, d, p) == Latest(telemetry[..i], d, p)
      {
        var s := telemetry[i];
        assert telemetry[..i + 1][..i] == telemetry[..i];
        if s.deviceId != "" && s.pointId != "" {
          latest := latest[(s.deviceId, s.pointId) := s];
        }
      }
      assert telemetry[..|telemetry|] == telemetry;
    }

    method EvaluateRule(rule: Rule, state: State, sample: Option<Sample>, evaluationTs: int)
      returns (next: State, announced: seq<Transition>)
      ensures next == RuleStep(rule, state, sample, evaluationTs).0
      ensures announced == Announced(rule, RuleStep(rule, state, sample, evaluationTs).1, sample, evaluationTs,
                                     configRevision)
      ensures rule.enabled && sample.Some? && state.condition != Normal ==>
        && (next.condition == Normal <==> BeyondRecovery(rule, sample.value))
        && (next.condition == Unknown <==> !UsableBy(rule, sample.value))
      ensures rule.enabled && sample.Some? && state.condition == Normal ==>
        && next.condition != Unknown && (next.condition == Active ==> BeyondTrigger(rule, sample.value))
        && (rule.durationMs == 0 ==> (next.condition == Active <==> BeyondTrigger(rule, sample.value)))
      ensures rule.enabled && sample.Some? ==> (announced != [] <==> next.condition != state.condition)
    {
      next, announced := state, [];
      if !rule.enabled {
        return INITIAL, [];
      }
      if sample.None? {
        return;
      }
      var ts := Stamp(sample.value, evaluationTs);
      next := next.(lastEvaluationTs := ts);
      if QualityRank(sample.value.quality) < QualityRank(rule.minimumQuality) || sample.value.value.None? {
        next := next.(pendingSince := 0);
        if next.condition == Active {
          next := next.(condition := Unknown);
          announced := [Transition(rule, Unknown, ts, configRevision)];
        }
        return;
      }
      var value := sample.value.value.value;
      var trigger := if rule.low then value < rule.triggerThreshold else value > rule.triggerThreshold;
      var recover := if rule.low then value > rule.recoveryThreshold else value < rule.recoveryThreshold;
      if next.condition == Active || next.condition == Unknown {
        if recover {
          next := next.(condition := Normal, pendingSince := 0);
          announced := [Transition(rule, Normal, ts, configRevision)];
        } else if next.condition == Unknown {
          next := next.(condition := Active);
          announced := [Transition(rule, Active, ts, configRevision)];
        }
        return;
      }
      if !trigger {
        next := next.(pendingSince := 0);
        return;
      }
      if next.pendingSince == 0 {
        next := next.(pendingSince := ts);
      }
      if rule.durationMs == 0 || ts - next.pendingSince >= rule.durationMs {
        next := next.(condition := Active, pendingSince := 0);
        announced := [Transition(rule, Active, ts, configRevision)];
      }
    }
  }

  // ------------------------------------------- one rule over its readings

  /** The state of a rule after the readings since it was configured. */
  function After(durationMs: nat, rs: seq<Timed>): State {
    if rs == [] then INITIAL else Next(durationMs, After(durationMs, rs[..|rs| - 1]), rs[|rs| - 1]).0
  }

  /** The conditions announced over those readings. */
  function Emitted(durationMs: nat, rs: seq<Timed>): seq<Condition> {
    if rs == [] then []
    else
      var c := Next(durationMs, After(durationMs, rs[..|rs| - 1]), rs[|rs| - 1]).1;
      Emitted(durationMs, rs[..|rs| - 1]) + if c.Some? then [c.value] else []
  }

  predicate Legal(a: Condition, b: Condition) {
    match a
    case Normal => b == Active
    case Active => b == Unknown || b == Normal
    case Unknown => b == Active || b == Normal
  }

  function Before(cs: seq<Condition>, i: nat): Condition
    requires i <= |cs|
  {
    if i == 0 then Normal else cs[i - 1]
  }

  /** The announcements of a rule follow the condition graph from NORMAL, never repeat, and end at its condition. */
  lemma {:induction false} AnnouncementsLegal(durationMs: nat, rs: seq<Timed>)
    ensures var cs := Emitted(durationMs, rs);
      && (forall i :: 0 <= i < |cs| ==> Legal(Before(cs, i), cs[i]) && cs[i] != Before(cs, i))
      && Before(cs, |cs|) == After(durationMs, rs).condition
    decreases |rs|
  {
    if rs != [] {
      AnnouncementsLegal(durationMs, rs[..|rs| - 1]);
    }
  }

  /** Reading `k` finds the rule NORMAL and is beyond the trigger: it belongs to a block the timer counts. */
  predicate Counts(durationMs: nat, rs: seq<Timed>, k: nat) {
    k < |rs| && rs[k].reading.Usable? && rs[k].reading.trigger && After(durationMs, rs[..k]).condition == Normal
  }

  /** Readings `i` to `n` are one unbroken block, complete at its front. */
  predicate Block(durationMs: nat, rs: seq<Timed>, i: nat, n: nat) {
    && i <= n < |rs|
    && (forall k :: i <= k <= n ==> Counts(durationMs, rs, k))
    && (i == 0 || !Counts(durationMs, rs, i - 1))
  }

  predicate Clocked(rs: seq<Timed>) {
    forall t :: t in rs ==> t.ts != 0
  }

  lemma AfterOne(durationMs: nat, rs: seq<Timed>, n: nat)
    requires n < |rs|
    ensures After(durationMs, rs[..n + 1]) == Next(durationMs, After(durationMs, rs[..n]), rs[n]).0
  {
    assert rs[..n + 1][..n] == rs[..n];
  }

  /** The timer holds the start of the current block, and is off outside of one. */
  lemma {:induction false} TimerMeansBlock(durationMs: nat, rs: seq<Timed>, n: nat) returns (i: nat)
    requires Clocked(rs) && n <= |rs|
    ensures n > 0 && Counts(durationMs, rs, n - 1) ==> Block(durationMs, rs, i, n - 1)
    ensures After(durationMs, rs[..n]).pendingSince ==
      if n > 0 && Counts(durationMs, rs, n - 1) && After(durationMs, rs[..n]).condition == Normal then rs[i].ts else 0
  {
    i := 0;
    if n > 0 {
      AfterOne(durationMs, rs, n - 1);
      var j := TimerMeansBlock(durationMs, rs, n - 1);
      i := if n > 1 && Counts(durationMs, rs, n - 2) then j else n - 1;
    }
  }

  lemma BlockUnique(durationMs: nat, rs: seq<Timed>, i: nat, j: nat, n: nat)
    requires Block(durationMs, rs, i, n) && i != j
    ensures !Block(durationMs, rs, j, n)
  {
    if i < j <= n { assert Counts(durationMs, rs, j - 1); } else if j < i { assert !Counts(durationMs, rs, i - 1); }
  }

  /** The timer is exact: a rule goes from NORMAL to ACTIVE at a reading if and only if that reading ends an unbroken
      block of triggering readings that began at least `durationMs` earlier. */
  lemma ActivatesExactly(durationMs: nat, rs: seq<Timed>, n: nat)
    requires Clocked(rs) && n < |rs| && After(durationMs, rs[..n]).condition == Normal
    ensures After(durationMs, rs[..n + 1]).condition == Active <==>
      exists i: nat :: Block(durationMs, rs, i, n) && rs[n].ts - rs[i].ts >= durationMs
  {
    AfterOne(durationMs, rs, n);
    var _ := TimerMeansBlock(durationMs, rs, n);
    var i := TimerMeansBlock(durationMs, rs, n + 1);
    if Counts(durationMs, rs, n) {
      assert Block(durationMs, rs, i, n);
      forall j: nat | j != i ensures !Block(durationMs, rs, j, n) { BlockUnique(durationMs, rs, i, j, n); }
    }
  }

  predicate Recovers(t: Timed) {
    t.reading.Usable? && t.reading.recover
  }

  /** Hysteresis: once abnormal, a rule stays abnormal exactly as long as no usable reading is past the recovery
      threshold, whatever the trigger says. */
  lemma {:induction false} AbnormalUntilRecovery(durationMs: nat, rs: seq<Timed>, i: nat, n: nat)
    requires i <= n <= |rs| && After(durationMs, rs[..i]).condition != Normal
    ensures (forall k :: i <= k < n ==> !Recovers(rs[k])) <==>
      (forall k :: i <= k <= n ==> After(durationMs, rs[..k]).condition != Normal)
    decreases n
  {
    if i < n {
      AbnormalUntilRecovery(durationMs, rs, i, n - 1);
      AfterOne(durationMs, rs, n - 1);
      if Recovers(rs[n - 1]) && After(durationMs, rs[..n - 1]).condition != Normal {
        assert After(durationMs, rs[..n]).condition == Normal;
      }
    }
  }

  /** While abnormal, UNKNOWN means exactly that the last reading was behind the quality gate; the next usable one
      makes it ACTIVE again. */
  lemma UnknownExactlyBehindGate(durationMs: nat, rs: seq<Timed>, n: nat)
    requires 1 <= n <= |rs| && After(durationMs, rs[..n - 1]).condition != Normal
    requires After(durationMs, rs[..n]).condition != Normal
    ensures After(durationMs, rs[..n]).condition == if rs[n - 1].reading.Unusable? then Unknown else Active
  {
    AfterOne(durationMs, rs, n - 1);
  }

  /** A fact about the function only, since its callers stamp readings with positive times: 0 is also how the timer
      says it is off, so a block that begins at stamp 0 is measured from its second reading, and a rule that should
      fire at 100 does not. */
  lemma ZeroStampIsLost()
    ensures var t := Usable(true, false);
      var rs := [Timed(0, t), Timed(40, t), Timed(100, t)];
      && Block(100, rs, 0, 2) && rs[2].ts - rs[0].ts >= 100
      && After(100, rs[..2]).condition == Normal && After(100, rs).condition == Normal
  {
    var t := Usable(true, false);
    var rs := [Timed(0, t), Timed(40, t), Timed(100, t)];
    AfterOne(100, rs, 0);
    AfterOne(100, rs, 1);
    AfterOne(100, rs, 2);
    assert rs[..3] == rs && After(100, rs[..0]) == INITIAL;
  }
}
