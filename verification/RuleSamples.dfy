/** What the rule engine makes of samples, told in the terms of the configuration: which samples count, when a rule
    becomes ACTIVE, when it recovers, and what it announces. */
module RuleSamples {
  import opened Basics
  import opened RuleService
  import opened RuleRuns

  // ------------------------------------------------------ the right samples

  lemma ReadingSays(r: Rule, s: Sample)
    ensures ReadingOf(r, s).Unusable? <==> !UsableBy(r, s)
    ensures ReadingOf(r, s).Usable? && ReadingOf(r, s).trigger <==> BeyondTrigger(r, s)
    ensures ReadingOf(r, s).Usable? && ReadingOf(r, s).recover <==> BeyondRecovery(r, s)
  {
  }

  /** The n-th sample is the last one of the rule's point. */
  predicate LastAt(r: Rule, telemetry: seq<Sample>, n: nat) {
    && n < |telemetry| && Concerns(r, telemetry[n])
    && forall m :: n < m < |telemetry| ==> !Concerns(r, telemetry[m])
  }

  /** Of several samples of one point the last one counts; a rule finds none exactly when there is none. */
  lemma {:induction false} LatestExactly(r: Rule, telemetry: seq<Sample>)
    ensures Latest(telemetry, r.deviceId, r.pointId).None? <==> forall s :: s in telemetry ==> !Concerns(r, s)
    ensures forall n: nat :: LastAt(r, telemetry, n) ==>
      Latest(telemetry, r.deviceId, r.pointId) == Some(telemetry[n])
    decreases |telemetry|
  {
    if telemetry != [] {
      var last := |telemetry| - 1;
      LatestExactly(r, telemetry[..last]);
      assert telemetry == telemetry[..last] + [telemetry[last]];
      assert telemetry[last] in telemetry && forall s :: s in telemetry[..last] ==> s in telemetry;
      forall n: nat | LastAt(r, telemetry, n)
        ensures Latest(telemetry, r.deviceId, r.pointId) == Some(telemetry[n])
      {
        if n < last { assert LastAt(r, telemetry[..last], n); }
      }
    }
  }

  /** Each call brings the rule a sample of its point, the last one of which is the one in `samples`. */
  ghost predicate Feeds(r: Rule, calls: seq<Call>, samples: seq<Sample>) {
    |samples| == |calls| && forall k :: 0 <= k < |calls| ==> Brings(r, calls[k], samples[k])
  }

  ghost predicate Brings(r: Rule, c: Call, s: Sample) {
    exists n: nat :: LastAt(r, c.telemetry, n) && c.telemetry[n] == s
  }

  lemma BringsLatest(r: Rule, c: Call, s: Sample)
    requires Brings(r, c, s)
    ensures Latest(c.telemetry, r.deviceId, r.pointId) == Some(s)
  {
    LatestExactly(r, c.telemetry);
  }

  /** A sample without a positive time of its own is taken at the time of the evaluation. */
  function TimeOf(c: Call, s: Sample): int {
    match s.sampleTs
    case Some(ts) => if ts > 0 then ts else c.evaluationTs
    case None => c.evaluationTs
  }

  predicate Ticking(calls: seq<Call>) {
    forall c :: c in calls ==> c.evaluationTs > 0
  }

  /** The condition of a rule after some evaluations of a newly configured service. */
  function Shows(rules: seq<Rule>, calls: seq<Call>, revision: string, r: Rule): Condition {
    StateOf(RunCalls(rules, map[], calls, revision).0, r.ruleId).condition
  }

  /** The reading a rule takes from one such call. */
  function TimedOf(r: Rule, c: Call, s: Sample): Timed {
    Timed(TimeOf(c, s), ReadingOf(r, s))
  }

  lemma LastReading(r: Rule, calls: seq<Call>, samples: seq<Sample>)
    requires Feeds(r, calls, samples) && calls != []
    ensures var n := |calls| - 1;
      Readings(r, calls) == Readings(r, calls[..n]) + [TimedOf(r, calls[n], samples[n])]
  {
    var n := |calls| - 1;
    assert Brings(r, calls[n], samples[n]);
    BringsLatest(r, calls[n], samples[n]);
  }

  lemma {:induction false} FedReadings(r: Rule, calls: seq<Call>, samples: seq<Sample>)
    requires Feeds(r, calls, samples)
    ensures Readings(r, calls) == seq(|calls|, k requires 0 <= k < |calls| => TimedOf(r, calls[k], samples[k]))
    decreases |calls|
  {
    if calls != [] {
      var n := |calls| - 1;
      FedReadings(r, calls[..n], samples[..n]);
      LastReading(r, calls, samples);
    }
  }

  lemma ReadingsPrefix(r: Rule, calls: seq<Call>, samples: seq<Sample>, k: nat)
    requires Feeds(r, calls, samples) && k <= |calls|
    ensures |Readings(r, calls)| == |calls| && Readings(r, calls[..k]) == Readings(r, calls)[..k]
  {
    FedReadings(r, calls, samples);
    FedReadings(r, calls[..k], samples[..k]);
  }

  /** The rule in the service, at any point of such a run, is the fold of its readings up to there. */
  lemma ShowsReadings(rules: seq<Rule>, calls: seq<Call>, samples: seq<Sample>, revision: string, r: Rule, k: nat)
    requires DistinctRules(rules) && r in rules && r.enabled && Feeds(r, calls, samples) && k <= |calls|
    ensures k <= |Readings(r, calls)|
    ensures Shows(rules, calls[..k], revision, r) == After(r.durationMs, Readings(r, calls)[..k]).condition
  {
    ReadingsPrefix(r, calls, samples, k);
    RuleIsItsReadings(rules, calls[..k], revision, r);
  }

  // ----------------------------------------------------------------- the timer

  /** The k-th sample is beyond the trigger and finds the rule NORMAL. */
  predicate CountsAt(rules: seq<Rule>, calls: seq<Call>, samples: seq<Sample>, revision: string, r: Rule, k: nat) {
    && k < |calls| && k < |samples| && BeyondTrigger(r, samples[k])
    && Shows(rules, calls[..k], revision, r) == Normal
  }

  /** Samples `i` to `n` are an unbroken block of these, and none that counts comes right before it. */
  predicate BlockOf(rules: seq<Rule>, calls: seq<Call>, samples: seq<Sample>, revision: string, r: Rule, i: nat,
                    n: nat) {
    && i <= n && (forall k :: i <= k <= n ==> CountsAt(rules, calls, samples, revision, r, k))
    && (i == 0 || !CountsAt(rules, calls, samples, revision, r, i - 1))
  }

  /** From the i-th sample to the n-th the duration of the rule has passed. */
  predicate Lasts(r: Rule, calls: seq<Call>, samples: seq<Sample>, i: nat, n: nat) {
    && i <= n < |calls| && n < |samples|
    && TimeOf(calls[n], samples[n]) - TimeOf(calls[i], samples[i]) >= r.durationMs
  }

  lemma CountsAreCounts(rules: seq<Rule>, calls: seq<Call>, samples: seq<Sample>, revision: string, r: Rule)
    requires DistinctRules(rules) && r in rules && r.enabled && Feeds(r, calls, samples)
    ensures forall k: nat :: CountsAt(rules, calls, samples, revision, r, k) <==>
      Counts(r.durationMs, Readings(r, calls), k)
  {
    FedReadings(r, calls, samples);
    forall k: nat
      ensures CountsAt(rules, calls, samples, revision, r, k) <==> Counts(r.durationMs, Readings(r, calls), k)
    {
      if k < |calls| {
        ShowsReadings(rules, calls, samples, revision, r, k);
        ReadingSays(r, samples[k]);
      }
    }
  }

  lemma BlocksAreBlocks(rules: seq<Rule>, calls: seq<Call>, samples: seq<Sample>, revision: string, r: Rule, i: nat,
                        n: nat)
    requires DistinctRules(rules) && r in rules && r.enabled && Feeds(r, calls, samples) && n < |calls|
    ensures |Readings(r, calls)| == |calls|
    ensures BlockOf(rules, calls, samples, revision, r, i, n) <==> Block(r.durationMs, Readings(r, calls), i, n)
  {
    FedReadings(r, calls, samples);
    CountsAreCounts(rules, calls, samples, revision, r);
  }

  /** A rule goes from NORMAL to ACTIVE at a sample if and only if that sample ends an unbroken block of samples of
      sufficient quality, each numeric and beyond the trigger in the direction of the rule, which has lasted for the
      duration configured; otherwise it stays NORMAL. */
  lemma SamplesActivateExactly(rules: seq<Rule>, calls: seq<Call>, samples: seq<Sample>, revision: string, r: Rule,
                               n: nat)
    requires DistinctRules(rules) && r in rules && r.enabled && Feeds(r, calls, samples) && Ticking(calls)
    requires n < |calls| && Shows(rules, calls[..n], revision, r) == Normal
    ensures Shows(rules, calls[..n + 1], revision, r) == Active <==>
      exists i: nat :: BlockOf(rules, calls, samples, revision, r, i, n) && Lasts(r, calls, samples, i, n)
    ensures Shows(rules, calls[..n + 1], revision, r) != Unknown
  {
    var rs := Readings(r, calls);
    FedReadings(r, calls, samples);
    ReadingsClocked(r, calls);
    ShowsReadings(rules, calls, samples, revision, r, n);
    ShowsReadings(rules, calls, samples, revision, r, n + 1);
    ActivatesExactly(r.durationMs, rs, n);
    AfterOne(r.durationMs, rs, n);
    forall i: nat ensures BlockOf(rules, calls, samples, revision, r, i, n) <==> Block(r.durationMs, rs, i, n) {
      BlocksAreBlocks(rules, calls, samples, revision, r, i, n);
    }
    if i: nat :| Block(r.durationMs, rs, i, n) && rs[n].ts - rs[i].ts >= r.durationMs {
      assert BlockOf(rules, calls, samples, revision, r, i, n);
    }
    if i: nat :| BlockOf(rules, calls, samples, revision, r, i, n) && Lasts(r, calls, samples, i, n) {
      assert Block(r.durationMs, rs, i, n) && rs[n].ts - rs[i].ts >= r.durationMs;
    }
  }

  // ------------------------------------------------------------- hysteresis

  /** Once abnormal, a rule becomes NORMAL at a sample if and only if this is beyond the recovery threshold, UNKNOWN if
      and only if it is not usable, and otherwise is ACTIVE, whatever the trigger threshold says. */
  lemma SamplesRecoverExactly(rules: seq<Rule>, calls: seq<Call>, samples: seq<Sample>, revision: string, r: Rule,
                              n: nat)
    requires DistinctRules(rules) && r in rules && r.enabled && Feeds(r, calls, samples)
    requires n < |calls| && Shows(rules, calls[..n], revision, r) != Normal
    ensures Shows(rules, calls[..n + 1], revision, r) == Normal <==> BeyondRecovery(r, samples[n])
    ensures Shows(rules, calls[..n + 1], revision, r) == Unknown <==> !UsableBy(r, samples[n])
    ensures Shows(rules, calls[..n + 1], revision, r) == Active <==>
      UsableBy(r, samples[n]) && !BeyondRecovery(r, samples[n])
  {
    FedReadings(r, calls, samples);
    ShowsReadings(rules, calls, samples, revision, r, n);
    ShowsReadings(rules, calls, samples, revision, r, n + 1);
    AfterOne(r.durationMs, Readings(r, calls), n);
    ReadingSays(r, samples[n]);
    UnknownMeansActiveBefore(r.durationMs, Readings(r, calls), n);
  }

  /** An abnormal rule is never left UNKNOWN by a usable reading nor ACTIVE by an unusable one. */
  lemma UnknownMeansActiveBefore(durationMs: nat, rs: seq<Timed>, n: nat)
    requires n < |rs| && After(durationMs, rs[..n]).condition != Normal
    ensures After(durationMs, rs[..n + 1]).condition == Unknown <==> rs[n].reading.Unusable?
  {
    AfterOne(durationMs, rs, n);
  }

  /** A rule that is abnormal stays so for exactly as long as no sample is beyond its recovery threshold. */
  lemma AbnormalUntilBeyondRecovery(rules: seq<Rule>, calls: seq<Call>, samples: seq<Sample>, revision: string, r: Rule,
                                    i: nat, n: nat)
    requires DistinctRules(rules) && r in rules && r.enabled && Feeds(r, calls, samples)
    requires i <= n <= |calls| && Shows(rules, calls[..i], revision, r) != Normal
    ensures (forall k :: i <= k < n ==> !BeyondRecovery(r, samples[k])) <==>
      forall k :: i <= k <= n ==> Shows(rules, calls[..k], revision, r) != Normal
  {
    var rs := Readings(r, calls);
    FedReadings(r, calls, samples);
    forall k | 0 <= k <= |calls|
      ensures Shows(rules, calls[..k], revision, r) == After(r.durationMs, rs[..k]).condition
    {
      ShowsReadings(rules, calls, samples, revision, r, k);
    }
    AbnormalUntilRecovery(r.durationMs, rs, i, n);
    forall k | i <= k < n ensures Recovers(rs[k]) <==> BeyondRecovery(r, samples[k]) { ReadingSays(r, samples[k]); }
  }

  // ------------------------------------------------------ calls and answers

  /** The calls that bring the rule a sample of its point. */
  function Fed(r: Rule, calls: seq<Call>): seq<Call> {
    if calls == [] then []
    else
      var c := calls[|calls| - 1];
      Fed(r, calls[..|calls| - 1]) + if exists s :: s in c.telemetry && Concerns(r, s) then [c] else []
  }

  /** Evaluations without a sample of its point pass a rule by: its state and its announcements are those of the
      others alone. */
  lemma {:induction false} OnlyItsSamplesCount(rules: seq<Rule>, calls: seq<Call>, revision: string, r: Rule)
    requires DistinctRules(rules) && r in rules
    ensures var (all, out) := RunCalls(rules, map[], calls, revision);
      var (fed, said) := RunCalls(rules, map[], Fed(r, calls), revision);
      StateOf(all, r.ruleId) == StateOf(fed, r.ruleId) && Of(r, out) == Of(r, said)
    decreases |calls|
  {
    if calls != [] {
      var c, earlier := calls[|calls| - 1], calls[..|calls| - 1];
      OnlyItsSamplesCount(rules, earlier, revision, r);
      LastCall(rules, map[], calls, revision, r);
      LatestExactly(r, c.telemetry);
      if exists s :: s in c.telemetry && Concerns(r, s) {
        var fed := Fed(r, calls);
        assert fed[..|fed| - 1] == Fed(r, earlier) && fed[|fed| - 1] == c;
        LastCall(rules, map[], fed, revision, r);
      } else {
        assert Fed(r, calls) == Fed(r, earlier);
        RestingRule(rules, earlier, revision, r);
      }
    }
  }

  lemma RestingRule(rules: seq<Rule>, calls: seq<Call>, revision: string, r: Rule)
    requires DistinctRules(rules) && r in rules
    ensures !r.enabled ==> StateOf(RunCalls(rules, map[], calls, revision).0, r.ruleId) == INITIAL
  {
    if !r.enabled { DisabledAtRest(rules, calls, revision, r); }
  }

  /** What a rule announces: at each sample that changes its condition the new one, with the time of that sample and
      the configuration revision, and at no other. Each sample is remembered as the last one evaluated. */
  lemma AnnouncesChanges(rules: seq<Rule>, calls: seq<Call>, samples: seq<Sample>, revision: string, r: Rule, n: nat)
    requires DistinctRules(rules) && r in rules && r.enabled && Feeds(r, calls, samples) && n < |calls|
    ensures var before, after := Shows(rules, calls[..n], revision, r), Shows(rules, calls[..n + 1], revision, r);
      Of(r, RunCalls(rules, map[], calls[..n + 1], revision).1)
        == Of(r, RunCalls(rules, map[], calls[..n], revision).1)
           + if after != before then [Transition(r, after, TimeOf(calls[n], samples[n]), revision)] else []
    ensures StateOf(RunCalls(rules, map[], calls[..n + 1], revision).0, r.ruleId).lastEvaluationTs
      == TimeOf(calls[n], samples[n])
  {
    var c, earlier, now := calls[n], calls[..n], calls[..n + 1];
    assert now[..n] == earlier && now[n] == c && |now| == n + 1;
    assert Brings(r, c, samples[n]);
    BringsLatest(r, c, samples[n]);
    LastCall(rules, map[], now, revision, r);
    StepAnnounces(r, StateOf(RunCalls(rules, map[], earlier, revision).0, r.ruleId), samples[n], c, revision);
  }

  lemma StepAnnounces(r: Rule, state: State, s: Sample, c: Call, revision: string)
    requires r.enabled
    ensures var (next, said) := RuleStep(r, state, Some(s), c.evaluationTs);
      && Announced(r, said, Some(s), c.evaluationTs, revision)
        == (if next.condition != state.condition then [Transition(r, next.condition, TimeOf(c, s), revision)] else [])
      && next.lastEvaluationTs == TimeOf(c, s)
  {
  }

  /** A disabled rule shows NORMAL and announces nothing. */
  lemma DisabledIsNormal(rules: seq<Rule>, calls: seq<Call>, revision: string, r: Rule)
    requires DistinctRules(rules) && r in rules && !r.enabled
    ensures Shows(rules, calls, revision, r) == Normal && Of(r, RunCalls(rules, map[], calls, revision).1) == []
    decreases |calls|
  {
    DisabledAtRest(rules, calls, revision, r);
    if calls != [] {
      DisabledIsNormal(rules, calls[..|calls| - 1], revision, r);
      LastCall(rules, map[], calls, revision, r);
    }
  }

  /** The transitions of one evaluation come in the order of the rules, at most one from each: `at` says which rule
      each is of. */
  lemma {:induction false} InRuleOrder(rules: seq<Rule>, states: map<string, State>, telemetry: seq<Sample>,
                                       evaluationTs: int, revision: string) returns (at: seq<nat>)
    ensures var out := EvaluateAll(rules, states, telemetry, evaluationTs, revision).1;
      && |at| == |out| && (forall i, j :: 0 <= i < j < |at| ==> at[i] < at[j])
      && forall i :: 0 <= i < |at| ==> at[i] < |rules| && out[i].rule == rules[at[i]]
    decreases |rules|
  {
    at := [];
    if rules != [] {
      var r := rules[0];
      var sample := Latest(telemetry, r.deviceId, r.pointId);
      var (next, c) := RuleStep(r, StateOf(states, r.ruleId), sample, evaluationTs);
      var rest := InRuleOrder(rules[1..], states[r.ruleId := next], telemetry, evaluationTs, revision);
      var mine := if c.Some? && sample.Some? then [0] else [];
      at := mine + seq(|rest|, i requires 0 <= i < |rest| => rest[i] + 1);
    }
  }

  // ------------------------------------------------------ configured rules

  predicate Named(d: RuleDefinition) {
    d.ruleId != "" && d.deviceId != "" && d.pointId != ""
  }

  /** The rule is as the definition spells it: without a recovery threshold it recovers at its trigger threshold, and a
      negative duration is none. */
  predicate Says(r: Rule, d: RuleDefinition) {
    && r.ruleId == d.ruleId && r.deviceId == d.deviceId && r.pointId == d.pointId
    && r.enabled == d.enabled && r.low == d.low && r.minimumQuality == d.minimumQuality
    && r.triggerThreshold == d.triggerThreshold
    && (d.recoveryThreshold.Some? ==> r.recoveryThreshold == d.recoveryThreshold.value)
    && (d.recoveryThreshold.None? ==> r.recoveryThreshold == d.triggerThreshold)
    && (d.durationMs >= 0 ==> r.durationMs == d.durationMs) && (d.durationMs < 0 ==> r.durationMs == 0)
  }

  /** The i-th rule is as definition `at[i]` spells it. */
  predicate Spelled(definitions: seq<RuleDefinition>, rules: seq<Rule>, at: seq<nat>, i: nat) {
    i < |rules| && i < |at| && at[i] < |definitions| && Named(definitions[at[i]]) && Says(rules[i], definitions[at[i]])
  }

  /** The rules are those definitions, in their order, that name a rule, a device and a point. */
  ghost predicate Spells(definitions: seq<RuleDefinition>, rules: seq<Rule>, at: seq<nat>) {
    && |at| == |rules| && (forall i: nat :: i < |at| ==> Spelled(definitions, rules, at, i))
    && (forall i, j :: 0 <= i < j < |at| ==> at[i] < at[j])
    && (forall n: nat :: n < |definitions| && Named(definitions[n]) ==> n in at)
  }

  lemma SpellsOneMore(definitions: seq<RuleDefinition>, rules: seq<Rule>, at: seq<nat>, d: RuleDefinition)
    requires Spells(definitions, rules, at)
    ensures Named(d) ==> Spells(definitions + [d], rules + [Parsed(d)], at + [|definitions|])
    ensures !Named(d) ==> Spells(definitions + [d], rules, at)
  {
    var more := definitions + [d];
    forall i: nat | i < |at| ensures Spelled(more, rules, at, i) { assert Spelled(definitions, rules, at, i); }
    if Named(d) {
      forall i: nat | i <= |at| ensures Spelled(more, rules + [Parsed(d)], at + [|definitions|], i) {
        if i < |at| { assert Spelled(definitions, rules, at, i); }
      }
      forall i | 0 <= i < |at| ensures at[i] < |definitions| { assert Spelled(definitions, rules, at, i); }
      forall n: nat | n < |more| && Named(more[n]) ensures n in at + [|definitions|] {
        if n < |definitions| { assert n in at; }
      }
    }
  }

  lemma {:induction false} RulesAreDefinitions(definitions: seq<RuleDefinition>) returns (at: seq<nat>)
    ensures Spells(definitions, Usables(definitions), at)
    decreases |definitions|
  {
    at := [];
    if definitions != [] {
      var n := |definitions| - 1;
      at := RulesAreDefinitions(definitions[..n]);
      SpellsOneMore(definitions[..n], Usables(definitions[..n]), at, definitions[n]);
      assert definitions == definitions[..n] + [definitions[n]];
      if Named(definitions[n]) {
        at := at + [n];
      } else {
        assert Usables(definitions) == Usables(definitions[..n]);
      }
    }
  }
}
