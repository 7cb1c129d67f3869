/** Whole runs of the rule engine: each rule lives on its own readings only, and feeding a batch at once or sample by
    sample, as a replay does, comes to the same. */
module RuleRuns {
  import opened Basics
  import opened RuleService

  predicate DistinctRules(rules: seq<Rule>) {
    forall i, j :: 0 <= i < j < |rules| ==> rules[i].ruleId != rules[j].ruleId
  }

  /** The transitions of one rule, in order. */
  function Of(r: Rule, ts: seq<Transition>): seq<Transition> {
    if ts == [] then [] else Of(r, ts[..|ts| - 1]) + if ts[|ts| - 1].rule == r then [ts[|ts| - 1]] else []
  }

  lemma {:induction false} OfConcat(r: Rule, a: seq<Transition>, b: seq<Transition>)
    ensures Of(r, a + b) == Of(r, a) + Of(r, b)
    decreases |b|
  {
    if b == [] {
      assert a + b == a;
    } else {
      assert (a + b)[..|a + b| - 1] == a + b[..|b| - 1];
      OfConcat(r, a, b[..|b| - 1]);
    }
  }

  // ------------------------------------------------------- rules are independent

  lemma {:induction false} OthersLeaveAlone(rules: seq<Rule>, states: map<string, State>, telemetry: seq<Sample>,
                                            evaluationTs: int,
                                            revision: string, r: Rule)
    requires forall x :: x in rules ==> x.ruleId != r.ruleId
    ensures var all := EvaluateAll(rules, states, telemetry, evaluationTs, revision);
      StateOf(all.0, r.ruleId) == StateOf(states, r.ruleId) && Of(r, all.1) == []
    decreases |rules|
  {
    if rules != [] {
      EvaluateFrom(rules, 0, states, telemetry, evaluationTs, revision);
      assert rules[0..] == rules;
      var x := rules[0];
      var sample := Latest(telemetry, x.deviceId, x.pointId);
      var (next, c) := RuleStep(x, StateOf(states, x.ruleId), sample, evaluationTs);
      OthersLeaveAlone(rules[1..], states[x.ruleId := next], telemetry, evaluationTs, revision, r);
      var mine := Announced(x, c, sample, evaluationTs, revision);
      OfConcat(r, mine, EvaluateAll(rules[1..], states[x.ruleId := next], telemetry, evaluationTs, revision).1);
    }
  }

  /** In one evaluation a rule sees its own state and the last sample of its point, and nothing else. */
  lemma {:induction false} EvaluatesAlone(rules: seq<Rule>, states: map<string, State>, telemetry: seq<Sample>,
                                          evaluationTs: int,
                                          revision: string, r: Rule)
    requires DistinctRules(rules) && r in rules
    ensures var all := EvaluateAll(rules, states, telemetry, evaluationTs, revision);
      var sample := Latest(telemetry, r.deviceId, r.pointId);
      var (next, c) := RuleStep(r, StateOf(states, r.ruleId), sample, evaluationTs);
      StateOf(all.0, r.ruleId) == next && Of(r, all.1) == Announced(r, c, sample, evaluationTs, revision)
    decreases |rules|
  {
    EvaluateFrom(rules, 0, states, telemetry, evaluationTs, revision);
    assert rules[0..] == rules;
    var x := rules[0];
    var sample := Latest(telemetry, x.deviceId, x.pointId);
    var (next, c) := RuleStep(x, StateOf(states, x.ruleId), sample, evaluationTs);
    var mine := Announced(x, c, sample, evaluationTs, revision);
    OfConcat(r, mine, EvaluateAll(rules[1..], states[x.ruleId := next], telemetry, evaluationTs, revision).1);
    if r == x {
      OthersLeaveAlone(rules[1..], states[x.ruleId := next], telemetry, evaluationTs, revision, r);
    } else {
      EvaluatesAlone(rules[1..], states[x.ruleId := next], telemetry, evaluationTs, revision, r);
    }
  }

  // ---------------------------------------------------- runs between configures

  datatype Call = Call(telemetry: seq<Sample>, evaluationTs: int)

  /** The states and all transitions after a sequence of evaluations under one configuration. */
  function RunCalls(rules: seq<Rule>, states: map<string, State>, calls: seq<Call>,
                    revision: string): (map<string, State>, seq<Transition>) {
    if calls == [] then (states, [])
    else
      var c := calls[|calls| - 1];
      var (before, out) := RunCalls(rules, states, calls[..|calls| - 1], revision);
      var (after, more) := EvaluateAll(rules, before, c.telemetry, c.evaluationTs, revision);
      (after, out + more)
  }

  /** The readings a rule took from those evaluations; one without a sample of its point gives none. */
  function Readings(r: Rule, calls: seq<Call>): seq<Timed> {
    if calls == [] then []
    else
      var c := calls[|calls| - 1];
      var sample := Latest(c.telemetry, r.deviceId, r.pointId);
      Readings(r, calls[..|calls| - 1]) +
        if sample.Some? then [Timed(Stamp(sample.value, c.evaluationTs), ReadingOf(r, sample.value))] else []
  }

  /** The last evaluation of a run, as one rule sees it. */
  lemma LastCall(rules: seq<Rule>, states: map<string, State>, calls: seq<Call>, revision: string, r: Rule)
    requires DistinctRules(rules) && r in rules && calls != []
    ensures var (before, out) := RunCalls(rules, states, calls[..|calls| - 1], revision);
      var (after, all) := RunCalls(rules, states, calls, revision);
      var c := calls[|calls| - 1];
      var sample := Latest(c.telemetry, r.deviceId, r.pointId);
      var (next, announced) := RuleStep(r, StateOf(before, r.ruleId), sample, c.evaluationTs);
      && StateOf(after, r.ruleId) == next
      && Of(r, all) == Of(r, out) + Announced(r, announced, sample, c.evaluationTs, revision)
  {
    var c := calls[|calls| - 1];
    var (before, out) := RunCalls(rules, states, calls[..|calls| - 1], revision);
    EvaluatesAlone(rules, before, c.telemetry, c.evaluationTs, revision, r);
    OfConcat(r, out, EvaluateAll(rules, before, c.telemetry, c.evaluationTs, revision).1);
  }

  function Conditions(ts: seq<Transition>): seq<Condition> {
    seq(|ts|, i requires 0 <= i < |ts| => ts[i].condition)
  }

  /** One more evaluation extends what a rule did by the reading it took, if any. */
  lemma ReadingExtends(r: Rule, out: seq<Transition>, sample: Option<Sample>, evaluationTs: int, revision: string,
                       rs: seq<Timed>, more: seq<Timed>)
    requires r.enabled && Conditions(out) == Emitted(r.durationMs, rs)
    requires more == if sample.None? then rs
                     else rs + [Timed(Stamp(sample.value, evaluationTs), ReadingOf(r, sample.value))]
    ensures var (next, announced) := RuleStep(r, After(r.durationMs, rs), sample, evaluationTs);
      && next == After(r.durationMs, more)
      && Conditions(out + Announced(r, announced, sample, evaluationTs, revision)) == Emitted(r.durationMs, more)
  {
    var (next, announced) := RuleStep(r, After(r.durationMs, rs), sample, evaluationTs);
    var mine := Announced(r, announced, sample, evaluationTs, revision);
    assert Conditions(out + mine) == Conditions(out) + Conditions(mine);
    if sample.None? {
      assert Conditions(out) + [] == Conditions(out);
    } else {
      assert more[..|more| - 1] == rs
        && more[|more| - 1] == Timed(Stamp(sample.value, evaluationTs), ReadingOf(r, sample.value));
      assert Conditions(mine) == if announced.Some? then [announced.value] else [];
    }
  }

  /** Between two configures an enabled rule is exactly the fold of its own readings: what `ActivatesExactly` and
      `AnnouncementsLegal` say of readings is said of the service. */
  lemma {:induction false} RuleIsItsReadings(rules: seq<Rule>, calls: seq<Call>, revision: string, r: Rule)
    requires DistinctRules(rules) && r in rules && r.enabled
    ensures StateOf(RunCalls(rules, map[], calls, revision).0, r.ruleId) == After(r.durationMs, Readings(r, calls))
    ensures Conditions(Of(r, RunCalls(rules, map[], calls, revision).1)) == Emitted(r.durationMs, Readings(r, calls))
    decreases |calls|
  {
    if calls != [] {
      var c, earlier := calls[|calls| - 1], calls[..|calls| - 1];
      RuleIsItsReadings(rules, earlier, revision, r);
      LastCall(rules, map[], calls, revision, r);
      var out := Of(r, RunCalls(rules, map[], earlier, revision).1);
      var sample := Latest(c.telemetry, r.deviceId, r.pointId);
      assert sample.None? ==> Readings(r, earlier) + [] == Readings(r, earlier);
      ReadingExtends(r, out, sample, c.evaluationTs, revision, Readings(r, earlier), Readings(r, calls));
    }
  }

  /** Under a clock that shows positive times no reading is stamped 0. */
  lemma {:induction false} ReadingsClocked(r: Rule, calls: seq<Call>)
    requires forall c :: c in calls ==> c.evaluationTs > 0
    ensures Clocked(Readings(r, calls))
    decreases |calls|
  {
    if calls != [] { ReadingsClocked(r, calls[..|calls| - 1]); }
  }

  // ------------------------------------------------------ batch and one by one

  predicate OnePerPoint(samples: seq<Sample>) {
    forall i, j :: 0 <= i < j < |samples| ==>
      (samples[i].deviceId, samples[i].pointId) != (samples[j].deviceId, samples[j].pointId)
  }

  predicate Stamped(samples: seq<Sample>) {
    forall s :: s in samples ==> s.sampleTs.Some? && s.sampleTs.value > 0
  }

  /** Each sample alone, in order; `times` are the evaluation times. */
  function OneByOne(samples: seq<Sample>, times: seq<int>): seq<Call>
    requires |times| == |samples|
  {
    seq(|samples|, i requires 0 <= i < |samples| => Call([samples[i]], times[i]))
  }

  predicate Concerns(r: Rule, s: Sample) {
    s.deviceId == r.deviceId != "" && s.pointId == r.pointId != ""
  }

  lemma {:induction false} LatestIsTheOne(samples: seq<Sample>, r: Rule)
    requires OnePerPoint(samples)
    ensures var l := Latest(samples, r.deviceId, r.pointId);
      && (l.Some? ==> l.value in samples && Concerns(r, l.value))
      && forall s :: s in samples && Concerns(r, s) ==> l == Some(s)
    decreases |samples|
  {
    if samples != [] {
      LatestIsTheOne(samples[..|samples| - 1], r);
      assert samples == samples[..|samples| - 1] + [samples[|samples| - 1]];
    }
  }

  /** What one rule has come to, and announced, after its samples one by one. */
  function Outcome(rules: seq<Rule>, states: map<string, State>, samples: seq<Sample>, times: seq<int>,
                   revision: string, r: Rule):
    (State, seq<Transition>)
    requires |times| == |samples|
  {
    var (after, out) := RunCalls(rules, states, OneByOne(samples, times), revision);
    (StateOf(after, r.ruleId), Of(r, out))
  }

  /** What one step makes of a rule. */
  function StepOutcome(r: Rule, state: State, sample: Option<Sample>, time: int, revision: string):
    (State, seq<Transition>)
  {
    var (next, c) := RuleStep(r, state, sample, time);
    (next, Announced(r, c, sample, time, revision))
  }

  lemma OneByOneLast(rules: seq<Rule>, states: map<string, State>, samples: seq<Sample>, times: seq<int>,
                     revision: string, r: Rule)
    requires DistinctRules(rules) && r in rules && |times| == |samples| && samples != []
    ensures var n := |samples| - 1;
      var before := Outcome(rules, states, samples[..n], times[..n], revision, r);
      var last := StepOutcome(r, before.0, Latest([samples[n]], r.deviceId, r.pointId), times[n], revision);
      Outcome(rules, states, samples, times, revision, r) == (last.0, before.1 + last.1)
  {
    var n, calls := |samples| - 1, OneByOne(samples, times);
    assert calls[..n] == OneByOne(samples[..n], times[..n]) && calls[n] == Call([samples[n]], times[n]);
    LastCall(rules, states, calls, revision, r);
  }

  lemma {:induction false} OneByOneRule(rules: seq<Rule>, states: map<string, State>, samples: seq<Sample>,
                                        times: seq<int>,
                                        revision: string, r: Rule)
    requires DistinctRules(rules) && r in rules && OnePerPoint(samples) && Stamped(samples) && |times| == |samples|
    requires r.enabled || StateOf(states, r.ruleId) == INITIAL
    ensures Outcome(rules, states, samples, times, revision, r)
      == StepOutcome(r, StateOf(states, r.ruleId), Latest(samples, r.deviceId, r.pointId), 0, revision)
    decreases |samples|
  {
    if samples != [] {
      var n := |samples| - 1;
      OneByOneRule(rules, states, samples[..n], times[..n], revision, r);
      OneByOneLast(rules, states, samples, times, revision, r);
      LatestSplits(samples, r);
      OneMoreSample(r, StateOf(states, r.ruleId), Latest(samples[..n], r.deviceId, r.pointId),
                    Latest([samples[n]], r.deviceId, r.pointId), times[n], revision);
    }
  }

  predicate HasTime(o: Option<Sample>) {
    o.Some? ==> o.value.sampleTs.Some? && o.value.sampleTs.value > 0
  }

  /** At most one of the last sample and the earlier ones is the rule's, and that one is its latest. */
  lemma LatestSplits(samples: seq<Sample>, r: Rule)
    requires OnePerPoint(samples) && Stamped(samples) && samples != []
    ensures var n := |samples| - 1;
      var earlier, one := Latest(samples[..n], r.deviceId, r.pointId), Latest([samples[n]], r.deviceId, r.pointId);
      && (earlier.None? || one.None?)
      && Latest(samples, r.deviceId, r.pointId) == (if one.Some? then one else earlier)
      && HasTime(earlier) && HasTime(one)
  {
    LatestOfOne(samples, r);
    LatestIsTheOne(samples[..|samples| - 1], r);
  }

  /** At most one of the two finds a sample of the rule: together they do what that one does, whatever the evaluation
      times. */
  lemma OneMoreSample(r: Rule, state: State, earlier: Option<Sample>, one: Option<Sample>, time: int, revision: string)
    requires r.enabled || state == INITIAL
    requires earlier.None? || one.None?
    requires HasTime(earlier) && HasTime(one)
    ensures var first := StepOutcome(r, state, earlier, 0, revision);
      var second := StepOutcome(r, first.0, one, time, revision);
      (second.0, first.1 + second.1) == StepOutcome(r, state, if one.Some? then one else earlier, 0, revision)
  {
    var first := StepOutcome(r, state, earlier, 0, revision);
    var second := StepOutcome(r, first.0, one, time, revision);
    assert first.1 + [] == first.1 && [] + second.1 == second.1;
  }

  /** The last of the samples is the rule's, and then no earlier one is; or it is not, and then nothing changes. */
  lemma LatestOfOne(samples: seq<Sample>, r: Rule)
    requires OnePerPoint(samples) && samples != []
    ensures var s, earlier := samples[|samples| - 1], samples[..|samples| - 1];
      && Latest([s], r.deviceId, r.pointId) == (if Concerns(r, s) then Some(s) else None)
      && (if Concerns(r, s)
          then Latest(samples, r.deviceId, r.pointId) == Some(s) && Latest(earlier, r.deviceId, r.pointId) == None
          else Latest(samples, r.deviceId, r.pointId) == Latest(earlier, r.deviceId, r.pointId))
  {
    var s, earlier := samples[|samples| - 1], samples[..|samples| - 1];
    assert [s][..0] == [];
    LatestIsTheOne(earlier, r);
  }

  /** A batch with at most one sample per point and positive sample times leaves every rule in the same state, with
      the same transitions, as its samples fed one at a time in any order at any evaluation times. */
  lemma BatchIsOneByOne(rules: seq<Rule>, states: map<string, State>, batch: seq<Sample>, evaluationTs: int,
                        order: seq<Sample>, times: seq<int>, revision: string, r: Rule)
    requires DistinctRules(rules) && r in rules && OnePerPoint(batch) && Stamped(batch)
    requires OnePerPoint(order) && |times| == |order| && forall s :: s in order <==> s in batch
    requires r.enabled || StateOf(states, r.ruleId) == INITIAL
    ensures var one := RunCalls(rules, states, OneByOne(order, times), revision);
      var all := EvaluateAll(rules, states, batch, evaluationTs, revision);
      StateOf(all.0, r.ruleId) == StateOf(one.0, r.ruleId) && Of(r, all.1) == Of(r, one.1)
  {
    EvaluatesAlone(rules, states, batch, evaluationTs, revision, r);
    OneByOneRule(rules, states, order, times, revision, r);
    LatestIsTheOne(batch, r);
    LatestIsTheOne(order, r);
    var l := Latest(batch, r.deviceId, r.pointId);
    assert l == Latest(order, r.deviceId, r.pointId);
    assert Outcome(rules, states, order, times, revision, r) ==
      StepOutcome(r, StateOf(states, r.ruleId), l, 0, revision);
  }

  /** A disabled rule is at rest in every state the service reaches, so the condition above is no restriction on it. */
  lemma {:induction false} DisabledAtRest(rules: seq<Rule>, calls: seq<Call>, revision: string, r: Rule)
    requires DistinctRules(rules) && r in rules && !r.enabled
    ensures StateOf(RunCalls(rules, map[], calls, revision).0, r.ruleId) == INITIAL
    decreases |calls|
  {
    if calls != [] {
      var c, earlier := calls[|calls| - 1], calls[..|calls| - 1];
      DisabledAtRest(rules, earlier, revision, r);
      EvaluatesAlone(rules, RunCalls(rules, map[], earlier, revision).0, c.telemetry, c.evaluationTs, revision, r);
    }
  }

  // ------------------------------------------------------------------ replay

  function ReplayTimes(ordered: seq<Sample>, fromTs: int): seq<int> {
    seq(|ordered|, i requires 0 <= i < |ordered| =>
      if ordered[i].sampleTs.Some? then ordered[i].sampleTs.value else fromTs)
  }

  /** A replay session: a rule service of its own, configured with the session's revision and fed the ordered samples
      one at a time. An empty revision is the one a new service already has, so it would be left without rules. */
  method Replay(definitions: seq<RuleDefinition>, revision: string, ordered: seq<Sample>, fromTs: int)
    returns (transitions: seq<Transition>)
    ensures revision != "" ==>
      transitions == RunCalls(Usables(definitions), map[], OneByOne(ordered, ReplayTimes(ordered, fromTs)), revision).1
    ensures revision == "" ==>
      transitions == RunCalls([], map[], OneByOne(ordered, ReplayTimes(ordered, fromTs)), revision).1
  {
    var service := new RuleService();
    service.Configure(definitions, revision);
    ghost var rules := service.rules;
    ghost var calls := OneByOne(ordered, ReplayTimes(ordered, fromTs));
    transitions := [];
    for i := 0 to |ordered|
      invariant service.rules == rules && service.configRevision == revision && fresh(service)
      invariant (service.states, transitions) == RunCalls(rules, map[], calls[..i], revision)
    {
      var ts := if ordered[i].sampleTs.Some? then ordered[i].sampleTs.value else fromTs;
      assert calls[..i + 1][..i] == calls[..i] && calls[i] == Call([ordered[i]], ts);
      var more := service.Evaluate([ordered[i]], ts);
      transitions := transitions + more;
    }
    assert calls[..|ordered|] == calls;
  }
}
