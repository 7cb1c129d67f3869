/** The rule engine and the alarm store, driven together: each evaluation's transitions are reported one by one. */
module RuleAlarmAgreement {
  import opened Basics
  import opened RuleService
  import opened RuleRuns
  import opened AlarmService
  import History = AlarmHistory

  function AlarmOf(r: Rule): string {
    "rule:" + r.ruleId
  }

  function ReportOfTransition(t: Transition): Report {
    Report(AlarmOf(t.rule), t.condition, Some(t.timestamp))
  }

  /** Reports the transitions in order; None as soon as one of the transactions is rolled back. `clock` gives the
      store's time at each. */
  ghost function ObserveAll(s: Store, ts: seq<Transition>, clock: seq<int>): Option<Store>
    requires |clock| == |ts|
  {
    if ts == [] then Some(s)
    else
      var earlier := ObserveAll(s, ts[..|ts| - 1], clock[..|ts| - 1]);
      if earlier.None? then None else Observed(earlier.value, ReportOfTransition(ts[|ts| - 1]), clock[|ts| - 1])
  }

  /** The condition of an alarm: that of its open occurrence, or NORMAL. */
  ghost function AlarmCondition(s: Store, alarmId: string): Condition {
    var open := LatestOpen(s, alarmId);
    if open.Some? then s.occurrences[open.value].condition else Normal
  }

  ghost predicate RuleAgrees(states: map<string, State>, s: Store, r: Rule) {
    StateOf(states, r.ruleId).condition == AlarmCondition(s, AlarmOf(r))
  }

  ghost predicate Agree(rules: seq<Rule>, states: map<string, State>, s: Store) {
    forall r :: r in rules && r.enabled ==> RuleAgrees(states, s, r)
  }

  // ------------------------------------------------------- one transaction

  lemma AlarmNameInjective(a: Rule, b: Rule)
    ensures AlarmOf(a) == AlarmOf(b) <==> a.ruleId == b.ruleId
  {
    assert AlarmOf(a)[5..] == a.ruleId && AlarmOf(b)[5..] == b.ruleId;
  }

  /** A committed report touches no occurrence of another alarm. */
  lemma ReportSparesOthers(s: Store, r: Report, now: int, id: OccurrenceId)
    requires Observed(s, r, now).Some? && id.alarmId != r.alarmId
    ensures var u := Observed(s, r, now).value;
      (id in u.occurrences <==> id in s.occurrences) && (id in s.occurrences ==> u.occurrences[id] == s.occurrences[id])
  {
    assert LatestOpen(s, r.alarmId).Some? ==> LatestOpen(s, r.alarmId).value in OpenIds(s, r.alarmId);
  }

  lemma ReportKeepsOthers(s: Store, r: Report, now: int, alarmId: string)
    requires History.AtMostOneOpen(s) && Observed(s, r, now).Some? && alarmId != r.alarmId
    ensures AlarmCondition(Observed(s, r, now).value, alarmId) == AlarmCondition(s, alarmId)
  {
    var u := Observed(s, r, now).value;
    forall id: OccurrenceId | id.alarmId == alarmId
      ensures id in u.occurrences <==> id in s.occurrences
      ensures id in s.occurrences ==> u.occurrences[id] == s.occurrences[id]
    {
      ReportSparesOthers(s, r, now, id);
    }
    assert OpenIds(u, alarmId) == OpenIds(s, alarmId);
    assert forall id :: id in OpenIds(s, alarmId) ==> Open(s, id);
  }

  /** A committed report sets its own alarm's condition and leaves every other alarm's alone. */
  lemma ReportSetsCondition(s: Store, r: Report, now: int, alarmId: string)
    requires History.AtMostOneOpen(s) && Observed(s, r, now).Some?
    ensures var u := Observed(s, r, now).value;
      && History.AtMostOneOpen(u)
      && AlarmCondition(u, alarmId) == if alarmId == r.alarmId then r.condition else AlarmCondition(s, alarmId)
  {
    History.ReportTakesEffect(s, r, now);
    if alarmId != r.alarmId { ReportKeepsOthers(s, r, now, alarmId); }
  }

  /** Acknowledging changes no condition. */
  lemma AcknowledgeKeepsConditions(s: Store, id: OccurrenceId, actor: string, now: int, alarmId: string)
    requires History.AtMostOneOpen(s) && Acknowledging(s, id, actor, now).Some?
    ensures AlarmCondition(Acknowledging(s, id, actor, now).value, alarmId) == AlarmCondition(s, alarmId)
  {
    History.AcknowledgingKeepsOpen(s, id, actor, now, alarmId);
  }

  // --------------------------------------------------------- one evaluation

  /** Reporting some transitions leaves each rule's alarm at the last of that rule's transitions, or where it was. */
  lemma {:induction false} ReportsFollowTransitions(s: Store, ts: seq<Transition>, clock: seq<int>, rules: seq<Rule>,
                                                    r: Rule)
    requires |clock| == |ts| && ObserveAll(s, ts, clock).Some? && History.AtMostOneOpen(s)
    requires DistinctRules(rules) && r in rules && forall t :: t in ts ==> t.rule in rules
    ensures var u := ObserveAll(s, ts, clock).value;
      && History.AtMostOneOpen(u)
      && AlarmCondition(u, AlarmOf(r)) == if Of(r, ts) == [] then AlarmCondition(s, AlarmOf(r))
                                          else Of(r, ts)[|Of(r, ts)| - 1].condition
    decreases |ts|
  {
    if ts != [] {
      var n := |ts| - 1;
      ReportsFollowTransitions(s, ts[..n], clock[..n], rules, r);
      var before := ObserveAll(s, ts[..n], clock[..n]).value;
      ReportSetsCondition(before, ReportOfTransition(ts[n]), clock[n], AlarmOf(r));
      AlarmNameInjective(ts[n].rule, r);
      assert ts[n] in ts;
    }
  }

  lemma {:induction false} TransitionsOfRules(rules: seq<Rule>, states: map<string, State>, telemetry: seq<Sample>,
                                              evaluationTs: int,
                                              revision: string, t: Transition)
    requires t in EvaluateAll(rules, states, telemetry, evaluationTs, revision).1
    ensures t.rule in rules
    decreases |rules|
  {
    var r := rules[0];
    var sample := Latest(telemetry, r.deviceId, r.pointId);
    var (next, c) := RuleStep(r, StateOf(states, r.ruleId), sample, evaluationTs);
    var rest := EvaluateAll(rules[1..], states[r.ruleId := next], telemetry, evaluationTs, revision);
    if t in rest.1 {
      TransitionsOfRules(rules[1..], states[r.ruleId := next], telemetry, evaluationTs, revision, t);
    }
  }

  /** What a rule announces is where it goes; it stays where it is exactly when it announces nothing. */
  lemma AnnouncesItsCondition(r: Rule, before: State, sample: Option<Sample>, evaluationTs: int, revision: string)
    requires r.enabled
    ensures var (next, c) := RuleStep(r, before, sample, evaluationTs);
      var mine := Announced(r, c, sample, evaluationTs, revision);
      && (mine == [] <==> next.condition == before.condition)
      && (mine != [] ==> |mine| == 1 && mine[0].condition == next.condition)
  {
  }

  // ------------------------------------------------------------ whole runs

  /** Between two configures: evaluations with their reports, and anything else the store is asked to do that does
      not report a rule's alarm (field alarms, acknowledgements by operators). Of an evaluation's reports the first
      `done` are committed; if that is not all of them, the next one is rolled back, by a storage fault or because the
      store refuses it, and the rest are never made. */
  datatype Event =
    | Cycle(telemetry: seq<Sample>, evaluationTs: int, clock: seq<int>, done: nat, fault: bool)
    | Other(op: History.Op)

  datatype System = System(states: map<string, State>, store: Store)

  function Transitions(rules: seq<Rule>, revision: string, w: System, e: Event): seq<Transition> {
    if e.Cycle? then EvaluateAll(rules, w.states, e.telemetry, e.evaluationTs, revision).1 else []
  }

  ghost predicate Possible(rules: seq<Rule>, revision: string, w: System, e: Event) {
    match e
    case Cycle(telemetry, evaluationTs, clock, done, fault) =>
      var out := Transitions(rules, revision, w, e);
      && |clock| == |out| && done <= |out| && ObserveAll(w.store, out[..done], clock[..done]).Some?
      && (done < |out| ==> fault || ObserveAll(w.store, out[..done + 1], clock[..done + 1]).None?)
    case Other(op) => op.Observe? ==> forall r :: r in rules ==> op.report.alarmId != AlarmOf(r)
  }

  ghost function After(rules: seq<Rule>, revision: string, w: System, e: Event): System
    requires Possible(rules, revision, w, e)
  {
    match e
    case Cycle(telemetry, evaluationTs, clock, done, fault) =>
      var (after, out) := EvaluateAll(rules, w.states, telemetry, evaluationTs, revision);
      System(after, ObserveAll(w.store, out[..done], clock[..done]).value)
    case Other(op) => w.(store := History.Step(w.store, op))
  }

  /** The event moves the rule. */
  predicate Moves(rules: seq<Rule>, revision: string, w: System, e: Event, r: Rule) {
    Of(r, Transitions(rules, revision, w, e)) != []
  }

  /** The event moves the rule, and the report of it is rolled back or not made. */
  predicate Misses(rules: seq<Rule>, revision: string, w: System, e: Event, r: Rule) {
    var out := Transitions(rules, revision, w, e);
    e.Cycle? && e.done <= |out| && Of(r, out[e.done..]) != []
  }

  /** The event moves the rule, and the report of it is committed. */
  predicate Commits(rules: seq<Rule>, revision: string, w: System, e: Event, r: Rule) {
    var out := Transitions(rules, revision, w, e);
    e.Cycle? && e.done <= |out| && Of(r, out[..e.done]) != []
  }

  /** An alarm changes exactly where a report of its rule is committed, and then to the condition of the rule; a rule
      changes only where it moves, and always there. */
  ghost predicate StepTells(rules: seq<Rule>, revision: string, w: System, e: Event, v: System, r: Rule) {
    && History.AtMostOneOpen(v.store)
    && AlarmCondition(v.store, AlarmOf(r)) ==
       (if Commits(rules, revision, w, e, r) then StateOf(v.states, r.ruleId).condition
        else AlarmCondition(w.store, AlarmOf(r)))
    && (Moves(rules, revision, w, e, r) <==>
          StateOf(v.states, r.ruleId).condition != StateOf(w.states, r.ruleId).condition)
    && (Moves(rules, revision, w, e, r) <==>
          Commits(rules, revision, w, e, r) || Misses(rules, revision, w, e, r))
    && !(Commits(rules, revision, w, e, r) && Misses(rules, revision, w, e, r))
  }

  /** A rule's condition changes exactly when the cycle moves it, and then to what its one transition says. */
  lemma CycleMovesRule(rules: seq<Rule>, revision: string, w: System, e: Event, r: Rule)
    requires DistinctRules(rules) && r in rules && r.enabled && e.Cycle? && Possible(rules, revision, w, e)
    ensures var mine, before := Of(r, Transitions(rules, revision, w, e)), StateOf(w.states, r.ruleId).condition;
      var after := StateOf(After(rules, revision, w, e).states, r.ruleId).condition;
      && (mine == [] <==> after == before) && (mine != [] ==> |mine| == 1 && mine[0].condition == after)
  {
    EvaluatesAlone(rules, w.states, e.telemetry, e.evaluationTs, revision, r);
    AnnouncesItsCondition(r, StateOf(w.states, r.ruleId), Latest(e.telemetry, r.deviceId, r.pointId), e.evaluationTs,
                          revision);
  }

  /** The alarm ends at the last committed transition of its rule, or where it was. */
  lemma CycleMovesAlarm(rules: seq<Rule>, revision: string, w: System, e: Event, r: Rule)
    requires DistinctRules(rules) && r in rules && History.AtMostOneOpen(w.store)
    requires e.Cycle? && Possible(rules, revision, w, e)
    ensures var u := After(rules, revision, w, e).store;
      var told := Of(r, Transitions(rules, revision, w, e)[..e.done]);
      && History.AtMostOneOpen(u)
      && AlarmCondition(u, AlarmOf(r)) ==
         if told == [] then AlarmCondition(w.store, AlarmOf(r)) else told[|told| - 1].condition
  {
    var out, n := Transitions(rules, revision, w, e), e.done;
    forall t | t in out[..n] ensures t.rule in rules {
      TransitionsOfRules(rules, w.states, e.telemetry, e.evaluationTs, revision, t);
    }
    ReportsFollowTransitions(w.store, out[..n], e.clock[..n], rules, r);
  }

  lemma OfSplit(r: Rule, ts: seq<Transition>, n: nat)
    requires n <= |ts|
    ensures Of(r, ts) == Of(r, ts[..n]) + Of(r, ts[n..])
  {
    OfConcat(r, ts[..n], ts[n..]);
    assert ts[..n] + ts[n..] == ts;
  }

  /** A rule that moves at most once is either told of or missed. */
  lemma ToldOrMissed(told: seq<Transition>, missed: seq<Transition>)
    requires |told + missed| <= 1
    ensures told + missed != [] <==> told != [] || missed != []
    ensures told == [] || (missed == [] && told + missed == told)
  {
  }

  lemma CycleTells(rules: seq<Rule>, revision: string, w: System, e: Event, r: Rule)
    requires DistinctRules(rules) && r in rules && r.enabled && History.AtMostOneOpen(w.store)
    requires e.Cycle? && Possible(rules, revision, w, e)
    ensures StepTells(rules, revision, w, e, After(rules, revision, w, e), r)
  {
    var out, n := Transitions(rules, revision, w, e), e.done;
    CycleMovesRule(rules, revision, w, e, r);
    CycleMovesAlarm(rules, revision, w, e, r);
    OfSplit(r, out, n);
    ToldOrMissed(Of(r, out[..n]), Of(r, out[n..]));
  }

  lemma OtherTells(rules: seq<Rule>, revision: string, w: System, e: Event, r: Rule)
    requires r in rules && History.AtMostOneOpen(w.store) && e.Other? && Possible(rules, revision, w, e)
    ensures StepTells(rules, revision, w, e, After(rules, revision, w, e), r)
  {
    History.OneOpenKept(w.store, e.op);
    if History.Attempt(w.store, e.op).Some? {
      match e.op
      case Observe(report, now) => ReportSetsCondition(w.store, report, now, AlarmOf(r));
      case Acknowledge(id, actor, now) => AcknowledgeKeepsConditions(w.store, id, actor, now, AlarmOf(r));
    }
  }

  lemma EventTells(rules: seq<Rule>, revision: string, w: System, e: Event, r: Rule)
    requires DistinctRules(rules) && r in rules && r.enabled && History.AtMostOneOpen(w.store)
    requires Possible(rules, revision, w, e)
    ensures StepTells(rules, revision, w, e, After(rules, revision, w, e), r)
  {
    if e.Cycle? { CycleTells(rules, revision, w, e, r); } else { OtherTells(rules, revision, w, e, r); }
  }

  ghost predicate Happens(rules: seq<Rule>, revision: string, ws: seq<System>, es: seq<Event>, k: nat)
    requires k < |es| < |ws|
  {
    Possible(rules, revision, ws[k], es[k]) && ws[k + 1] == After(rules, revision, ws[k], es[k])
  }

  ghost predicate Run(rules: seq<Rule>, revision: string, ws: seq<System>, es: seq<Event>) {
    && DistinctRules(rules) && |ws| == |es| + 1 && History.AtMostOneOpen(ws[0].store)
    && forall k :: 0 <= k < |es| ==> Happens(rules, revision, ws, es, k)
  }

  predicate MovesAt(rules: seq<Rule>, revision: string, ws: seq<System>, es: seq<Event>, k: nat, r: Rule)
    requires k < |es| < |ws|
  {
    Moves(rules, revision, ws[k], es[k], r)
  }

  predicate MissesAt(rules: seq<Rule>, revision: string, ws: seq<System>, es: seq<Event>, k: nat, r: Rule)
    requires k < |es| < |ws|
  {
    Misses(rules, revision, ws[k], es[k], r)
  }

  predicate CommitsAt(rules: seq<Rule>, revision: string, ws: seq<System>, es: seq<Event>, k: nat, r: Rule)
    requires k < |es| < |ws|
  {
    Commits(rules, revision, ws[k], es[k], r)
  }

  lemma OneOpenAfter(rules: seq<Rule>, revision: string, w: System, e: Event, r: Rule)
    requires DistinctRules(rules) && r in rules && r.enabled && History.AtMostOneOpen(w.store)
    requires Possible(rules, revision, w, e)
    ensures History.AtMostOneOpen(After(rules, revision, w, e).store)
  {
    EventTells(rules, revision, w, e, r);
  }

  lemma {:induction false} RunOneOpen(rules: seq<Rule>, revision: string, ws: seq<System>, es: seq<Event>, i: nat,
                                      r: Rule)
    requires Run(rules, revision, ws, es) && i < |ws| && r in rules && r.enabled
    ensures History.AtMostOneOpen(ws[i].store)
  {
    if i > 0 {
      RunOneOpen(rules, revision, ws, es, i - 1, r);
      assert Happens(rules, revision, ws, es, i - 1);
      OneOpenAfter(rules, revision, ws[i - 1], es[i - 1], r);
    }
  }

  lemma RunStepTells(rules: seq<Rule>, revision: string, ws: seq<System>, es: seq<Event>, k: nat, r: Rule)
    requires Run(rules, revision, ws, es) && k < |es| && r in rules && r.enabled
    ensures StepTells(rules, revision, ws[k], es[k], ws[k + 1], r)
  {
    RunOneOpen(rules, revision, ws, es, k, r);
    assert Happens(rules, revision, ws, es, k);
    EventTells(rules, revision, ws[k], es[k], r);
  }

  lemma NormalMeansClosed(w: System, r: Rule)
    requires RuleAgrees(w.states, w.store, r)
    ensures StateOf(w.states, r.ruleId).condition == Normal <==> OpenIds(w.store, AlarmOf(r)) == {}
  {
    var open := LatestOpen(w.store, AlarmOf(r));
    assert open.Some? ==> open.value in OpenIds(w.store, AlarmOf(r));
  }

  lemma KeepsAgreeing(rules: seq<Rule>, revision: string, ws: seq<System>, es: seq<Event>, k: nat, r: Rule)
    requires Run(rules, revision, ws, es) && k < |es| && r in rules && r.enabled
    requires !MissesAt(rules, revision, ws, es, k, r) && RuleAgrees(ws[k].states, ws[k].store, r)
    ensures RuleAgrees(ws[k + 1].states, ws[k + 1].store, r)
  {
    RunStepTells(rules, revision, ws, es, k, r);
  }

  /** From agreement on, after any number of cycles and other transactions, an enabled rule none of whose reports was
      missed agrees with its alarm, whatever became of the reports of other rules: its condition is that of the
      alarm's only open occurrence, and it is NORMAL exactly when there is none. */
  lemma {:induction false} RulesAndAlarmsAgree(rules: seq<Rule>, revision: string, ws: seq<System>, es: seq<Event>,
                                               i: nat, r: Rule)
    requires Run(rules, revision, ws, es) && i < |ws| && r in rules && r.enabled
    requires RuleAgrees(ws[0].states, ws[0].store, r)
    requires forall k :: 0 <= k < i ==> !MissesAt(rules, revision, ws, es, k, r)
    ensures History.AtMostOneOpen(ws[i].store) && RuleAgrees(ws[i].states, ws[i].store, r)
    ensures StateOf(ws[i].states, r.ruleId).condition == Normal <==> OpenIds(ws[i].store, AlarmOf(r)) == {}
    decreases i
  {
    if i > 0 {
      RulesAndAlarmsAgree(rules, revision, ws, es, i - 1, r);
      KeepsAgreeing(rules, revision, ws, es, i - 1, r);
    }
    RunOneOpen(rules, revision, ws, es, i, r);
    NormalMeansClosed(ws[i], r);
  }

  /** As long as no report of a rule is committed, its alarm stays where it is. */
  lemma {:induction false} AlarmStays(rules: seq<Rule>, revision: string, ws: seq<System>, es: seq<Event>, i: nat,
                                      j: nat, r: Rule)
    requires Run(rules, revision, ws, es) && i <= j < |ws| && r in rules && r.enabled
    requires forall k :: i <= k < j ==> !CommitsAt(rules, revision, ws, es, k, r)
    ensures AlarmCondition(ws[j].store, AlarmOf(r)) == AlarmCondition(ws[i].store, AlarmOf(r))
    decreases j
  {
    if i < j {
      AlarmStays(rules, revision, ws, es, i, j - 1, r);
      AlarmStaysOnce(rules, revision, ws, es, j - 1, r);
    }
  }

  lemma AlarmStaysOnce(rules: seq<Rule>, revision: string, ws: seq<System>, es: seq<Event>, k: nat, r: Rule)
    requires Run(rules, revision, ws, es) && k < |es| && r in rules && r.enabled
    requires !CommitsAt(rules, revision, ws, es, k, r)
    ensures AlarmCondition(ws[k + 1].store, AlarmOf(r)) == AlarmCondition(ws[k].store, AlarmOf(r))
  {
    RunStepTells(rules, revision, ws, es, k, r);
  }

  /** What missed reports leave behind, in any run: a rule agrees with its alarm if and only if it stands where the
      last committed report about it left it, however often it has moved since. */
  lemma LastReportDecides(rules: seq<Rule>, revision: string, ws: seq<System>, es: seq<Event>, m: nat, j: nat, r: Rule)
    requires Run(rules, revision, ws, es) && m < j < |ws| && r in rules && r.enabled
    requires CommitsAt(rules, revision, ws, es, m, r)
    requires forall k :: m < k < j ==> !CommitsAt(rules, revision, ws, es, k, r)
    ensures RuleAgrees(ws[j].states, ws[j].store, r) <==>
      StateOf(ws[j].states, r.ruleId).condition == StateOf(ws[m + 1].states, r.ruleId).condition
  {
    RunStepTells(rules, revision, ws, es, m, r);
    AlarmStays(rules, revision, ws, es, m + 1, j, r);
  }

  /** The same where no report about the rule has been committed yet: it stands where its alarm stood at first. */
  lemma FirstAlarmDecides(rules: seq<Rule>, revision: string, ws: seq<System>, es: seq<Event>, j: nat, r: Rule)
    requires Run(rules, revision, ws, es) && j < |ws| && r in rules && r.enabled
    requires forall k :: 0 <= k < j ==> !CommitsAt(rules, revision, ws, es, k, r)
    ensures RuleAgrees(ws[j].states, ws[j].store, r) <==>
      StateOf(ws[j].states, r.ruleId).condition == AlarmCondition(ws[0].store, AlarmOf(r))
  {
    AlarmStays(rules, revision, ws, es, 0, j, r);
  }

  lemma {:induction false} RuleStays(rules: seq<Rule>, revision: string, ws: seq<System>, es: seq<Event>, i: nat,
                                     j: nat, r: Rule)
    requires Run(rules, revision, ws, es) && i <= j < |ws| && r in rules && r.enabled
    requires forall k :: i <= k < j ==> !MovesAt(rules, revision, ws, es, k, r)
    ensures StateOf(ws[j].states, r.ruleId).condition == StateOf(ws[i].states, r.ruleId).condition
    ensures AlarmCondition(ws[j].store, AlarmOf(r)) == AlarmCondition(ws[i].store, AlarmOf(r))
    decreases j
  {
    if i < j {
      RuleStays(rules, revision, ws, es, i, j - 1, r);
      RuleStaysOnce(rules, revision, ws, es, j - 1, r);
    }
  }

  lemma RuleStaysOnce(rules: seq<Rule>, revision: string, ws: seq<System>, es: seq<Event>, k: nat, r: Rule)
    requires Run(rules, revision, ws, es) && k < |es| && r in rules && r.enabled
    requires !MovesAt(rules, revision, ws, es, k, r)
    ensures StateOf(ws[k + 1].states, r.ruleId).condition == StateOf(ws[k].states, r.ruleId).condition
    ensures AlarmCondition(ws[k + 1].store, AlarmOf(r)) == AlarmCondition(ws[k].store, AlarmOf(r))
  {
    RunStepTells(rules, revision, ws, es, k, r);
  }

  /** A committed report of a rule's last move brings the two together; a missed one takes apart a rule and an alarm
      that agreed before it, until the rule moves again. */
  lemma LastMoveDecides(rules: seq<Rule>, revision: string, ws: seq<System>, es: seq<Event>, m: nat, j: nat, r: Rule)
    requires Run(rules, revision, ws, es) && m < j < |ws| && r in rules && r.enabled
    requires MovesAt(rules, revision, ws, es, m, r)
    requires forall k :: m < k < j ==> !MovesAt(rules, revision, ws, es, k, r)
    ensures !MissesAt(rules, revision, ws, es, m, r) ==> RuleAgrees(ws[j].states, ws[j].store, r)
    ensures RuleAgrees(ws[m].states, ws[m].store, r) ==>
      (RuleAgrees(ws[j].states, ws[j].store, r) <==> !MissesAt(rules, revision, ws, es, m, r))
  {
    RunStepTells(rules, revision, ws, es, m, r);
    RuleStays(rules, revision, ws, es, m + 1, j, r);
  }

  /** A fresh installation agrees: nothing is open and every rule is NORMAL. */
  lemma InstallationAgrees(rules: seq<Rule>)
    ensures Agree(rules, map[], Store(map[], [], [])) && History.AtMostOneOpen(Store(map[], [], []))
  {
    assert forall a: string :: OpenIds(Store(map[], [], []), a) == {};
  }

  /** So they agree in every state that an installation reaches before its rules are configured anew or a report is
      missed. */
  lemma InstalledSystemAgrees(rules: seq<Rule>, revision: string, ws: seq<System>, es: seq<Event>, i: nat)
    requires Run(rules, revision, ws, es) && i < |ws| && ws[0] == System(map[], Store(map[], [], []))
    requires forall k, r :: 0 <= k < i && r in rules ==> !MissesAt(rules, revision, ws, es, k, r)
    ensures Agree(rules, ws[i].states, ws[i].store)
  {
    InstallationAgrees(rules);
    forall r | r in rules && r.enabled ensures RuleAgrees(ws[i].states, ws[i].store, r) {
      assert RuleAgrees(ws[0].states, ws[0].store, r);
      RulesAndAlarmsAgree(rules, revision, ws, es, i, r);
    }
  }

  /** A configure ends agreement exactly where an alarm of an enabled rule is open: rules restart at NORMAL,
      occurrences stay. */
  lemma ConfigureAgreesExactlyWhenClosed(rules: seq<Rule>, s: Store)
    ensures Agree(rules, map[], s) <==> forall r :: r in rules && r.enabled ==> OpenIds(s, AlarmOf(r)) == {}
  {
    forall r | r in rules && r.enabled
      ensures AlarmCondition(s, AlarmOf(r)) == Normal <==> OpenIds(s, AlarmOf(r)) == {}
    {
      var open := LatestOpen(s, AlarmOf(r));
      assert open.Some? ==> open.value in OpenIds(s, AlarmOf(r));
    }
  }

  /** Every report, when its turn comes, raises a name not used before, if it raises one. */
  ghost predicate FreshReports(s: Store, ts: seq<Transition>, clock: seq<int>)
    requires |clock| == |ts|
  {
    ts != [] ==>
      var earlier := ObserveAll(s, ts[..|ts| - 1], clock[..|ts| - 1]);
      && FreshReports(s, ts[..|ts| - 1], clock[..|ts| - 1])
      && (earlier.Some? ==>
            History.Fresh(earlier.value, History.Observe(ReportOfTransition(ts[|ts| - 1]), clock[|ts| - 1])))
  }

  /** When the names that would be raised are fresh, every report is committed. */
  lemma {:induction false} FreshReportsCommit(s: Store, ts: seq<Transition>, clock: seq<int>)
    requires History.EventSourced(s) && |clock| == |ts| && FreshReports(s, ts, clock)
    ensures ObserveAll(s, ts, clock).Some? && History.EventSourced(ObserveAll(s, ts, clock).value)
    decreases |ts|
  {
    if ts != [] {
      var n := |ts| - 1;
      FreshReportsCommit(s, ts[..n], clock[..n]);
      var u, op := ObserveAll(s, ts[..n], clock[..n]).value, History.Observe(ReportOfTransition(ts[n]), clock[n]);
      History.CommitsWhenFresh(u, op);
      History.EventSourcedKept(u, op);
    }
  }

  lemma {:induction false} EarlierReportsCommit(s: Store, ts: seq<Transition>, clock: seq<int>, k: nat)
    requires |clock| == |ts| && ObserveAll(s, ts, clock).Some? && k <= |ts|
    ensures ObserveAll(s, ts[..k], clock[..k]).Some?
    decreases |ts|
  {
    var n := |ts| - 1;
    if k <= n {
      EarlierReportsCommit(s, ts[..n], clock[..n], k);
      assert ts[..n][..k] == ts[..k] && clock[..n][..k] == clock[..k];
    } else {
      assert ts[..k] == ts && clock[..k] == clock;
    }
  }

  /** So a cycle that raises only fresh names misses no report of any rule, unless the storage fails. */
  lemma FreshCycleMissesNothing(rules: seq<Rule>, revision: string, w: System, e: Event, r: Rule)
    requires e.Cycle? && !e.fault && Possible(rules, revision, w, e) && History.EventSourced(w.store)
    requires FreshReports(w.store, Transitions(rules, revision, w, e), e.clock)
    ensures !Misses(rules, revision, w, e, r)
  {
    var out := Transitions(rules, revision, w, e);
    FreshReportsCommit(w.store, out, e.clock);
    if e.done < |out| { EarlierReportsCommit(w.store, out, e.clock, e.done + 1); }
    assert out[|out|..] == [];
  }

  // ------------------------------------------------------ a report is missed

  const RULE := Rule("r", "d", "p", true, false, 1.0, 1.0, 0, Good)

  const ABNORMAL := [Sample("d", "p", Good, Some(2.0), Some(5))]

  /** The state of the rule before and after its first abnormal reading. */
  function StatesAfter(n: nat): map<string, State> {
    if n == 0 then map[] else map["r" := State(Active, 0, 5)]
  }

  /** The storage fails while the first report is being written; the second evaluation has nothing to report. */
  function FaultyCycle(n: nat): Event {
    if n == 0 then Cycle(ABNORMAL, 5, [10], 0, true) else Cycle(ABNORMAL, 5, [], 0, false)
  }

  lemma ExampleEvaluates(n: nat)
    ensures EvaluateAll([RULE], StatesAfter(n), ABNORMAL, 5, "v") ==
      (StatesAfter(1), if n == 0 then [Transition(RULE, Active, 5, "v")] else [])
  {
    assert [RULE][1..] == [];
    assert Latest(ABNORMAL, "d", "p") == Some(ABNORMAL[0]);
    var (next, c) := RuleStep(RULE, StateOf(StatesAfter(n), "r"), Some(ABNORMAL[0]), 5);
    assert next == State(Active, 0, 5) && (c == if n == 0 then Some(Active) else None);
    assert StatesAfter(n)["r" := next] == StatesAfter(1);
    assert EvaluateAll([RULE][1..], StatesAfter(1), ABNORMAL, 5, "v") == (StatesAfter(1), []);
    var mine := Announced(RULE, c, Some(ABNORMAL[0]), 5, "v");
    assert mine + [] == mine;
  }

  lemma ExampleHappens(n: nat)
    ensures var w, e := System(StatesAfter(n), Store(map[], [], [])), FaultyCycle(n);
      && Possible([RULE], "v", w, e) && After([RULE], "v", w, e) == System(StatesAfter(1), Store(map[], [], []))
      && (n == 0 ==> Misses([RULE], "v", w, e, RULE)) && (n > 0 ==> !Moves([RULE], "v", w, e, RULE))
  {
    ExampleEvaluates(n);
    var out := [Transition(RULE, Active, 5, "v")];
    assert out[0..] == out && out[..0] == [] && [10][..0] == [];
    assert Of(RULE, out) == out;
  }

  /** From an installation on: the storage fails while a rule's first report is written, and recovers. The rule is
      ACTIVE and stays so without an alarm, because nothing is left to report. */
  lemma MissedReport() returns (ws: seq<System>, es: seq<Event>)
    ensures Run([RULE], "v", ws, es) && |es| == 2 && ws[0] == System(map[], Store(map[], [], []))
    ensures MissesAt([RULE], "v", ws, es, 0, RULE) && !MovesAt([RULE], "v", ws, es, 1, RULE) && es[1] == FaultyCycle(1)
    ensures StateOf(ws[2].states, "r").condition == Active && OpenIds(ws[2].store, "rule:r") == {}
  {
    ws := seq(3, n requires 0 <= n < 3 => System(StatesAfter(n), Store(map[], [], [])));
    es := seq(2, n requires 0 <= n < 2 => FaultyCycle(n));
    InstallationAgrees([RULE]);
    forall k | 0 <= k < 2 ensures Happens([RULE], "v", ws, es, k) { ExampleHappens(k); }
    ExampleHappens(0);
    ExampleHappens(1);
  }
}
