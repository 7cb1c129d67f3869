/** Configuration revisions: drafts, optimistic publish, rollback, and which revision runs. */
module ConfigService {
  import opened Basics
  import Assets = AssetHierarchy

  /** A revision is named by its number; the source pads the number into a string. */
  type Name = nat

  /** `devices` is the device list, `assets` the asset list; `rest` everything else. */
  datatype Snapshot = Snapshot(devices: string, assets: seq<Assets.Asset>, rest: string)

  datatype Revision = Revision(parent: Option<Name>, snapshot: Snapshot, requiresRestart: bool)

  datatype DraftId = DraftId(createdAt: int, serial: nat)

  datatype Draft = Draft(base: Name, snapshot: Snapshot)

  datatype Config = Config(revisions: map<Name, Revision>, drafts: map<DraftId, Draft>, published: Name, running: Name)

  datatype Answer = Ok(name: Name) | Conflict | Invalid | Threw

  // --------------------------------------------------------- specification

  /** The first start of an installation; the bootstrapped snapshot is not validated. */
  function Bootstrapped(snapshot: Snapshot): Config {
    Config(map[1 := Revision(None, snapshot, false)], map[], 1, 1)
  }

  function RunningDevices(c: Config): string {
    if c.running in c.revisions then c.revisions[c.running].snapshot.devices else ""
  }

  /** The transaction that adds a revision on top of the published one. */
  function Appended(c: Config, snapshot: Snapshot): Config {
    var name := |c.revisions| + 1;
    var restart := snapshot.devices != RunningDevices(c);
    c.(revisions := c.revisions[name := Revision(Some(c.published), snapshot, restart)],
       published := name, running := if restart then c.running else name)
  }

  function DraftCreated(c: Config, base: Option<Name>, snapshot: Option<Snapshot>,
                        now: int): Option<(Config, DraftId)> {
    var b := if base.Some? then base.value else c.published;
    var id := DraftId(now, |c.drafts| + 1);
    if (snapshot.None? && b !in c.revisions) || id in c.drafts then None
    else
      var content := if snapshot.Some? then snapshot.value else c.revisions[b].snapshot;
      Some((c.(drafts := c.drafts[id := Draft(b, content)]), id))
  }

  function Published(c: Config, valid: Snapshot -> bool, id: DraftId): (Config, Answer) {
    if id !in c.drafts then (c, Threw)
    else if c.drafts[id].base != c.published then (c, Conflict)
    else if c.running !in c.revisions then (c, Threw)
    else if !valid(c.drafts[id].snapshot) then (c, Invalid)
    else if |c.revisions| + 1 in c.revisions then (c, Threw)
    else (Appended(c, c.drafts[id].snapshot).(drafts := c.drafts - {id}), Ok(|c.revisions| + 1))
  }

  function RolledBack(c: Config, valid: Snapshot -> bool, target: Name): (Config, Answer) {
    if target !in c.revisions || c.running !in c.revisions then (c, Threw)
    else if !valid(c.revisions[target].snapshot) then (c, Invalid)
    else if |c.revisions| + 1 in c.revisions then (c, Threw)
    else (Appended(c, c.revisions[target].snapshot), Ok(|c.revisions| + 1))
  }

  // ------------------------------------------------------------ the service

  class ConfigService {
    var revisions: map<Name, Revision>
    var drafts: map<DraftId, Draft>
    var published: Name
    var running: Name

    constructor (snapshot: Snapshot)
      ensures Contents() == Bootstrapped(snapshot)
    {
      revisions, drafts := map[1 := Revision(None, snapshot, false)], map[];
      published, running := 1, 1;
    }

    ghost function Contents(): Config
      reads this
    {
      Config(revisions, drafts, published, running)
    }

    method CreateDraft(base: Option<Name>, snapshot: Option<Snapshot>, now: int) returns (id: Option<DraftId>)
      modifies this`drafts
      ensures id.Some? <==> DraftCreated(old(Contents()), base, snapshot, now).Some?
      ensures id.Some? ==> (Contents(), id.value) == DraftCreated(old(Contents()), base, snapshot, now).value
      ensures id.None? ==> Contents() == old(Contents())
      ensures id.Some? ==>
        && id.value == DraftId(now, |old(drafts)| + 1) && id.value !in old(drafts)
        && id.value in drafts && drafts - {id.value} == old(drafts)
        && drafts[id.value].base == (match base case Some(name) => name case None => published)
        && (match snapshot
            case Some(content) => drafts[id.value].snapshot == content
            case None =>
              var b := drafts[id.value].base;
              b in revisions && drafts[id.value].snapshot == revisions[b].snapshot)
    {
      var b := if base.Some? then base.value else published;
      var content;
      if snapshot.Some? {
        content := snapshot.value;
      } else if b in revisions {
        content := revisions[b].snapshot;
      } else {
        return None;
      }
      var next := DraftId(now, |drafts| + 1);
      if next in drafts {
        return None;
      }
      ghost var before := drafts;
      drafts := drafts[next := Draft(b, content)];
      assert drafts - {next} == before;
      id := Some(next);
    }

    /** Inserts the next revision; false, with nothing changed, when its name is taken. */
    method Append(snapshot: Snapshot, restart: bool) returns (name: Option<Name>)
      modifies this`revisions, this`published, this`running
      ensures name.Some? <==> |old(revisions)| + 1 !in old(revisions)
      ensures name.None? ==> Contents() == old(Contents())
      ensures name.Some? && restart == (snapshot.devices != RunningDevices(old(Contents()))) ==>
        name.value == |old(revisions)| + 1 && Contents() == Appended(old(Contents()), snapshot)
    {
      var next := |revisions| + 1;
      if next in revisions {
        return None;
      }
      revisions := revisions[next := Revision(Some(published), snapshot, restart)];
      published := next;
      if !restart {
        running := next;
      }
      name := Some(next);
    }

    method PublishDraft(valid: Snapshot -> bool, id: DraftId) returns (a: Answer)
      modifies this
      ensures (Contents(), a) == Published(old(Contents()), valid, id)
      ensures id !in old(drafts) ==> a == Threw
      ensures a == Conflict <==> id in old(drafts) && old(drafts)[id].base != old(published)
      ensures a.Ok? ==> valid(old(drafts)[id].snapshot) && a.name == published && drafts == old(drafts) - {id}
      ensures !a.Ok? ==> Contents() == old(Contents())
    {
      if id !in drafts {
        return Threw;
      }
      var draft := drafts[id];
      if draft.base != published {
        return Conflict;
      }
      if running !in revisions {
        return Threw;
      }
      if !valid(draft.snapshot) {
        return Invalid;
      }
      var name := Append(draft.snapshot, draft.snapshot.devices != revisions[running].snapshot.devices);
      if name.None? {
        return Threw;
      }
      drafts := drafts - {id};
      a := Ok(name.value);
    }

    method Rollback(valid: Snapshot -> bool, target: Name) returns (a: Answer)
      modifies this
      ensures (Contents(), a) == RolledBack(old(Contents()), valid, target)
      ensures target !in old(revisions) ==> a == Threw
      ensures a.Ok? ==> valid(old(revisions)[target].snapshot) && a.name == published && drafts == old(drafts)
      ensures !a.Ok? ==> a != Conflict && Contents() == old(Contents())
    {
      if target !in revisions || running !in revisions {
        return Threw;
      }
      var content := revisions[target].snapshot;
      if !valid(content) {
        return Invalid;
      }
      var name := Append(content, content.devices != revisions[running].snapshot.devices);
      a := if name.Some? then Ok(name.value) else Threw;
    }
  }

  // -------------------------------------------------------------- invariants

  datatype Op =
    | CreateDraft(base: Option<Name>, snapshot: Option<Snapshot>, now: int)
    | Publish(id: DraftId)
    | Rollback(target: Name)

  function Step(c: Config, valid: Snapshot -> bool, op: Op): Config {
    match op
    case CreateDraft(base, snapshot, now) =>
      var d := DraftCreated(c, base, snapshot, now);
      if d.Some? then d.value.0 else c
    case Publish(id) => Published(c, valid, id).0
    case Rollback(target) => RolledBack(c, valid, target).0
  }

  /** Nothing newer than what runs has the device list of the bootstrap. */
  predicate NewestUnchanged(c: Config) {
    && c.running in c.revisions && 1 in c.revisions
    && c.revisions[c.running].snapshot.devices == c.revisions[1].snapshot.devices
    && forall k: Name :: k in c.revisions && c.running < k ==>
         c.revisions[k].snapshot.devices != c.revisions[1].snapshot.devices
  }

  /** The revisions are 1 to n, each the child of the one before; the last is published; all but the bootstrapped one
      were valid; and what runs is the newest one with the device list of the bootstrap. */
  ghost predicate Chain(c: Config, valid: Snapshot -> bool) {
    && c.published >= 1 && (forall k: Name :: k in c.revisions <==> 1 <= k <= c.published)
    && |c.revisions| == c.published
    && c.revisions[1].parent == None
    && (forall k: Name :: 2 <= k <= c.published ==>
          c.revisions[k].parent == Some(k - 1) && valid(c.revisions[k].snapshot))
    && 1 <= c.running <= c.published && NewestUnchanged(c)
  }

  lemma AppendKeepsChain(c: Config, valid: Snapshot -> bool, snapshot: Snapshot)
    requires Chain(c, valid) && valid(snapshot)
    ensures Chain(Appended(c, snapshot), valid) && Appended(c, snapshot).published == c.published + 1
    ensures c.published + 1 !in c.revisions
  {
  }

  /** `d` has all revisions of `c`, unchanged. */
  predicate Grows(c: Config, d: Config) {
    c.published <= d.published && forall k :: k in c.revisions ==> k in d.revisions && d.revisions[k] == c.revisions[k]
  }

  lemma GrowthChains(c: Config, d: Config, e: Config)
    requires Grows(c, d) && Grows(d, e)
    ensures Grows(c, e)
  {
  }

  /** A step adds at most one revision, on top, and changes none. */
  lemma StepKeepsChain(c: Config, valid: Snapshot -> bool, op: Op)
    requires Chain(c, valid)
    ensures Chain(Step(c, valid, op), valid) && Grows(c, Step(c, valid, op))
    ensures Step(c, valid, op).published <= c.published + 1
  {
    match op
    case Publish(id) =>
      if id in c.drafts && valid(c.drafts[id].snapshot) { AppendKeepsChain(c, valid, c.drafts[id].snapshot); }
    case Rollback(target) =>
      if target in c.revisions && valid(c.revisions[target].snapshot) {
        AppendKeepsChain(c, valid, c.revisions[target].snapshot);
      }
    case _ =>
  }

  ghost predicate Run(cs: seq<Config>, ops: seq<Op>, valid: Snapshot -> bool, bootstrap: Snapshot) {
    && |cs| == |ops| + 1 && cs[0] == Bootstrapped(bootstrap)
    && forall i :: 0 <= i < |ops| ==> cs[i + 1] == Step(cs[i], valid, ops[i])
  }

  lemma {:induction false} RunChain(cs: seq<Config>, ops: seq<Op>, valid: Snapshot -> bool, bootstrap: Snapshot, i: nat)
    requires Run(cs, ops, valid, bootstrap) && i < |cs|
    ensures Chain(cs[i], valid) && cs[i].revisions[1].snapshot == bootstrap
  {
    if i > 0 {
      RunChain(cs, ops, valid, bootstrap, i - 1);
      assert cs[i - 1 + 1] == Step(cs[i - 1], valid, ops[i - 1]);
      StepKeepsChain(cs[i - 1], valid, ops[i - 1]);
    }
  }

  ghost predicate GrowthChain(cs: seq<Config>) {
    forall i :: 0 <= i < |cs| - 1 ==> Grows(cs[i], cs[i + 1])
  }

  lemma {:induction false} GrowthAlong(cs: seq<Config>, i: nat, j: nat)
    requires GrowthChain(cs) && i <= j < |cs|
    ensures Grows(cs[i], cs[j])
    decreases j
  {
    if i < j {
      GrowthAlong(cs, i, j - 1);
      assert Grows(cs[j - 1], cs[j - 1 + 1]);
      GrowthChains(cs[i], cs[j - 1], cs[j]);
    }
  }

  /** Revisions are only ever added: the published number never falls, and no revision is rewritten. */
  lemma RevisionsGrow(cs: seq<Config>, ops: seq<Op>, valid: Snapshot -> bool, bootstrap: Snapshot, i: nat, j: nat)
    requires Run(cs, ops, valid, bootstrap) && i <= j < |cs|
    ensures Grows(cs[i], cs[j])
  {
    forall k | 0 <= k < |cs| - 1 ensures Grows(cs[k], cs[k + 1]) {
      RunChain(cs, ops, valid, bootstrap, k);
      StepKeepsChain(cs[k], valid, ops[k]);
    }
    GrowthAlong(cs, i, j);
  }

  /** In every reachable state the revisions are one linear chain whose newest is the published one, everything after
      the bootstrap passed validation, and the running revision's device list is the bootstrapped one. */
  lemma RevisionsAreOneChain(cs: seq<Config>, ops: seq<Op>, valid: Snapshot -> bool, bootstrap: Snapshot, i: nat)
    requires Run(cs, ops, valid, bootstrap) && i < |cs|
    ensures forall k: Name :: k in cs[i].revisions <==> 1 <= k <= cs[i].published
    ensures forall k: Name :: 2 <= k <= cs[i].published ==>
      cs[i].revisions[k].parent == Some(k - 1) && valid(cs[i].revisions[k].snapshot)
    ensures cs[i].running in cs[i].revisions && cs[i].revisions[cs[i].running].snapshot.devices == bootstrap.devices
  {
    RunChain(cs, ops, valid, bootstrap, i);
  }

  /** The validation of a snapshot: that of its assets, and `others` of everything else. */
  function Validation(others: Snapshot -> bool): Snapshot -> bool {
    (s: Snapshot) => others(s) && Assets.Forest(s.assets)
  }

  /** However often drafts are published and old revisions rolled back to, the assets of every revision after the
      bootstrapped one form a forest: no asset is its own ancestor, and no ancestor is missing. */
  lemma AssetsStayForests(cs: seq<Config>, ops: seq<Op>, others: Snapshot -> bool, bootstrap: Snapshot, i: nat,
                          k: Name, n: nat)
    requires Run(cs, ops, Validation(others), bootstrap) && i < |cs| && k in cs[i].revisions && k != 1
    requires n < |cs[i].revisions[k].snapshot.assets|
    ensures var assets := cs[i].revisions[k].snapshot.assets;
      && Assets.Forest(assets)
      && !Assets.ReachesCycle(Assets.ParentsOf(assets), assets[n].id)
      && !Assets.ReachesMissing(Assets.ParentsOf(assets), assets[n].id)
  {
    RunChain(cs, ops, Validation(others), bootstrap, i);
    Assets.ForestHasRoots(cs[i].revisions[k].snapshot.assets, n);
  }

  /** What runs, in every reachable state, is exactly the newest revision that has the bootstrapped device list: a
      revision with another list never runs, however long the service lives, and one with that list runs from its
      publication on. */
  lemma RunsExactlyNewestUnchanged(cs: seq<Config>, ops: seq<Op>, valid: Snapshot -> bool, bootstrap: Snapshot, i: nat,
                                   k: Name)
    requires Run(cs, ops, valid, bootstrap) && i < |cs|
    ensures cs[i].running == k <==>
      && k in cs[i].revisions && cs[i].revisions[k].snapshot.devices == bootstrap.devices
      && forall n: Name :: n in cs[i].revisions && k < n ==> cs[i].revisions[n].snapshot.devices != bootstrap.devices
  {
    RunChain(cs, ops, valid, bootstrap, i);
    assert NewestUnchanged(cs[i]);
  }

  /** A draft with another device list is published and does not run; it needs a restart, which brings no change. */
  lemma DeviceChangeNotRun(valid: Snapshot -> bool, bootstrap: Snapshot, changed: Snapshot)
    requires valid(changed) && changed.devices != bootstrap.devices
    ensures var c1 := Step(Bootstrapped(bootstrap), valid, CreateDraft(None, Some(changed), 7));
      var c2 := Step(c1, valid, Publish(DraftId(7, 1)));
      && c2.published == 2 && c2.revisions[2].snapshot == changed && c2.revisions[2].requiresRestart
      && c2.running == 1
  {
    assert DraftCreated(Bootstrapped(bootstrap), None, Some(changed), 7).Some?;
  }

  /** A draft based on a superseded revision can never be published: any later attempt is a conflict and changes
      nothing. */
  lemma SupersededDraftNeverPublishes(cs: seq<Config>, ops: seq<Op>, valid: Snapshot -> bool, bootstrap: Snapshot,
                                      i: nat, j: nat, id: DraftId)
    requires Run(cs, ops, valid, bootstrap) && i <= j < |cs|
    requires id in cs[j].drafts && cs[j].drafts[id].base < cs[i].published
    ensures Published(cs[j], valid, id) == (cs[j], Conflict)
  {
    RevisionsGrow(cs, ops, valid, bootstrap, i, j);
  }

  /** A draft is published exactly when it is based on the published revision and valid; then its content is the
      newest revision, on top of its base, and the draft is gone. */
  lemma PublishesExactly(cs: seq<Config>, ops: seq<Op>, valid: Snapshot -> bool, bootstrap: Snapshot, i: nat,
                         id: DraftId)
    requires Run(cs, ops, valid, bootstrap) && i < |cs| && id in cs[i].drafts
    ensures var c := cs[i];
      var (d, a) := Published(c, valid, id);
      && (a.Ok? <==> c.drafts[id].base == c.published && valid(c.drafts[id].snapshot))
      && (a == Conflict <==> c.drafts[id].base != c.published)
      && (a == Invalid <==> c.drafts[id].base == c.published && !valid(c.drafts[id].snapshot))
      && (!a.Ok? ==> d == c)
      && (a.Ok? ==>
            && a.name == d.published == c.published + 1 && a.name !in c.revisions
            && d.revisions[a.name].snapshot == c.drafts[id].snapshot
            && d.revisions[a.name].parent == Some(c.drafts[id].base)
            && (d.revisions[a.name].requiresRestart <==> c.drafts[id].snapshot.devices != bootstrap.devices)
            && d.drafts == c.drafts - {id})
  {
    RunChain(cs, ops, valid, bootstrap, i);
  }

  /** Rolling back publishes exactly the target's content under a fresh name on top of the published revision, if and
      only if there is such a revision and its content passes validation. */
  lemma RollbackRestoresContent(cs: seq<Config>, ops: seq<Op>, valid: Snapshot -> bool, bootstrap: Snapshot, i: nat,
                                target: Name)
    requires Run(cs, ops, valid, bootstrap) && i < |cs|
    ensures var c := cs[i];
      var (d, a) := RolledBack(c, valid, target);
      && (a == Threw <==> target !in c.revisions) && a != Conflict
      && (a.Ok? <==> target in c.revisions && valid(c.revisions[target].snapshot))
      && (target in c.revisions && target > 1 ==> a.Ok?)
      && (!a.Ok? ==> d == c)
      && (a.Ok? ==>
            && (d.revisions[a.name].requiresRestart <==> c.revisions[target].snapshot.devices != bootstrap.devices)
            && a.name == d.published == c.published + 1 && a.name !in c.revisions
            && d.revisions[a.name].snapshot == c.revisions[target].snapshot
            && d.revisions[a.name].parent == Some(c.published)
            && d.drafts == c.drafts)
  {
    RunChain(cs, ops, valid, bootstrap, i);
  }

  /** Draft names combine the clock with the number of drafts, which falls when one is published: two drafts created
      in the same millisecond around a publish get the same name, and the second creation fails. */
  lemma DraftNamesCollide(valid: Snapshot -> bool, bootstrap: Snapshot)
    requires valid(bootstrap)
    ensures var c0 := Bootstrapped(bootstrap);
      var c1 := Step(c0, valid, CreateDraft(None, None, 7));
      var c2 := Step(c1, valid, CreateDraft(None, None, 7));
      var c3 := Step(c2, valid, Publish(DraftId(7, 1)));
      DraftId(7, 2) in c3.drafts && DraftCreated(c3, None, None, 7) == None
  {
    var c2 := Step(Step(Bootstrapped(bootstrap), valid, CreateDraft(None, None, 7)), valid, CreateDraft(None, None, 7));
    var d := Draft(1, bootstrap);
    assert c2.drafts == map[DraftId(7, 1) := d, DraftId(7, 2) := d];
    assert c2.drafts - {DraftId(7, 1)} == map[DraftId(7, 2) := d];
  }

  /** Step `k` was a creation at time `now` while there were `n` drafts, and its draft has stayed until state `i`. */
  predicate MadeAndKept(cs: seq<Config>, ops: seq<Op>, k: nat, i: nat, now: int, n: nat)
    requires k < |ops| && i < |cs|
  {
    && k < i && ops[k].CreateDraft? && ops[k].now == now && |cs[k].drafts| == n
    && forall j :: k < j <= i ==> DraftId(now, n + 1) in cs[j].drafts
  }

  /** A draft that a step leaves and did not find was created by it. */
  lemma DraftAppears(c: Config, valid: Snapshot -> bool, op: Op, id: DraftId)
    requires id !in c.drafts && id in Step(c, valid, op).drafts
    ensures op.CreateDraft? && id == DraftId(op.now, |c.drafts| + 1)
  {
  }

  lemma {:induction false} DraftWasCreated(cs: seq<Config>, ops: seq<Op>, valid: Snapshot -> bool, bootstrap: Snapshot,
                                           i: nat, now: int, n: nat) returns (k: nat)
    requires Run(cs, ops, valid, bootstrap) && i < |cs| && DraftId(now, n + 1) in cs[i].drafts
    ensures k < |ops| && MadeAndKept(cs, ops, k, i, now, n)
  {
    assert i > 0;
    assert cs[i - 1 + 1] == Step(cs[i - 1], valid, ops[i - 1]);
    if DraftId(now, n + 1) in cs[i - 1].drafts {
      k := DraftWasCreated(cs, ops, valid, bootstrap, i - 1, now, n);
    } else {
      DraftAppears(cs[i - 1], valid, ops[i - 1], DraftId(now, n + 1));
      k := i - 1;
    }
  }

  /** In every run, creating a draft fails if and only if there is nothing to take its content from, or one that was
      created in the same millisecond, when there were just as many drafts, is still there. */
  lemma DraftFailsExactly(cs: seq<Config>, ops: seq<Op>, valid: Snapshot -> bool, bootstrap: Snapshot, i: nat,
                          base: Option<Name>, snapshot: Option<Snapshot>, now: int)
    requires Run(cs, ops, valid, bootstrap) && i < |cs|
    ensures DraftCreated(cs[i], base, snapshot, now).None? <==>
      || (snapshot.None? && base.Some? && base.value !in cs[i].revisions)
      || exists k :: 0 <= k < |ops| && MadeAndKept(cs, ops, k, i, now, |cs[i].drafts|)
  {
    RunChain(cs, ops, valid, bootstrap, i);
    if DraftId(now, |cs[i].drafts| + 1) in cs[i].drafts {
      var k := DraftWasCreated(cs, ops, valid, bootstrap, i, now, |cs[i].drafts|);
      assert MadeAndKept(cs, ops, k, i, now, |cs[i].drafts|);
    }
  }
}
