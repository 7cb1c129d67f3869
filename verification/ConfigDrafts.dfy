/** What becomes of a draft, told from the request that created it: it stays as it was asked for, and it is published on
    the revision it was asked to be based on, or not at all. */
module ConfigDrafts {
  import opened Basics
  import opened ConfigService

  /** The revision that a request to create a draft, made in `c`, is based on. */
  function BaseAsked(c: Config, op: Op): Name
    requires op.CreateDraft?
  {
    match op.base
    case Some(name) => name
    case None => c.published
  }

  /** The content it asks for: the one it brings along, or that of its base. */
  predicate ContentAsked(c: Config, op: Op, content: Snapshot)
    requires op.CreateDraft?
  {
    match op.snapshot
    case Some(s) => content == s
    case None => BaseAsked(c, op) in c.revisions && content == c.revisions[BaseAsked(c, op)].snapshot
  }

  /** The step from `c` to `d` made draft `id`, as it was asked to, and touched nothing else. */
  predicate Made(c: Config, op: Op, d: Config, id: DraftId) {
    && op.CreateDraft? && id !in c.drafts && id in d.drafts
    && d.drafts[id].base == BaseAsked(c, op) && ContentAsked(c, op, d.drafts[id].snapshot)
    && d.drafts - {id} == c.drafts
    && d.revisions == c.revisions && d.published == c.published && d.running == c.running
  }

  /** A request to create a draft makes one, exactly as asked, or changes nothing. */
  lemma CreationMakes(c: Config, valid: Snapshot -> bool, op: Op)
    requires op.CreateDraft?
    ensures Step(c, valid, op) == c || Made(c, op, Step(c, valid, op), DraftId(op.now, |c.drafts| + 1))
  {
    var id := DraftId(op.now, |c.drafts| + 1);
    if id !in c.drafts && id in Step(c, valid, op).drafts { assert Step(c, valid, op).drafts - {id} == c.drafts; }
  }

  /** A draft that is there before and after a step is the same. */
  lemma DraftsStay(c: Config, valid: Snapshot -> bool, op: Op, id: DraftId)
    requires id in c.drafts && id in Step(c, valid, op).drafts
    ensures Step(c, valid, op).drafts[id] == c.drafts[id]
  {
  }

  /** Step `k` made draft `id`, and it has stayed until state `i`, unchanged. */
  ghost predicate MadeAt(cs: seq<Config>, ops: seq<Op>, k: nat, i: nat, id: DraftId)
    requires k < |ops| < |cs| && i < |cs|
  {
    && k < i && Made(cs[k], ops[k], cs[k + 1], id)
    && forall j :: k < j <= i ==> id in cs[j].drafts && cs[j].drafts[id] == cs[k + 1].drafts[id]
  }

  lemma {:induction false} DraftWasMade(cs: seq<Config>, ops: seq<Op>, valid: Snapshot -> bool, bootstrap: Snapshot,
                                        i: nat, id: DraftId) returns (k: nat)
    requires Run(cs, ops, valid, bootstrap) && i < |cs| && id in cs[i].drafts
    ensures k < |ops| && MadeAt(cs, ops, k, i, id)
  {
    assert i > 0;
    assert cs[i - 1 + 1] == Step(cs[i - 1], valid, ops[i - 1]);
    if id in cs[i - 1].drafts {
      DraftsStay(cs[i - 1], valid, ops[i - 1], id);
      k := DraftWasMade(cs, ops, valid, bootstrap, i - 1, id);
    } else {
      k := i - 1;
      DraftAppears(cs[k], valid, ops[k], id);
      CreationMakes(cs[k], valid, ops[k]);
    }
  }

  /** In every run a draft, as long as it is there, is what the request that created it asked for: based on the
      revision given or else on the one published then, with the content given or else that of its base. */
  lemma DraftIsAsAsked(cs: seq<Config>, ops: seq<Op>, valid: Snapshot -> bool, bootstrap: Snapshot, i: nat,
                       id: DraftId)
    requires Run(cs, ops, valid, bootstrap) && i < |cs| && id in cs[i].drafts
    ensures exists k :: 0 <= k < |ops| && MadeAt(cs, ops, k, i, id)
  {
    var k := DraftWasMade(cs, ops, valid, bootstrap, i, id);
  }

  lemma DraftAsMade(cs: seq<Config>, ops: seq<Op>, k: nat, i: nat, id: DraftId)
    requires k < |ops| < |cs| && i < |cs| && MadeAt(cs, ops, k, i, id)
    ensures id in cs[i].drafts && ops[k].CreateDraft?
    ensures cs[i].drafts[id].base == BaseAsked(cs[k], ops[k])
    ensures ContentAsked(cs[k], ops[k], cs[i].drafts[id].snapshot)
  {
  }

  /** No lost update: once a revision newer than the one a draft was asked to be based on is published, every attempt
      to publish the draft, then or later, is a conflict that changes nothing. */
  lemma OvertakenDraftConflicts(cs: seq<Config>, ops: seq<Op>, valid: Snapshot -> bool, bootstrap: Snapshot, k: nat,
                                i: nat, j: nat, id: DraftId)
    requires Run(cs, ops, valid, bootstrap) && k < |ops| && i <= j < |cs| && MadeAt(cs, ops, k, j, id)
    requires BaseAsked(cs[k], ops[k]) < cs[i].published
    ensures Published(cs[j], valid, id) == (cs[j], Conflict)
    ensures j < |ops| && ops[j] == Publish(id) ==> cs[j + 1] == cs[j]
  {
    DraftAsMade(cs, ops, k, j, id);
    SupersededDraftNeverPublishes(cs, ops, valid, bootstrap, i, j, id);
  }

  /** What publishing a draft brings about: a revision with the content that was asked for, right after the revision
      that was asked for as its base. It succeeds if and only if that one is the published one and the content valid. */
  lemma PublishesWhatWasAsked(cs: seq<Config>, ops: seq<Op>, valid: Snapshot -> bool, bootstrap: Snapshot, k: nat,
                              i: nat, id: DraftId)
    requires Run(cs, ops, valid, bootstrap) && k < |ops| && i < |ops| && MadeAt(cs, ops, k, i, id)
    requires ops[i] == Publish(id)
    ensures cs[i + 1].published == cs[i].published + 1 <==>
      BaseAsked(cs[k], ops[k]) == cs[i].published
      && exists content :: ContentAsked(cs[k], ops[k], content) && valid(content)
    ensures cs[i + 1].published == cs[i].published + 1 ==>
      && cs[i + 1].published in cs[i + 1].revisions
      && cs[i + 1].revisions[cs[i + 1].published].parent == Some(BaseAsked(cs[k], ops[k]))
      && ContentAsked(cs[k], ops[k], cs[i + 1].revisions[cs[i + 1].published].snapshot)
      && cs[i + 1].drafts == cs[i].drafts - {id}
    ensures cs[i + 1].published != cs[i].published + 1 ==> cs[i + 1] == cs[i]
  {
    DraftAsMade(cs, ops, k, i, id);
    PublishesExactly(cs, ops, valid, bootstrap, i, id);
    assert cs[i + 1] == Step(cs[i], valid, ops[i]);
    assert ContentAsked(cs[k], ops[k], cs[i].drafts[id].snapshot);
  }
}
