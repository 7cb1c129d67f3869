/** Merging an acquisition batch into the last snapshot: complete devices replace what was known of them, failed
    devices keep their last facts and are marked. */
module AcquisitionService {
  import opened Basics

  datatype Failure = Failure(error: string, at: int)

  /** `failure` is present from the moment a failed acquisition marked the entry. */
  datatype Device = Device(id: string, degraded: bool, failure: Option<Failure>, detail: string)

  datatype Point = Point(deviceId: string, pointId: string, quality: Quality, failure: Option<Failure>,
                         reasons: seq<string>, detail: string)

  datatype Link = Link(deviceId: string, online: bool, quality: Quality, failure: Option<Failure>, detail: string)

  datatype Batch = Batch(snapshot: Snapshot, owned: set<string>, complete: set<string>, failed: set<string>,
                         details: map<string, string>)

  datatype Snapshot = Snapshot(generatedAt: int, devices: seq<Device>, telemetry: seq<Point>, links: seq<Link>)

  // ---------------------------------------------------------- the full path

  /** What a batch must state: every owned device is complete or failed, none both, no others. */
  predicate Validated(b: Batch) {
    b.complete + b.failed == b.owned && b.complete !! b.failed
  }

  lemma DisjointSizes(a: set<string>, b: set<string>)
    requires a !! b
    ensures |a + b| == |a| + |b|
  {
  }

  /** The size comparison that selects full replacement is exactly "no device failed". */
  lemma FullReplaceExactlyWhenNoneFailed(b: Batch)
    requires Validated(b)
    ensures |b.complete| == |b.owned| <==> b.failed == {}
  {
    DisjointSizes(b.complete, b.failed);
  }

  // ---------------------------------------------------------- merging by key

  /** The last item with a key, among those of the given devices if there is a restriction. */
  function Last<T(!new), K(==)>(items: seq<T>, key: T -> Option<K>, device: T -> string, among: Option<set<string>>,
                                k: K): Option<T> {
    if items == [] then None
    else
      var t := items[|items| - 1];
      if key(t) == Some(k) && (among.Some? ==> device(t) in among.value) then Some(t)
      else Last(items[..|items| - 1], key, device, among, k)
  }

  function Merged<T(!new), K(==)>(target: seq<T>, incoming: seq<T>, key: T -> Option<K>, device: T -> string,
                                  complete: set<string>, k: K): Option<T> {
    var last := Last(incoming, key, device, Some(complete), k);
    if last.Some? then last else Last(target, key, device, None, k)
  }

  /** The shared part of the three merges: known items, overwritten by the incoming ones of complete devices. */
  method MergeComplete<T(!new), K(==,!new)>(target: seq<T>, incoming: seq<T>, key: T -> Option<K>, device: T -> string,
                                            complete: set<string>)
    returns (merged: map<K, T>)
    ensures forall k :: k in merged <==> Merged(target, incoming, key, device, complete, k).Some?
    ensures forall k :: k in merged ==> Merged(target, incoming, key, device, complete, k) == Some(merged[k])
  {
    merged := map[];
    for i := 0 to |target|
      invariant forall k :: k in merged <==> Last(target[..i], key, device, None, k).Some?
      invariant forall k :: k in merged ==> Last(target[..i], key, device, None, k) == Some(merged[k])
    {
      assert target[..i + 1][..i] == target[..i];
      var k := key(target[i]);
      if k.Some? {
        merged := merged[k.value := target[i]];
      }
    }
    assert target[..|target|] == target;
    for i := 0 to |incoming|
      invariant forall k :: k in merged <==> Merged(target, incoming[..i], key, device, complete, k).Some?
      invariant forall k :: k in merged ==> Merged(target, incoming[..i], key, device, complete, k) == Some(merged[k])
    {
      assert incoming[..i + 1][..i] == incoming[..i];
      var k := key(incoming[i]);
      if k.Some? && device(incoming[i]) in complete {
        merged := merged[k.value := incoming[i]];
      }
    }
    assert incoming[..|incoming|] == incoming;
  }

  function DeviceKey(d: Device): Option<string> { if d.id == "" then None else Some(d.id) }

  function PointKey(p: Point): Option<(string, string)> {
    if p.deviceId == "" || p.pointId == "" then None else Some((p.deviceId, p.pointId))
  }

  function LinkKey(l: Link): Option<string> { if l.deviceId == "" then None else Some(l.deviceId) }

  /** Entries without a name have no key. */
  lemma KeysExactly(d: Device, p: Point, l: Link, id: string, pointId: string)
    ensures DeviceKey(d) == Some(id) <==> d.id == id != ""
    ensures PointKey(p) == Some((id, pointId)) <==> p.deviceId == id != "" && p.pointId == pointId != ""
    ensures LinkKey(l) == Some(id) <==> l.deviceId == id != ""
  {
  }

  const DEVICE_OF_DEVICE := (d: Device) => d.id
  const DEVICE_OF_POINT := (p: Point) => p.deviceId
  const DEVICE_OF_LINK := (l: Link) => l.deviceId

  // -------------------------------------------------------- marking failures

  const FAILED_REASON := "DEVICE_ACQUISITION_FAILED"

  function FailureFor(details: map<string, string>, id: string, now: int): Failure {
    Failure(if id in details then details[id] else "device acquisition failed", now)
  }

  function Degraded(d: Option<Device>, id: string, f: Failure): Device {
    if d.Some? then d.value.(degraded := true, failure := Some(f)) else Device(id, true, Some(f), "")
  }

  function AddReason(reasons: seq<string>, reason: string): seq<string> {
    if reason in reasons then reasons else reasons + [reason]
  }

  function MarkedStale(p: Point, f: Failure): Point {
    p.(quality := Stale, failure := Some(f), reasons := AddReason(p.reasons, FAILED_REASON))
  }

  function Offline(l: Option<Link>, id: string, f: Failure): Link {
    if l.Some? then l.value.(deviceId := id, online := false, quality := Bad, failure := Some(f))
    else Link(id, false, Bad, Some(f), "")
  }

  function Lookup<K(==), V>(m: map<K, V>, k: K): Option<V> {
    if k in m then Some(m[k]) else None
  }

  /** What each merge makes of one key, when the devices in `failed` have failed. */
  function DeviceAfter(target: seq<Device>, b: Batch, failed: set<string>, now: int, id: string): Option<Device> {
    var m := Merged(target, b.snapshot.devices, DeviceKey, DEVICE_OF_DEVICE, b.complete, id);
    if id in failed then Some(Degraded(m, id, FailureFor(b.details, id, now))) else m
  }

  function PointAfter(target: seq<Point>, incoming: seq<Point>, b: Batch, now: int,
                      k: (string, string)): Option<Point> {
    var m := Merged(target, incoming, PointKey, DEVICE_OF_POINT, b.complete, k);
    if m.Some? && m.value.deviceId in b.failed
    then Some(MarkedStale(m.value, FailureFor(b.details, m.value.deviceId, now)))
    else m
  }

  function LinkAfter(target: seq<Link>, b: Batch, failed: set<string>, now: int, id: string): Option<Link> {
    var m := Merged(target, b.snapshot.links, LinkKey, DEVICE_OF_LINK, b.complete, id);
    if id in failed then Some(Offline(m, id, FailureFor(b.details, id, now))) else m
  }

  method ReplaceDeviceValues(target: seq<Device>, b: Batch, now: int) returns (merged: map<string, Device>)
    ensures forall id :: Lookup(merged, id) == DeviceAfter(target, b, b.failed, now, id)
  {
    merged := MergeComplete(target, b.snapshot.devices, DeviceKey, DEVICE_OF_DEVICE, b.complete);
    var left := b.failed;
    while left != {}
      invariant left <= b.failed
      invariant forall id :: Lookup(merged, id) == DeviceAfter(target, b, b.failed - left, now, id)
      decreases left
    {
      var id :| id in left;
      ghost var before := merged;
      assert Lookup(before, id) == DeviceAfter(target, b, b.failed - left, now, id);
      merged := merged[id := Degraded(Lookup(merged, id), id, FailureFor(b.details, id, now))];
      left := left - {id};
      assert forall x :: x != id ==> Lookup(merged, x) == Lookup(before, x);
    }
  }

  method ReplaceTelemetryValues(target: seq<Point>, incoming: seq<Point>, b: Batch, now: int)
    returns (merged: map<(string, string), Point>)
    ensures forall k :: Lookup(merged, k) == PointAfter(target, incoming, b, now, k)
  {
    merged := MergeComplete(target, incoming, PointKey, DEVICE_OF_POINT, b.complete);
    ghost var facts := merged;
    var left := merged.Keys;
    while left != {}
      invariant left <= facts.Keys && merged.Keys == facts.Keys
      invariant forall k :: k in left ==> merged[k] == facts[k]
      invariant forall k :: k in facts.Keys - left ==>
        merged[k] ==
          if facts[k].deviceId in b.failed
          then MarkedStale(facts[k], FailureFor(b.details, facts[k].deviceId, now))
          else facts[k]
      decreases left
    {
      var k :| k in left;
      left := left - {k};
      if merged[k].deviceId in b.failed {
        merged := merged[k := MarkedStale(merged[k], FailureFor(b.details, merged[k].deviceId, now))];
      }
    }
  }

  method ReplaceCommunicationValues(target: seq<Link>, b: Batch, now: int) returns (merged: map<string, Link>)
    ensures forall id :: Lookup(merged, id) == LinkAfter(target, b, b.failed, now, id)
  {
    merged := MergeComplete(target, b.snapshot.links, LinkKey, DEVICE_OF_LINK, b.complete);
    var left := b.failed;
    while left != {}
      invariant left <= b.failed
      invariant forall id :: Lookup(merged, id) == LinkAfter(target, b, b.failed - left, now, id)
      decreases left
    {
      var id :| id in left;
      ghost var before := merged;
      assert Lookup(before, id) == LinkAfter(target, b, b.failed - left, now, id);
      merged := merged[id := Offline(Lookup(merged, id), id, FailureFor(b.details, id, now))];
      left := left - {id};
      assert forall x :: x != id ==> Lookup(merged, x) == Lookup(before, x);
    }
  }

  // ------------------------------------------------------------ normalizing

  /** `out` lists the values of `m`, in any order. */
  predicate Lists<K(==), V(==)>(out: seq<V>, m: map<K, V>) {
    (forall k :: k in m ==> m[k] in out) && (forall v :: v in out ==> exists k :: k in m && m[k] == v)
  }

  method ValuesOf<K(==), V(==)>(m: map<K, V>) returns (out: seq<V>)
    ensures Lists(out, m)
  {
    out := [];
    var left := m.Keys;
    while left != {}
      invariant left <= m.Keys
      invariant forall k :: k in m.Keys - left ==> m[k] in out
      invariant forall v :: v in out ==> exists k :: k in m && m[k] == v
      decreases left
    {
      var k :| k in left;
      out := out + [m[k]];
      left := left - {k};
    }
  }

  function OfComplete(points: seq<Point>, complete: set<string>): seq<Point> {
    if points == [] then []
    else
      var p := points[|points| - 1];
      OfComplete(points[..|points| - 1], complete) + if p.deviceId in complete then [p] else []
  }

  /** No point of a failed device looks fresh: each is a known one, its facts kept and marked stale. */
  predicate StaleFor(known: seq<Point>, out: seq<Point>, b: Batch, now: int) {
    forall p :: p in out && p.deviceId in b.failed ==> exists q :: q in known && ShownStale(q, p, b, now)
  }

  /** Every failed device has a link entry, and it is offline with bad quality. */
  predicate OfflineFor(out: seq<Link>, b: Batch) {
    && (forall l :: l in out && l.deviceId in b.failed ==> !l.online && l.quality == Bad && l.failure.Some?)
    && (forall id :: id in b.failed ==> exists l :: l in out && l.deviceId == id)
  }

  /** Every failed device has an entry, and it is degraded with the failure. */
  predicate DegradedFor(out: seq<Device>, b: Batch) {
    && (forall d :: d in out && d.id in b.failed ==> d.degraded && d.failure.Some?)
    && (forall id :: id in b.failed ==> exists d :: d in out && d.id == id)
  }

  lemma {:induction false} LastIsMember<T(!new), K>(items: seq<T>, key: T -> Option<K>, device: T -> string,
                                                    among: Option<set<string>>, k: K)
    ensures var last := Last(items, key, device, among, k);
      last.Some? ==>
        && last.value in items && key(last.value) == Some(k)
        && (among.Some? ==> device(last.value) in among.value)
    decreases |items|
  {
    if items != [] { LastIsMember(items[..|items| - 1], key, device, among, k); }
  }

  /** The n-th item is the last one with the key, among those of the given devices if there is a restriction. */
  ghost predicate LastAt<T(!new), K>(items: seq<T>, key: T -> Option<K>, device: T -> string,
                                     among: Option<set<string>>, k: K, n: nat) {
    && n < |items| && Suits(items[n], key, device, among, k)
    && forall m :: n < m < |items| ==> !Suits(items[m], key, device, among, k)
  }

  ghost predicate Suits<T(!new), K>(t: T, key: T -> Option<K>, device: T -> string, among: Option<set<string>>, k: K) {
    key(t) == Some(k) && (among.Some? ==> device(t) in among.value)
  }

  /** Of several items with one key the last one counts. */
  lemma {:induction false} LastExactly<T(!new), K>(items: seq<T>, key: T -> Option<K>, device: T -> string,
                                                   among: Option<set<string>>, k: K)
    ensures Last(items, key, device, among, k).None? <==> forall t :: t in items ==> !Suits(t, key, device, among, k)
    ensures forall n: nat :: LastAt(items, key, device, among, k, n) ==>
      Last(items, key, device, among, k) == Some(items[n])
    decreases |items|
  {
    if items != [] {
      var last := |items| - 1;
      LastExactly(items[..last], key, device, among, k);
      assert items[last] in items && forall t :: t in items[..last] ==> t in items;
      assert forall t :: t in items ==> t in items[..last] || t == items[last];
      forall n: nat | LastAt(items, key, device, among, k, n)
        ensures Last(items, key, device, among, k) == Some(items[n])
      {
        if n < last { assert LastAt(items[..last], key, device, among, k, n); }
      }
    }
  }

  /** What is said of a failure: the batch's own words about the device, or that its acquisition failed. */
  predicate Explains(f: Option<Failure>, b: Batch, id: string, now: int) {
    && f.Some? && f.value.at == now
    && (id in b.details ==> f.value.error == b.details[id])
    && (id !in b.details ==> f.value.error == "device acquisition failed")
  }

  /** The known point `q` as it is shown after its device failed: stale, with the failure and its reason added to those
      it had, and otherwise as it was. */
  predicate ShownStale(q: Point, p: Point, b: Batch, now: int) {
    && p.deviceId == q.deviceId && p.pointId == q.pointId && p.detail == q.detail
    && p.quality == Stale && Explains(p.failure, b, q.deviceId, now)
    && q.reasons <= p.reasons && FAILED_REASON in p.reasons && |p.reasons| <= |q.reasons| + 1
    && (FAILED_REASON in q.reasons ==> p.reasons == q.reasons)
  }

  lemma StaleSays(q: Point, b: Batch, now: int)
    ensures ShownStale(q, MarkedStale(q, FailureFor(b.details, q.deviceId, now)), b, now)
  {
  }

  /** A failed device is shown degraded, with the failure, and otherwise as it is known. */
  lemma DegradedSays(known: Option<Device>, b: Batch, id: string, now: int)
    requires known.Some? ==> known.value.id == id
    ensures var d := Degraded(known, id, FailureFor(b.details, id, now));
      && d.id == id && d.degraded && Explains(d.failure, b, id, now)
      && (known.Some? ==> d.detail == known.value.detail) && (known.None? ==> d.detail == "")
  {
  }

  /** Its link is shown offline and bad, with the failure, and otherwise as it is known. */
  lemma OfflineSays(known: Option<Link>, b: Batch, id: string, now: int)
    ensures var l := Offline(known, id, FailureFor(b.details, id, now));
      && l.deviceId == id && !l.online && l.quality == Bad && Explains(l.failure, b, id, now)
      && (known.Some? ==> l.detail == known.value.detail) && (known.None? ==> l.detail == "")
  {
  }

  /** What is taken from an incoming batch: the points of complete devices, each as often and in the order it came. */
  lemma {:induction false} CompleteOnly(a: seq<Point>, b: seq<Point>, p: Point, complete: set<string>)
    ensures OfComplete(a + b, complete) == OfComplete(a, complete) + OfComplete(b, complete)
    ensures OfComplete([p], complete) == if p.deviceId in complete then [p] else []
    decreases |b|
  {
    assert [p][..0] == [];
    if b == [] {
      assert a + b == a;
    } else {
      assert (a + b)[..|a + b| - 1] == a + b[..|b| - 1];
      CompleteOnly(a, b[..|b| - 1], p, complete);
    }
  }

  lemma MergeStales(target: seq<Point>, incoming: seq<Point>, b: Batch, now: int, merged: map<(string, string), Point>,
                    out: seq<Point>)
    requires b.complete !! b.failed && Lists(out, merged)
    requires forall k :: Lookup(merged, k) == PointAfter(target, incoming, b, now, k)
    ensures StaleFor(target, out, b, now)
  {
    forall p | p in out && p.deviceId in b.failed
      ensures exists q :: q in target && ShownStale(q, p, b, now)
    {
      var k :| k in merged && merged[k] == p;
      assert Lookup(merged, k) == PointAfter(target, incoming, b, now, k);
      LastIsMember(incoming, PointKey, DEVICE_OF_POINT, Some(b.complete), k);
      LastIsMember(target, PointKey, DEVICE_OF_POINT, None, k);
      StaleSays(Last(target, PointKey, DEVICE_OF_POINT, None, k).value, b, now);
    }
  }

  lemma MergeOffline(target: seq<Link>, b: Batch, now: int, merged: map<string, Link>, out: seq<Link>)
    requires Lists(out, merged) && forall id :: Lookup(merged, id) == LinkAfter(target, b, b.failed, now, id)
    ensures OfflineFor(out, b)
  {
    forall id | id in b.failed ensures exists l :: l in out && l.deviceId == id {
      assert Lookup(merged, id) == LinkAfter(target, b, b.failed, now, id);
      assert merged[id] in out;
    }
    forall l | l in out && l.deviceId in b.failed ensures !l.online && l.quality == Bad && l.failure.Some? {
      var id :| id in merged && merged[id] == l;
      assert Lookup(merged, id) == LinkAfter(target, b, b.failed, now, id);
      LastIsMember(target, LinkKey, DEVICE_OF_LINK, None, id);
      LastIsMember(b.snapshot.links, LinkKey, DEVICE_OF_LINK, Some(b.complete), id);
    }
  }

  lemma MergeDegrades(target: seq<Device>, b: Batch, now: int, merged: map<string, Device>, out: seq<Device>)
    requires Lists(out, merged) && forall id :: Lookup(merged, id) == DeviceAfter(target, b, b.failed, now, id)
    ensures DegradedFor(out, b)
  {
    forall id | id in b.failed ensures exists d :: d in out && d.id == id {
      assert Lookup(merged, id) == DeviceAfter(target, b, b.failed, now, id);
      LastIsMember(target, DeviceKey, DEVICE_OF_DEVICE, None, id);
      LastIsMember(b.snapshot.devices, DeviceKey, DEVICE_OF_DEVICE, Some(b.complete), id);
      assert merged[id] in out;
    }
    forall d | d in out && d.id in b.failed ensures d.degraded && d.failure.Some? {
      var id :| id in merged && merged[id] == d;
      assert Lookup(merged, id) == DeviceAfter(target, b, b.failed, now, id);
      LastIsMember(target, DeviceKey, DEVICE_OF_DEVICE, None, id);
      LastIsMember(b.snapshot.devices, DeviceKey, DEVICE_OF_DEVICE, Some(b.complete), id);
    }
  }

  /** The last item of every key is there, among those of the given devices if there is a restriction. */
  ghost predicate Includes<T(!new), K(!new)>(out: seq<T>, items: seq<T>, key: T -> Option<K>, device: T -> string,
                                             among: Option<set<string>>) {
    forall k :: Last(items, key, device, among, k).Some? ==> Last(items, key, device, among, k).value in out
  }

  /** What a complete device brings is there, and what is known of a failed one, marked. */
  ghost predicate PointsKept(known: seq<Point>, incoming: seq<Point>, out: seq<Point>, b: Batch, now: int) {
    && Includes(out, incoming, PointKey, DEVICE_OF_POINT, Some(b.complete))
    && forall k: (string, string) :: k.0 in b.failed && Last(known, PointKey, DEVICE_OF_POINT, None, k).Some? ==>
         MarkedStale(Last(known, PointKey, DEVICE_OF_POINT, None, k).value, FailureFor(b.details, k.0, now)) in out
  }

  ghost predicate DevicesKept(known: seq<Device>, out: seq<Device>, b: Batch, now: int) {
    && Includes(out, b.snapshot.devices, DeviceKey, DEVICE_OF_DEVICE, Some(b.complete))
    && forall id :: id in b.failed && Last(known, DeviceKey, DEVICE_OF_DEVICE, None, id).Some? ==>
         Degraded(Last(known, DeviceKey, DEVICE_OF_DEVICE, None, id), id, FailureFor(b.details, id, now)) in out
  }

  ghost predicate LinksKept(known: seq<Link>, out: seq<Link>, b: Batch, now: int) {
    && Includes(out, b.snapshot.links, LinkKey, DEVICE_OF_LINK, Some(b.complete))
    && forall id :: id in b.failed && Last(known, LinkKey, DEVICE_OF_LINK, None, id).Some? ==>
         Offline(Last(known, LinkKey, DEVICE_OF_LINK, None, id), id, FailureFor(b.details, id, now)) in out
  }

  lemma MergeKeepsPoints(target: seq<Point>, incoming: seq<Point>, b: Batch, now: int,
                         merged: map<(string, string), Point>, out: seq<Point>)
    requires b.complete !! b.failed && Lists(out, merged)
    requires forall k :: Lookup(merged, k) == PointAfter(target, incoming, b, now, k)
    ensures PointsKept(target, incoming, out, b, now)
  {
    forall k: (string, string)
      ensures k.0 in b.failed && Last(target, PointKey, DEVICE_OF_POINT, None, k).Some? ==>
        MarkedStale(Last(target, PointKey, DEVICE_OF_POINT, None, k).value, FailureFor(b.details, k.0, now)) in out
      ensures Last(incoming, PointKey, DEVICE_OF_POINT, Some(b.complete), k).Some? ==>
        Last(incoming, PointKey, DEVICE_OF_POINT, Some(b.complete), k).value in out
    {
      assert Lookup(merged, k) == PointAfter(target, incoming, b, now, k);
      LastIsMember(incoming, PointKey, DEVICE_OF_POINT, Some(b.complete), k);
      LastIsMember(target, PointKey, DEVICE_OF_POINT, None, k);
      assert k in merged ==> merged[k] in out;
    }
  }

  lemma MergeKeepsDevices(target: seq<Device>, b: Batch, now: int, merged: map<string, Device>, out: seq<Device>)
    requires b.complete !! b.failed && Lists(out, merged)
    requires forall id :: Lookup(merged, id) == DeviceAfter(target, b, b.failed, now, id)
    ensures DevicesKept(target, out, b, now)
  {
    forall id
      ensures id in b.failed && Last(target, DeviceKey, DEVICE_OF_DEVICE, None, id).Some? ==>
        Degraded(Last(target, DeviceKey, DEVICE_OF_DEVICE, None, id), id, FailureFor(b.details, id, now)) in out
      ensures Last(b.snapshot.devices, DeviceKey, DEVICE_OF_DEVICE, Some(b.complete), id).Some? ==>
        Last(b.snapshot.devices, DeviceKey, DEVICE_OF_DEVICE, Some(b.complete), id).value in out
    {
      assert Lookup(merged, id) == DeviceAfter(target, b, b.failed, now, id);
      LastIsMember(b.snapshot.devices, DeviceKey, DEVICE_OF_DEVICE, Some(b.complete), id);
      assert id in merged ==> merged[id] in out;
    }
  }

  lemma MergeKeepsLinks(target: seq<Link>, b: Batch, now: int, merged: map<string, Link>, out: seq<Link>)
    requires b.complete !! b.failed && Lists(out, merged)
    requires forall id :: Lookup(merged, id) == LinkAfter(target, b, b.failed, now, id)
    ensures LinksKept(target, out, b, now)
  {
    forall id
      ensures id in b.failed && Last(target, LinkKey, DEVICE_OF_LINK, None, id).Some? ==>
        Offline(Last(target, LinkKey, DEVICE_OF_LINK, None, id), id, FailureFor(b.details, id, now)) in out
      ensures Last(b.snapshot.links, LinkKey, DEVICE_OF_LINK, Some(b.complete), id).Some? ==>
        Last(b.snapshot.links, LinkKey, DEVICE_OF_LINK, Some(b.complete), id).value in out
    {
      assert Lookup(merged, id) == LinkAfter(target, b, b.failed, now, id);
      LastIsMember(b.snapshot.links, LinkKey, DEVICE_OF_LINK, Some(b.complete), id);
      assert id in merged ==> merged[id] in out;
    }
  }

  /** What a failed acquisition is merged into. */
  function BaseOf(b: Batch, previous: Snapshot): Snapshot {
    if previous.generatedAt <= 0 then b.snapshot.(telemetry := OfComplete(b.snapshot.telemetry, b.complete))
    else previous
  }

  /** One validated batch. Without failures it replaces everything. With failures complete devices carry what the
      batch brings; all that is known of a failed device survives, and nothing of it looks healthy: its telemetry is
      stale, its link offline, the device degraded. */
  method Normalize(b: Batch, previous: Snapshot) returns (s: Snapshot)
    ensures Validated(b) && b.failed == {} ==>
      s == b.snapshot.(telemetry := OfComplete(b.snapshot.telemetry, b.complete))
    ensures Validated(b) && b.failed != {} ==>
      && s.generatedAt == b.snapshot.generatedAt && OfflineFor(s.links, b) && DegradedFor(s.devices, b)
      && StaleFor(if previous.generatedAt <= 0 then [] else previous.telemetry, s.telemetry, b, b.snapshot.generatedAt)
    ensures Validated(b) && b.failed != {} ==>
      var base, now := BaseOf(b, previous), b.snapshot.generatedAt;
      && PointsKept(base.telemetry, OfComplete(b.snapshot.telemetry, b.complete), s.telemetry, b, now)
      && DevicesKept(base.devices, s.devices, b, now) && LinksKept(base.links, s.links, b, now)
  {
    var now := b.snapshot.generatedAt;
    var telemetry: seq<Point> := [];
    for i := 0 to |b.snapshot.telemetry|
      invariant telemetry == OfComplete(b.snapshot.telemetry[..i], b.complete)
      invariant forall p :: p in telemetry ==> p.deviceId in b.complete
    {
      assert b.snapshot.telemetry[..i + 1][..i] == b.snapshot.telemetry[..i];
      if b.snapshot.telemetry[i].deviceId in b.complete {
        telemetry := telemetry + [b.snapshot.telemetry[i]];
      }
    }
    assert b.snapshot.telemetry[..|b.snapshot.telemetry|] == b.snapshot.telemetry;
    var own := b.snapshot.(telemetry := telemetry);
    if Validated(b) { FullReplaceExactlyWhenNoneFailed(b); }
    if |b.complete| == |b.owned| {
      return own;
    }
    var base := if previous.generatedAt <= 0 then own else previous;
    var devices := ReplaceDeviceValues(base.devices, b, now);
    var points := ReplaceTelemetryValues(base.telemetry, telemetry, b, now);
    var links := ReplaceCommunicationValues(base.links, b, now);
    var ds := ValuesOf(devices);
    var ps := ValuesOf(points);
    var ls := ValuesOf(links);
    s := Snapshot(now, ds, ps, ls);
    MergeDegrades(base.devices, b, now, devices, ds);
    MergeOffline(base.links, b, now, links, ls);
    if Validated(b) {
      MergeStales(base.telemetry, telemetry, b, now, points, ps);
      MergeKeepsPoints(base.telemetry, telemetry, b, now, points, ps);
      MergeKeepsDevices(base.devices, b, now, devices, ds);
      MergeKeepsLinks(base.links, b, now, links, ls);
    }
  }
}
