/** Stage A of the pipeline (`src/handle_rate.py`): the sliding-window usage
    table of the image-generation deployments, the first-fit allocator that
    consults it, the bounded registry of preview IDs already seen, and the
    message handler that ties them together and publishes the enriched job.

    Timestamps are whole seconds; each `datetime.now()` of the source is a
    separate parameter, so the model can speak about clocks that move between
    two reads. */
module HandleRate {
  import opened Py
  import DocStore

  /** Marks younger than this many seconds count towards an endpoint's quota. */
  const Window: int := 60
  /** An endpoint with this many recent marks is saturated. */
  const Quota: nat := 3
  /** Once `preview_ids` grows past this length ... */
  const GateLimit: nat := 50
  /** ... this many of its oldest entries are dropped. */
  const GateDrop: nat := 30

  // ---------------------------------------------------------------------
  // Topology (`get_deployments`)

  /** `{"deployment-name": ..., "api_key": ..., "endpoint": ...}` */
  datatype Deployment = Deployment(name: string, apiKey: string, endpoint: string)

  /** One region of the topology and its deployments, in declared order. */
  datatype Region = Region(zone: string, deployments: seq<Deployment>)

  type Topology = seq<Region>

  /** Deployment number `n` of region credential set `r`, read from the environment `env`. */
  function EnvDeployment(env: string -> string, n: string, r: string): Deployment {
    Deployment(env("deployment_" + n), env("api_key_" + r), env("endpoint_" + r))
  }

  /** `get_deployments()`: the fixed regions and the order of their deployments. */
  function GetDeployments(env: string -> string): Topology {
    [ Region("westus", [EnvDeployment(env, "1", "1"), EnvDeployment(env, "2", "1"), EnvDeployment(env, "3", "1"),
                        EnvDeployment(env, "13", "1"), EnvDeployment(env, "14", "1"), EnvDeployment(env, "15", "1")]),
      Region("middle-east", [EnvDeployment(env, "4", "2"), EnvDeployment(env, "5", "2"), EnvDeployment(env, "6", "2"),
                             EnvDeployment(env, "16", "2"), EnvDeployment(env, "17", "2"), EnvDeployment(env, "18", "2")]),
      Region("poland", [EnvDeployment(env, "7", "3"), EnvDeployment(env, "8", "3"), EnvDeployment(env, "22", "3"),
                        EnvDeployment(env, "23", "3"), EnvDeployment(env, "24", "3")]),
      Region("eastus", [EnvDeployment(env, "10", "4"), EnvDeployment(env, "11", "4"), EnvDeployment(env, "12", "4")]),
      Region("sweden", [EnvDeployment(env, "19", "5"), EnvDeployment(env, "20", "5"), EnvDeployment(env, "21", "5")]) ]
  }

  // ---------------------------------------------------------------------
  // The usage table (`rate_limits`)

  /** One list of the table: a deployment name and its usage marks. */
  datatype Slot = Slot(name: string, marks: seq<int>)

  /** One region of the table, its slots in insertion order. */
  datatype ZoneUsage = ZoneUsage(zone: string, slots: seq<Slot>)

  /** The nested dict `rate_limits`, in its insertion order. */
  type Table = seq<ZoneUsage>

  /** `rate_limits` as declared: every list empty. */
  function InitialTable(): Table {
    [ ZoneUsage("westus", [Slot("gpt-image-1-1", []), Slot("gpt-image-1-2", []), Slot("gpt-image-1-3", []),
                           Slot("gpt-image-1-13", []), Slot("gpt-image-1-14", []), Slot("gpt-image-1-15", [])]),
      ZoneUsage("middle-east", [Slot("gpt-image-1-4", []), Slot("gpt-image-1-5", []), Slot("gpt-image-1-6", []),
                                Slot("gpt-image-1-16", []), Slot("gpt-image-1-17", []), Slot("gpt-image-1-18", [])]),
      ZoneUsage("poland", [Slot("gpt-image-1-7", []), Slot("gpt-image-1-8", []), Slot("gpt-image-1-22", []),
                           Slot("gpt-image-1-23", []), Slot("gpt-image-1-24", [])]),
      ZoneUsage("eastus", [Slot("gpt-image-1-10", []), Slot("gpt-image-1-11", []), Slot("gpt-image-1-12", [])]),
      ZoneUsage("sweden", [Slot("gpt-image-1-19", []), Slot("gpt-image-1-20", []), Slot("gpt-image-1-21", [])]) ]
  }

  /** The deployment names of a region, in order. */
  function SlotNames(slots: seq<Slot>): seq<string> {
    seq(|slots|, j requires 0 <= j < |slots| => slots[j].name)
  }

  /** The layout of a table: each region's name with its deployment names. */
  function Shape(t: Table): seq<(string, seq<string>)> {
    seq(|t|, i requires 0 <= i < |t| => (t[i].zone, SlotNames(t[i].slots)))
  }

  /** Two tables have the same regions and deployment names in the same order. */
  ghost predicate SameShape(a: Table, b: Table) {
    Shape(a) == Shape(b)
  }

  /** A table laid out as declared lists a deployment in its first region. */
  lemma LaidOutHasSlot(t: Table)
    requires SameShape(t, InitialTable())
    ensures HasSlot(t)
  {
    assert |Shape(t)[0].1| == |Shape(InitialTable())[0].1| == 6;
    assert t[0].slots != [];
  }

  /** Replacing one region by one with the same name and deployment names
      keeps the layout. */
  lemma ShapeAfterZone(t: Table, i: int, z: ZoneUsage)
    requires 0 <= i < |t| && z.zone == t[i].zone && SlotNames(z.slots) == SlotNames(t[i].slots)
    ensures SameShape(t[i := z], t)
  {
    assert forall k :: 0 <= k < |t| ==> Shape(t[i := z])[k] == Shape(t)[k];
  }

  /** The table lists at least one deployment. */
  predicate HasSlot(t: Table) {
    exists i :: 0 <= i < |t| && t[i].slots != []
  }

  /** The first region of the table that lists a deployment. */
  function FirstFilledZone(t: Table): (k: nat)
    requires HasSlot(t)
    ensures k < |t| && t[k].slots != []
    ensures forall i :: 0 <= i < k ==> t[i].slots == []
    decreases |t|
  {
    if t[0].slots != [] then 0
    else
      assert HasSlot(t[1..]) by {
        var i :| 0 <= i < |t| && t[i].slots != [];
        assert t[1..][i - 1] == t[i];
      }
      1 + FirstFilledZone(t[1..])
  }

  /** `rate_limits.get(zone, {})` */
  function ZoneSlots(t: Table, zone: string): seq<Slot>
    decreases |t|
  {
    if t == [] then [] else if t[0].zone == zone then t[0].slots else ZoneSlots(t[1..], zone)
  }

  /** `.get(name, [])` on one region */
  function SlotMarks(slots: seq<Slot>, name: string): seq<int>
    decreases |slots|
  {
    if slots == [] then [] else if slots[0].name == name then slots[0].marks else SlotMarks(slots[1..], name)
  }

  /** `rate_limits.get(zone, {}).get(name, [])` */
  function Usage(t: Table, zone: string, name: string): seq<int> {
    SlotMarks(ZoneSlots(t, zone), name)
  }

  /** The table has a list for `name` under `zone`. */
  predicate Listed(t: Table, zone: string, name: string) {
    exists i, j :: 0 <= i < |t| && 0 <= j < |t[i].slots| && t[i].zone == zone && t[i].slots[j].name == name
  }

  /** An endpoint whose region or name the table does not list has no usage. */
  lemma {:induction false} UnlistedHasNoUsage(t: Table, zone: string, name: string)
    requires !Listed(t, zone, name)
    ensures Usage(t, zone, name) == []
    decreases |t|
  {
    if t != [] {
      if t[0].zone == zone {
        SlotsUnlisted(t[0].slots, name);
      } else {
        assert !Listed(t[1..], zone, name);
        UnlistedHasNoUsage(t[1..], zone, name);
      }
    }
  }

  lemma {:induction false} SlotsUnlisted(slots: seq<Slot>, name: string)
    requires forall j :: 0 <= j < |slots| ==> slots[j].name != name
    ensures SlotMarks(slots, name) == []
    decreases |slots|
  {
    if slots != [] {
      SlotsUnlisted(slots[1..], name);
    }
  }

  // ---------------------------------------------------------------------
  // The sliding window

  predicate Recent(now: int, ts: int) {
    now - ts < Window
  }

  /** `sum(1 for ts in marks if (now - ts).total_seconds() < 60)` */
  function CountRecent(marks: seq<int>, now: int): nat
    decreases |marks|
  {
    if marks == [] then 0 else (if Recent(now, marks[0]) then 1 else 0) + CountRecent(marks[1..], now)
  }

  /** `[ts for ts in marks if (now - ts).total_seconds() < 60]` */
  function Prune(marks: seq<int>, now: int): seq<int>
    decreases |marks|
  {
    if marks == [] then [] else (if Recent(now, marks[0]) then [marks[0]] else []) + Prune(marks[1..], now)
  }

  /** Pruning keeps exactly the recent marks, so its length is the recent count. */
  lemma {:induction false} PruneKeepsRecent(marks: seq<int>, now: int)
    ensures |Prune(marks, now)| == CountRecent(marks, now)
    ensures forall ts :: ts in Prune(marks, now) <==> ts in marks && Recent(now, ts)
    decreases |marks|
  {
    if marks != [] {
      PruneKeepsRecent(marks[1..], now);
      assert marks == [marks[0]] + marks[1..];
    }
  }

  /** A later clock never sees more recent marks. */
  lemma {:induction false} CountRecentAntitone(marks: seq<int>, now1: int, now2: int)
    requires now1 <= now2
    ensures CountRecent(marks, now2) <= CountRecent(marks, now1)
    decreases |marks|
  {
    if marks != [] {
      CountRecentAntitone(marks[1..], now1, now2);
    }
  }

  /** Clocks that agree on which marks are recent give the same count. */
  lemma {:induction false} CountRecentSameWindow(marks: seq<int>, now1: int, now2: int)
    requires forall ts :: ts in marks ==> (Recent(now1, ts) <==> Recent(now2, ts))
    ensures CountRecent(marks, now1) == CountRecent(marks, now2)
    decreases |marks|
  {
    if marks != [] {
      CountRecentSameWindow(marks[1..], now1, now2);
    }
  }

  // ---------------------------------------------------------------------
  // The allocator (`get_available_deployment`)

  /** The endpoint has fewer than 3 marks younger than 60 s. */
  predicate Free(t: Table, zone: string, d: Deployment, now: int) {
    CountRecent(Usage(t, zone, d.name), now) < Quota
  }

  /** The scan of one region's deployments. */
  function PickIn(t: Table, zone: string, ds: seq<Deployment>, now: int): Option<Deployment>
    decreases |ds|
  {
    if ds == [] then None
    else if Free(t, zone, ds[0], now) then Some(ds[0])
    else PickIn(t, zone, ds[1..], now)
  }

  /** The scan of the whole topology, regions in order: what `get_available_deployment`
      returns, `{}` being `None`. */
  function Pick(t: Table, topo: Topology, now: int): Option<Deployment>
    decreases |topo|
  {
    if topo == [] then None
    else match PickIn(t, topo[0].zone, topo[0].deployments, now)
      case Some(d) => Some(d)
      case None => Pick(t, topo[1..], now)
  }

  /** Every endpoint of the topology is saturated. */
  ghost predicate AllSaturated(t: Table, topo: Topology, now: int) {
    forall i, j :: 0 <= i < |topo| && 0 <= j < |topo[i].deployments| ==>
      !Free(t, topo[i].zone, topo[i].deployments[j], now)
  }

  /** Endpoint `j` of region `i` is free and every endpoint before it, in
      declared order, is saturated. */
  ghost predicate FirstFreeAt(t: Table, topo: Topology, now: int, i: int, j: int) {
    && 0 <= i < |topo| && 0 <= j < |topo[i].deployments|
    && Free(t, topo[i].zone, topo[i].deployments[j], now)
    && (forall k :: 0 <= k < j ==> !Free(t, topo[i].zone, topo[i].deployments[k], now))
    && (forall p, k :: 0 <= p < i && 0 <= k < |topo[p].deployments| ==> !Free(t, topo[p].zone, topo[p].deployments[k], now))
  }

  lemma {:induction false} PickInFirstFree(t: Table, zone: string, ds: seq<Deployment>, now: int)
    ensures PickIn(t, zone, ds, now).None? <==> forall k :: 0 <= k < |ds| ==> !Free(t, zone, ds[k], now)
    ensures PickIn(t, zone, ds, now).Some? ==>
      exists j :: 0 <= j < |ds| && PickIn(t, zone, ds, now).value == ds[j] && Free(t, zone, ds[j], now)
        && forall k :: 0 <= k < j ==> !Free(t, zone, ds[k], now)
    decreases |ds|
  {
    if ds != [] && !Free(t, zone, ds[0], now) {
      PickInFirstFree(t, zone, ds[1..], now);
      if PickIn(t, zone, ds, now).Some? {
        var j :| 0 <= j < |ds[1..]| && PickIn(t, zone, ds, now).value == ds[1..][j] && Free(t, zone, ds[1..][j], now)
          && forall k :: 0 <= k < j ==> !Free(t, zone, ds[1..][k], now);
        assert forall k :: 0 <= k < j + 1 ==> !Free(t, zone, ds[k], now) by {
          forall k | 0 <= k < j + 1 ensures !Free(t, zone, ds[k], now) {
            if k > 0 { assert ds[k] == ds[1..][k - 1]; }
          }
        }
        assert ds[j + 1] == ds[1..][j];
      } else {
        forall k | 0 <= k < |ds| ensures !Free(t, zone, ds[k], now) {
          if k > 0 { assert ds[k] == ds[1..][k - 1]; }
        }
      }
    } else if ds != [] {
      assert PickIn(t, zone, ds, now).value == ds[0];
    }
  }

  /** With the first region saturated, the whole topology is saturated
      exactly when the rest is. */
  lemma SaturatedShift(t: Table, topo: Topology, now: int)
    requires topo != []
    requires forall k :: 0 <= k < |topo[0].deployments| ==> !Free(t, topo[0].zone, topo[0].deployments[k], now)
    ensures AllSaturated(t, topo, now) <==> AllSaturated(t, topo[1..], now)
  {
    if AllSaturated(t, topo[1..], now) {
      forall p, k | 0 <= p < |topo| && 0 <= k < |topo[p].deployments|
        ensures !Free(t, topo[p].zone, topo[p].deployments[k], now)
      {
        if p > 0 { assert topo[p] == topo[1..][p - 1]; }
      }
    }
    if AllSaturated(t, topo, now) {
      forall p, k | 0 <= p < |topo[1..]| && 0 <= k < |topo[1..][p].deployments|
        ensures !Free(t, topo[1..][p].zone, topo[1..][p].deployments[k], now)
      {
        assert topo[1..][p] == topo[p + 1];
      }
    }
  }

  /** With the first region saturated, the first free endpoint of the rest is
      the first free endpoint of the whole topology. */
  lemma FirstFreeShift(t: Table, topo: Topology, now: int, i: int, j: int)
    requires topo != []
    requires forall k :: 0 <= k < |topo[0].deployments| ==> !Free(t, topo[0].zone, topo[0].deployments[k], now)
    requires FirstFreeAt(t, topo[1..], now, i, j)
    ensures FirstFreeAt(t, topo, now, i + 1, j) && topo[i + 1] == topo[1..][i]
  {
    assert topo[i + 1] == topo[1..][i];
    forall p, k | 0 <= p < i + 1 && 0 <= k < |topo[p].deployments|
      ensures !Free(t, topo[p].zone, topo[p].deployments[k], now)
    {
      if p > 0 { assert topo[p] == topo[1..][p - 1]; }
    }
  }

  /** `get_available_deployment` returns `{}` exactly when every endpoint is
      saturated, and otherwise the first free endpoint in declared order. */
  lemma {:induction false} PickIsFirstFree(t: Table, topo: Topology, now: int)
    ensures Pick(t, topo, now).None? <==> AllSaturated(t, topo, now)
    ensures Pick(t, topo, now).Some? ==>
      exists i, j :: FirstFreeAt(t, topo, now, i, j) && Pick(t, topo, now).value == topo[i].deployments[j]
    decreases |topo|
  {
    if topo != [] {
      var r0 := topo[0];
      PickInFirstFree(t, r0.zone, r0.deployments, now);
      match PickIn(t, r0.zone, r0.deployments, now)
      case Some(d) =>
        var j :| 0 <= j < |r0.deployments| && d == r0.deployments[j] && Free(t, r0.zone, r0.deployments[j], now)
          && forall k :: 0 <= k < j ==> !Free(t, r0.zone, r0.deployments[k], now);
        assert FirstFreeAt(t, topo, now, 0, j);
      case None =>
        PickIsFirstFree(t, topo[1..], now);
        SaturatedShift(t, topo, now);
        if Pick(t, topo, now).Some? {
          var i, j :| FirstFreeAt(t, topo[1..], now, i, j) && Pick(t, topo, now).value == topo[1..][i].deployments[j];
          FirstFreeShift(t, topo, now, i, j);
        }
    }
  }

  /** An endpoint the table does not list counts zero usage, so the scan never
      comes back empty while the topology holds one. */
  lemma UnlistedIsSelectable(t: Table, topo: Topology, now: int, i: int, j: int)
    requires 0 <= i < |topo| && 0 <= j < |topo[i].deployments|
    requires !Listed(t, topo[i].zone, topo[i].deployments[j].name)
    ensures Free(t, topo[i].zone, topo[i].deployments[j], now)
    ensures Pick(t, topo, now).Some?
  {
    UnlistedHasNoUsage(t, topo[i].zone, topo[i].deployments[j].name);
    PickIsFirstFree(t, topo, now);
  }

  /** Usage lists agree on which marks are recent at `now1` and at `now2`:
      no mark ages out of the window between the two clock readings. */
  ghost predicate NoMarkAgesOut(t: Table, now1: int, now2: int) {
    forall zone, name, ts :: ts in Usage(t, zone, name) ==> (Recent(now1, ts) <==> Recent(now2, ts))
  }

  /** The two picks of one allocation read the same, not yet updated, table;
      they return the same endpoint unless a mark ages out between the two
      clock readings. */
  lemma {:induction false} PicksCoincide(t: Table, topo: Topology, now1: int, now2: int)
    requires NoMarkAgesOut(t, now1, now2)
    ensures Pick(t, topo, now1) == Pick(t, topo, now2)
    decreases |topo|
  {
    if topo != [] {
      PickInCoincide(t, topo[0].zone, topo[0].deployments, now1, now2);
      PicksCoincide(t, topo[1..], now1, now2);
    }
  }

  lemma {:induction false} PickInCoincide(t: Table, zone: string, ds: seq<Deployment>, now1: int, now2: int)
    requires NoMarkAgesOut(t, now1, now2)
    ensures PickIn(t, zone, ds, now1) == PickIn(t, zone, ds, now2)
    decreases |ds|
  {
    if ds != [] {
      CountRecentSameWindow(Usage(t, zone, ds[0].name), now1, now2);
      PickInCoincide(t, zone, ds[1..], now1, now2);
    }
  }

  /** With a clock that has moved forward, an endpoint free before is still
      free, so a second pick can only succeed where the first did. */
  lemma PickStaysAvailable(t: Table, topo: Topology, now1: int, now2: int)
    requires now1 <= now2
    requires Pick(t, topo, now1).Some?
    ensures Pick(t, topo, now2).Some?
  {
    PickIsFirstFree(t, topo, now1);
    var i, j :| FirstFreeAt(t, topo, now1, i, j) && Pick(t, topo, now1).value == topo[i].deployments[j];
    CountRecentAntitone(Usage(t, topo[i].zone, topo[i].deployments[j].name), now1, now2);
    PickIsFirstFree(t, topo, now2);
  }

  // ---------------------------------------------------------------------
  // Recording a selection (`update_timestamps`)

  /** The selection names this deployment. Indexing `{}` raises instead, see UpdateTimestamps. */
  predicate Names(sel: Option<Deployment>, name: string) {
    sel.Some? && sel.value.name == name
  }

  /** One slot after a completed update: pruned, then one mark per selection naming it. */
  function SlotStep(s: Slot, now: int, sel1: Option<Deployment>, sel2: Option<Deployment>): Slot {
    Slot(s.name, Prune(s.marks, now) + (if Names(sel1, s.name) then [now] else []) + (if Names(sel2, s.name) then [now] else []))
  }

  function ZoneStep(z: ZoneUsage, now: int, sel1: Option<Deployment>, sel2: Option<Deployment>): ZoneUsage {
    z.(slots := seq(|z.slots|, j requires 0 <= j < |z.slots| => SlotStep(z.slots[j], now, sel1, sel2)))
  }

  /** The table after `update_timestamps` ran to completion. */
  function Updated(t: Table, now: int, sel1: Option<Deployment>, sel2: Option<Deployment>): Table {
    seq(|t|, i requires 0 <= i < |t| => ZoneStep(t[i], now, sel1, sel2))
  }

  /** The first slot as `update_timestamps` leaves it when the `KeyError` is
      raised there: pruned and, when only the second selection is `{}`, marked
      for the first one. */
  function Interrupted(s: Slot, now: int, sel1: Option<Deployment>): Slot {
    Slot(s.name, Prune(s.marks, now) + (if Names(sel1, s.name) then [now] else []))
  }

  /** The table when `update_timestamps` raised: only the first slot changed. */
  function TouchFirst(t: Table, now: int, sel1: Option<Deployment>): Table
    requires HasSlot(t)
  {
    var k := FirstFilledZone(t);
    t[k := t[k].(slots := t[k].slots[0 := Interrupted(t[k].slots[0], now, sel1)])]
  }

  /** Neither outcome of `update_timestamps` changes the layout of the table. */
  lemma UpdateKeepsShape(t: Table, now: int, sel1: Option<Deployment>, sel2: Option<Deployment>)
    ensures SameShape(Updated(t, now, sel1, sel2), t)
    ensures HasSlot(t) ==> SameShape(TouchFirst(t, now, sel1), t)
  {
    var u := Updated(t, now, sel1, sel2);
    forall i | 0 <= i < |t|
      ensures Shape(u)[i] == Shape(t)[i]
    {
      assert SlotNames(u[i].slots) == SlotNames(t[i].slots);
    }
    if HasSlot(t) {
      var k := FirstFilledZone(t);
      var z := t[k].(slots := t[k].slots[0 := Interrupted(t[k].slots[0], now, sel1)]);
      assert SlotNames(z.slots) == SlotNames(t[k].slots);
      ShapeAfterZone(t, k, z);
    }
  }

  /** After a completed update every list holds only marks younger than 60 s,
      and each list holds its recent marks plus one new mark per selection
      that names it: other endpoints are only pruned, and an endpoint chosen
      twice gains two marks. The layout of the table does not change. */
  lemma UpdatedWindow(t: Table, now: int, sel1: Option<Deployment>, sel2: Option<Deployment>, i: int, j: int)
    requires 0 <= i < |t| && 0 <= j < |t[i].slots|
    ensures SameShape(Updated(t, now, sel1, sel2), t)
    ensures forall ts :: ts in Updated(t, now, sel1, sel2)[i].slots[j].marks ==> Recent(now, ts)
    ensures |Updated(t, now, sel1, sel2)[i].slots[j].marks| ==
      CountRecent(t[i].slots[j].marks, now) + (if Names(sel1, t[i].slots[j].name) then 1 else 0)
        + (if Names(sel2, t[i].slots[j].name) then 1 else 0)
  {
    PruneKeepsRecent(t[i].slots[j].marks, now);
    UpdateKeepsShape(t, now, sel1, sel2);
  }

  // ---------------------------------------------------------------------
  // The registry of preview IDs (`preview_ids`)

  /** `preview_ids` after a message for `id`: unchanged for an ID already
      present, otherwise the ID appended and, once the list exceeds 50
      entries, its first 30 dropped. */
  function Registered(ids: seq<string>, id: string): seq<string> {
    if id in ids then ids
    else
      var grown := ids + [id];
      if |grown| > GateLimit then grown[GateDrop..] else grown
  }

  /** The registry stays within 50 entries, always holds the ID just seen,
      and what it keeps are the newest entries. */
  lemma AdmitBounded(ids: seq<string>, id: string)
    requires |ids| <= GateLimit
    ensures |Registered(ids, id)| <= GateLimit
    ensures id in Registered(ids, id)
    ensures id !in ids ==> exists k :: 0 <= k <= |ids| && Registered(ids, id) == (ids + [id])[k..]
  {
    if id !in ids {
      var grown := ids + [id];
      assert grown[|grown| - 1] == id;
      if |grown| > GateLimit {
        assert grown[GateDrop..][|grown| - 1 - GateDrop] == id;
      } else {
        assert grown == grown[0..];
      }
    }
  }

  /** How many of `n` consecutive deliveries of `id` are admitted. */
  function AdmittedOf(ids: seq<string>, id: string, n: nat): nat
    decreases n
  {
    if n == 0 then 0 else (if id in ids then 0 else 1) + AdmittedOf(Registered(ids, id), id, n - 1)
  }

  /** A burst of duplicate deliveries is admitted once, or never when the ID
      is already registered. */
  lemma {:induction false} BurstAdmittedOnce(ids: seq<string>, id: string, n: nat)
    requires n >= 1
    ensures AdmittedOf(ids, id, n) == if id in ids then 0 else 1
    decreases n
  {
    var next := Registered(ids, id);
    assert id in next by {
      if id !in ids {
        var grown := ids + [id];
        assert grown[|grown| - 1] == id;
        if |grown| > GateLimit {
          assert grown[GateDrop..][|grown| - 1 - GateDrop] == id;
        }
      }
    }
    if n > 1 {
      BurstAdmittedOnce(next, id, n - 1);
    }
  }

  class PreviewIds {
    var ids: seq<string>

    constructor ()
      ensures ids == []
    {
      ids := [];
    }

    /** The membership test, append and slice of `process_message`. */
    method Admit(id: string) returns (admitted: bool)
      modifies this
      ensures admitted <==> id !in old(ids)
      ensures ids == Registered(old(ids), id)
    {
      if id in ids {
        return false;
      }
      ids := ids + [id];
      if |ids| > GateLimit {
        ids := ids[GateDrop..];
      }
      return true;
    }
  }

  // ---------------------------------------------------------------------
  // The table object

  class RateLimits {
    var table: Table

    /** The table keeps the declared regions and deployment names. */
    ghost predicate Valid()
      reads this
    {
      SameShape(table, InitialTable())
    }

    constructor ()
      ensures Valid() && table == InitialTable()
    {
      table := InitialTable();
    }

    /** `get_available_deployment(deployments)` at clock `now`. */
    method GetAvailableDeployment(deployments: Topology, now: int) returns (r: Option<Deployment>)
      ensures r == Pick(table, deployments, now)
    {
      var i := 0;
      while i < |deployments|
        invariant 0 <= i <= |deployments|
        invariant Pick(table, deployments, now) == Pick(table, deployments[i..], now)
      {
        var zone, ds := deployments[i].zone, deployments[i].deployments;
        assert deployments[i..][0] == deployments[i] && deployments[i..][1..] == deployments[i + 1..];
        var j := 0;
        while j < |ds|
          invariant 0 <= j <= |ds|
          invariant PickIn(table, zone, ds, now) == PickIn(table, zone, ds[j..], now)
        {
          var timestamps := Usage(table, zone, ds[j].name);
          var recentCount := CountRecent(timestamps, now);
          assert ds[j..][0] == ds[j] && ds[j..][1..] == ds[j + 1..];
          if recentCount < Quota {
            return Some(ds[j]);
          }
          j := j + 1;
        }
        i := i + 1;
      }
      return None;
    }

    /** The inner loop of `update_timestamps` over one region `i`: each list
        is pruned and marked; on a `{}` selection the first list is left
        pruned and the `KeyError` raised. */
    method UpdateZone(i: int, sel1: Option<Deployment>, sel2: Option<Deployment>, now: int) returns (r: Result<()>)
      requires 0 <= i < |table|
      modifies this
      ensures r.Raised? <==> (sel1.None? || sel2.None?) && old(table)[i].slots != []
      ensures r.Raised? ==>
        && r.error == KeyError("deployment-name")
        && table == old(table)[i := old(table)[i].(slots := old(table)[i].slots[0 := Interrupted(old(table)[i].slots[0], now, sel1)])]
      ensures r.Ok? ==> table == old(table)[i := ZoneStep(old(table)[i], now, sel1, sel2)]
    {
      var z := table[i];
      var slots := z.slots;
      var j := 0;
      while j < |slots|
        invariant 0 <= j <= |slots| == |z.slots|
        invariant forall l :: 0 <= l < j ==> slots[l] == SlotStep(z.slots[l], now, sel1, sel2)
        invariant forall l :: j <= l < |slots| ==> slots[l] == z.slots[l]
        invariant sel1.None? || sel2.None? ==> j == 0 && slots == z.slots
        invariant table == old(table)
      {
        var slot := slots[j];
        var marks := Prune(slot.marks, now);
        if sel1.None? {
          assert Slot(slot.name, marks) == Interrupted(z.slots[0], now, sel1);
          table := table[i := z.(slots := slots[j := Slot(slot.name, marks)])];
          return Raised(KeyError("deployment-name"));
        }
        if slot.name == sel1.value.name {
          marks := marks + [now];
        }
        if sel2.None? {
          assert Slot(slot.name, marks) == Interrupted(z.slots[0], now, sel1);
          table := table[i := z.(slots := slots[j := Slot(slot.name, marks)])];
          return Raised(KeyError("deployment-name"));
        }
        if slot.name == sel2.value.name {
          marks := marks + [now];
        }
        slots := slots[j := Slot(slot.name, marks)];
        j := j + 1;
      }
      assert slots == ZoneStep(z, now, sel1, sel2).slots;
      table := table[i := z.(slots := slots)];
      return Ok(());
    }

    /** `update_timestamps(sel1, sel2)` at clock `now`. Each list is rebuilt
        to its recent marks and then marked for each selection that names it.
        `deploymenter["deployment-name"]` on a `{}` selection raises `KeyError`
        at the very first list, after that list has been pruned. */
    method UpdateTimestamps(sel1: Option<Deployment>, sel2: Option<Deployment>, now: int) returns (r: Result<()>)
      modifies this
      ensures SameShape(table, old(table))
      ensures r.Raised? <==> (sel1.None? || sel2.None?) && HasSlot(old(table))
      ensures r.Raised? ==> r.error == KeyError("deployment-name") && table == TouchFirst(old(table), now, sel1)
      ensures r.Ok? ==> table == Updated(old(table), now, sel1, sel2)
    {
      var i := 0;
      while i < |table|
        invariant 0 <= i <= |table| == |old(table)|
        invariant forall k :: 0 <= k < i ==> table[k] == ZoneStep(old(table)[k], now, sel1, sel2)
        invariant forall k :: i <= k < |table| ==> table[k] == old(table)[k]
        invariant sel1.None? || sel2.None? ==> table == old(table) && forall k :: 0 <= k < i ==> old(table)[k].slots == []
      {
        r := UpdateZone(i, sel1, sel2, now);
        if r.Ok? && (sel1.None? || sel2.None?) {
          assert ZoneStep(old(table)[i], now, sel1, sel2) == old(table)[i];
        }
        if r.Raised? {
          assert FirstFilledZone(old(table)) == i;
          UpdateKeepsShape(old(table), now, sel1, sel2);
          return;
        }
        i := i + 1;
      }
      assert table == Updated(old(table), now, sel1, sel2);
      UpdateKeepsShape(old(table), now, sel1, sel2);
      return Ok(());
    }
  }

  // ---------------------------------------------------------------------
  // The message handler (`process_message`) and the worker rule

  /** The decoded body of an intake message; `data` is absent when the JSON has no such key. */
  datatype Intake = Intake(data: Option<string>)

  /** The message published to the second queue. */
  datatype Enriched = Enriched(data: string, deployment1: Deployment, deployment2: Deployment)

  /** The readings of `datetime.now()` in one call of `process_message`: the
      two picks, the update, and the `request_time` text written to the record. */
  datatype Clock = Clock(pick1: int, pick2: int, update: int, requestTime: string)

  /** How `process_message` ended: returned early on a duplicate, returned
      after publishing, or raised. */
  datatype Outcome = Dropped | Dispatched(sent: Enriched) | Failed(error: Error)

  /** The queue sender; `ok` stands for whether the network send succeeds. */
  class Sender {
    var sent: seq<Enriched>

    constructor ()
      ensures sent == []
    {
      sent := [];
    }

    method Send(m: Enriched, ok: bool) returns (r: Result<()>)
      modifies this
      ensures ok ==> r == Ok(()) && sent == old(sent) + [m]
      ensures !ok ==> r == Raised(SendFailed) && sent == old(sent)
    {
      if ok {
        sent := sent + [m];
        r := Ok(());
      } else {
        r := Raised(SendFailed);
      }
    }
  }

  /** The record change of handle_rate's `modify_start_time`. */
  function WithRequestTime(fields: DocStore.Fields, time: string): DocStore.Fields {
    fields["request_time" := DocStore.Str(time)]
  }

  /** `process_message(msg)`. A duplicate ID returns at once. Otherwise the ID
      is registered, two endpoints are picked against the same table and
      recorded, the enriched job is published and only then is `request_time`
      written to the record. A `{}` pick raises from `update_timestamps`, so
      the `while True` loop runs its body once. */
  method ProcessMessage(limits: RateLimits, gate: PreviewIds, store: DocStore.Container, sender: Sender,
                        msg: Intake, deployments: Topology, clock: Clock, sendOk: bool)
      returns (outcome: Outcome)
    requires limits.Valid() && store.Valid()
    modifies limits, gate, store, sender
    ensures limits.Valid() && store.Valid()
    ensures msg.data.None? ==>
      outcome == Failed(KeyError("data")) && limits.table == old(limits.table) && gate.ids == old(gate.ids)
      && store.docs == old(store.docs) && sender.sent == old(sender.sent)
    ensures msg.data.Some? && msg.data.value in old(gate.ids) ==>
      outcome == Dropped && limits.table == old(limits.table) && gate.ids == old(gate.ids)
      && store.docs == old(store.docs) && sender.sent == old(sender.sent)
    ensures msg.data.Some? && msg.data.value !in old(gate.ids) ==>
      var id := msg.data.value;
      var d1 := Pick(old(limits.table), deployments, clock.pick1);
      var d2 := Pick(old(limits.table), deployments, clock.pick2);
      && gate.ids == Registered(old(gate.ids), id)
      && (d1.None? || d2.None? ==>
            && outcome == Failed(KeyError("deployment-name"))
            && HasSlot(old(limits.table))
            && limits.table == TouchFirst(old(limits.table), clock.update, d1)
            && store.docs == old(store.docs) && sender.sent == old(sender.sent))
      && (d1.Some? && d2.Some? ==>
            && limits.table == Updated(old(limits.table), clock.update, d1, d2)
            && (!sendOk ==> outcome == Failed(SendFailed) && store.docs == old(store.docs) && sender.sent == old(sender.sent))
            && (sendOk ==>
                  && sender.sent == old(sender.sent) + [Enriched(id, d1.value, d2.value)]
                  && (id !in old(store.docs) ==> outcome == Failed(IndexError) && store.docs == old(store.docs))
                  && (id in old(store.docs) ==>
                        && outcome == Dispatched(Enriched(id, d1.value, d2.value))
                        && store.docs == old(store.docs)[id := DocStore.Doc(
                             WithRequestTime(old(store.docs)[id].fields, clock.requestTime), old(store.nextToken))])))
  {
    if msg.data.None? {
      return Failed(KeyError("data"));
    }
    var id := msg.data.value;
    var admitted := gate.Admit(id);
    if !admitted {
      return Dropped;
    }
    LaidOutHasSlot(limits.table);
    // The body of the source's `while True` loop: it either raises from
    // `update_timestamps` or reaches `break`, so it never runs twice.
    var d1 := limits.GetAvailableDeployment(deployments, clock.pick1);
    var d2 := limits.GetAvailableDeployment(deployments, clock.pick2);
    var recorded := limits.UpdateTimestamps(d1, d2, clock.update);
    if recorded.Raised? {
      return Failed(recorded.error);
    }
    var job := Enriched(id, d1.value, d2.value);
    var published := sender.Send(job, sendOk);
    if published.Raised? {
      return Failed(published.error);
    }
    var written := store.Update(id, fields => WithRequestTime(fields, clock.requestTime));
    if written.Raised? {
      return Failed(written.error);
    }
    return Dispatched(job);
  }

  /** What the worker does with the message once `process_message` is over. */
  datatype Settlement = Complete | Abandon

  /** `complete_message` when `process_message` returns, `abandon_message` when it raises. */
  function Settle(o: Outcome): (s: Settlement)
    ensures s == Abandon <==> o.Failed?
  {
    if o.Failed? then Abandon else Complete
  }

  /** The gate keeps every ID it has admitted, however long its list grows. */
  lemma RegisteredHoldsId(ids: seq<string>, id: string)
    ensures id in Registered(ids, id)
  {
    if id !in ids {
      var grown := ids + [id];
      assert grown[|grown| - 1] == id;
      if |grown| > GateLimit {
        assert grown[GateDrop..][|grown| - 1 - GateDrop] == id;
      }
    }
  }

  /** One turn of the worker loop on a message whose first delivery it
      abandons: the queue hands the same message over again, `first` and
      `second` being the two deliveries' clocks and send results. Because the
      ID was registered before the attempt failed, the redelivery is dropped
      and completed, so a job whose pick or send failed is never published. */
  method DeliverTwice(limits: RateLimits, gate: PreviewIds, store: DocStore.Container, sender: Sender,
                      msg: Intake, deployments: Topology, first: Clock, second: Clock, sendOk1: bool, sendOk2: bool)
      returns (o1: Outcome, o2: Option<Outcome>)
    requires limits.Valid() && store.Valid()
    modifies limits, gate, store, sender
    ensures limits.Valid() && store.Valid()
    ensures Settle(o1) == Complete <==> o2.None?
    ensures msg.data.Some? && msg.data.value !in old(gate.ids) && o1.Failed? ==>
      && o2 == Some(Dropped) && Settle(o2.value) == Complete
      && msg.data.value in gate.ids
      && store.docs == old(store.docs)
      && (o1.error != IndexError ==> sender.sent == old(sender.sent))
      && (o1.error == IndexError ==> |sender.sent| == |old(sender.sent)| + 1)
  {
    o1 := ProcessMessage(limits, gate, store, sender, msg, deployments, first, sendOk1);
    if Settle(o1) == Complete {
      return o1, None;
    }
    if msg.data.Some? {
      RegisteredHoldsId(old(gate.ids), msg.data.value);
    }
    var again := ProcessMessage(limits, gate, store, sender, msg, deployments, second, sendOk2);
    return o1, Some(again);
  }
}
