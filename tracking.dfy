/** The entity-tracking logic that world_state.py and state_manager.py share: the
    InstanceObject record, greedy first-match association, spawning, culling,
    new-instance counting, interaction detection and the confirmed-object summary.
    Both tracker classes store their known objects as a `seq<InstanceObject>` and run
    these definitions over it; they differ only in their staleness window and in what
    they do with the counts and interactions. */
module Tracking {
  import opened Geometry

  datatype Option<T> = None | Some(value: T)

  /** `_new_object_observation_threshold` in both trackers. */
  const ConfirmationThreshold: int := 5
  /** The fast-prune window written as the literal 10 in `_should_cull_object`. */
  const FastPruneWindow: int := 10
  /** The default of the constructors' `movement_theshold_px`. */
  const DefaultMovementThreshold: int := 30
  /** The defaults of start_tracking_object_interactions. */
  const DefaultIntersectionThreshold: real := 0.5
  const DefaultVerb: string := "interacting with"

  /** A tracked entity. The source mutates these records in place inside the list; here
      the list holds values and a mutation replaces the element. */
  datatype InstanceObject = InstanceObject(objectType: string, bbox: BoundingBox, observationCount: int, lastSeen: int)

  /** One (label, box) pair as the association loop visits it. */
  datatype Detection = Detection(objectType: string, bbox: BoundingBox)

  /** The detector's per-frame dict label -> boxes, as its items in iteration order. */
  type Detections = seq<(string, seq<BoundingBox>)>

  /** A rule registered by start_tracking_object_interactions. */
  datatype InteractionRule = InteractionRule(objectA: string, objectB: string, threshold: real, verb: string)

  /** An `(object_a, object_b, verb)` tuple. */
  datatype Interaction = Interaction(objectA: string, objectB: string, verb: string)

  /** The dict returned by world_state.py's update: its "interactions" list and its
      "new_instances" dict, the latter as its items in insertion order. */
  datatype StateDelta = StateDelta(interactions: seq<Interaction>, newInstances: seq<(string, int)>)

  predicate NoDup<T(==)>(s: seq<T>) {
    forall i, j :: 0 <= i < j < |s| ==> s[i] != s[j]
  }

  // ---------------------------------------------------------------------------
  // Association (_update_existing_objects_and_identify_new_ones)

  /** Same label, and centroids strictly closer than the movement threshold. */
  predicate Matches(o: InstanceObject, d: Detection, threshold: int) {
    o.objectType == d.objectType && Near(o.bbox, d.bbox, threshold)
  }

  /** The position of the first known object that the detection matches. */
  function FirstMatch(objs: seq<InstanceObject>, d: Detection, threshold: int): (r: Option<nat>)
    ensures r.Some? ==> r.value < |objs| && Matches(objs[r.value], d, threshold)
    ensures r.Some? ==> forall i :: 0 <= i < r.value ==> !Matches(objs[i], d, threshold)
    ensures r.None? ==> forall i :: 0 <= i < |objs| ==> !Matches(objs[i], d, threshold)
  {
    if objs == [] then None
    else if Matches(objs[0], d, threshold) then Some(0)
    else match FirstMatch(objs[1..], d, threshold)
      case None => None
      case Some(k) => Some(k + 1)
  }

  /** A re-associated object: new box, one more observation, seen now. */
  function Refresh(o: InstanceObject, bbox: BoundingBox, currentTime: int): (r: InstanceObject)
    ensures r.objectType == o.objectType && r.bbox == bbox
    ensures r.observationCount == o.observationCount + 1 && r.lastSeen == currentTime
  {
    o.(bbox := bbox, observationCount := o.observationCount + 1, lastSeen := currentTime)
  }

  /** One detection: refresh its first match, or queue it as a new object. */
  function AssociateOne(objs: seq<InstanceObject>, d: Detection, currentTime: int, threshold: int)
    : (r: (seq<InstanceObject>, seq<Detection>))
    ensures |r.0| == |objs| && |r.1| <= 1
    ensures r.1 == [] <==> exists j :: 0 <= j < |objs| && Matches(objs[j], d, threshold)
    ensures r.1 != [] ==> r.1 == [d] && r.0 == objs
  {
    match FirstMatch(objs, d, threshold)
    case Some(j) => (objs[j := Refresh(objs[j], d.bbox, currentTime)], [])
    case None => (objs, [d])
  }

  /** All detections in order: the updated objects and the unmatched detections. */
  function AssociateAll(objs: seq<InstanceObject>, dets: seq<Detection>, currentTime: int, threshold: int)
    : (r: (seq<InstanceObject>, seq<Detection>))
    ensures |r.0| == |objs| && |r.1| <= |dets|
    ensures forall x :: x in r.1 ==> x in dets
  {
    if dets == [] then (objs, [])
    else
      var prev := AssociateAll(objs, dets[..|dets| - 1], currentTime, threshold);
      var step := AssociateOne(prev.0, dets[|dets| - 1], currentTime, threshold);
      (step.0, prev.1 + step.1)
  }

  function Tag(objectType: string, boxes: seq<BoundingBox>): (r: seq<Detection>)
    ensures |r| == |boxes|
  {
    seq(|boxes|, i requires 0 <= i < |boxes| => Detection(objectType, boxes[i]))
  }

  /** The detections in the order the nested loops visit them. */
  function Flatten(detections: Detections): seq<Detection> {
    if detections == [] then []
    else
      var last := detections[|detections| - 1];
      Flatten(detections[..|detections| - 1]) + Tag(last.0, last.1)
  }

  /** The association loop: for every label and every box, scan the known objects in
      order and refresh the first match, or else queue the detection. */
  method AssociateDetections(known: seq<InstanceObject>, detections: Detections, currentTime: int, threshold: int)
    returns (updated: seq<InstanceObject>, newObjects: seq<Detection>)
    ensures (updated, newObjects) == AssociateAll(known, Flatten(detections), currentTime, threshold)
  {
    updated, newObjects := known, [];
    for g := 0 to |detections|
      invariant (updated, newObjects) == AssociateAll(known, Flatten(detections[..g]), currentTime, threshold)
    {
      var (objectType, boundingBoxes) := detections[g];
      ghost var done := Flatten(detections[..g]);
      assert done + Tag(objectType, boundingBoxes[..0]) == done;
      for k := 0 to |boundingBoxes|
        invariant (updated, newObjects) == AssociateAll(known, done + Tag(objectType, boundingBoxes[..k]), currentTime, threshold)
      {
        var d := Detection(objectType, boundingBoxes[k]);
        ghost var xs := done + Tag(objectType, boundingBoxes[..k]);
        ghost var before, queued := updated, newObjects;
        var alreadyKnown := false;
        var i := 0;
        while i < |updated|
          invariant 0 <= i <= |updated| && updated == before && !alreadyKnown
          invariant forall j :: 0 <= j < i ==> !Matches(updated[j], d, threshold)
        {
          if objectType == updated[i].objectType {
            if Near(updated[i].bbox, boundingBoxes[k], threshold) {
              updated := updated[i := Refresh(updated[i], boundingBoxes[k], currentTime)];
              alreadyKnown := true;
              break;
            }
          }
          i := i + 1;
        }
        if !alreadyKnown {
          newObjects := newObjects + [d];
        }
        ghost var step := AssociateOne(before, d, currentTime, threshold);
        if alreadyKnown {
          assert FirstMatch(before, d, threshold) == Some(i);
          assert step == (updated, []);
        } else {
          assert FirstMatch(before, d, threshold) == None;
          assert step == (updated, [d]);
        }
        assert updated == step.0;
        assert newObjects == queued + step.1;
        TagPrefix(done, objectType, boundingBoxes, k);
        AssociateAllSnoc(known, xs, d, currentTime, threshold);
      }
      TagPrefix(done, objectType, boundingBoxes, |boundingBoxes|);
      FlattenPrefix(detections, g);
    }
    FlattenPrefix(detections, |detections|);
  }

  lemma TagPrefix(done: seq<Detection>, objectType: string, boxes: seq<BoundingBox>, k: nat)
    requires k <= |boxes|
    ensures k < |boxes| ==> done + Tag(objectType, boxes[..k + 1]) == (done + Tag(objectType, boxes[..k])) + [Detection(objectType, boxes[k])]
    ensures k == |boxes| ==> done + Tag(objectType, boxes[..k]) == done + Tag(objectType, boxes)
  {
    if k == |boxes| {
      assert boxes[..k] == boxes;
    }
  }

  lemma FlattenPrefix(detections: Detections, g: nat)
    requires g <= |detections|
    ensures g < |detections| ==> Flatten(detections[..g + 1]) == Flatten(detections[..g]) + Tag(detections[g].0, detections[g].1)
    ensures g == |detections| ==> Flatten(detections[..g]) == Flatten(detections)
  {
    if g < |detections| {
      assert detections[..g + 1][..g] == detections[..g];
    } else {
      assert detections[..g] == detections;
    }
  }

  lemma AssociateAllSnoc(objs: seq<InstanceObject>, dets: seq<Detection>, d: Detection, currentTime: int, threshold: int)
    ensures var prev := AssociateAll(objs, dets, currentTime, threshold);
            var step := AssociateOne(prev.0, d, currentTime, threshold);
            AssociateAll(objs, dets + [d], currentTime, threshold) == (step.0, prev.1 + step.1)
  {
    assert (dets + [d])[..|dets|] == dets;
  }

  // ---------------------------------------------------------------------------
  // Spawn (_add_new_objects)

  function Spawned(d: Detection, currentTime: int): InstanceObject {
    InstanceObject(d.objectType, d.bbox, 1, currentTime)
  }

  function Spawn(newObjects: seq<Detection>, currentTime: int): (r: seq<InstanceObject>)
    ensures |r| == |newObjects|
  {
    seq(|newObjects|, i requires 0 <= i < |newObjects| => Spawned(newObjects[i], currentTime))
  }

  /** Appends one new object per unmatched detection, in order. */
  method AddNewObjects(known: seq<InstanceObject>, newObjects: seq<Detection>, currentTime: int)
    returns (r: seq<InstanceObject>)
    ensures r == known + Spawn(newObjects, currentTime)
  {
    r := known;
    for i := 0 to |newObjects|
      invariant r == known + Spawn(newObjects[..i], currentTime)
    {
      r := r + [InstanceObject(newObjects[i].objectType, newObjects[i].bbox, 1, currentTime)];
      assert Spawn(newObjects[..i + 1], currentTime) == Spawn(newObjects[..i], currentTime) + [Spawned(newObjects[i], currentTime)];
    }
    assert newObjects[..|newObjects|] == newObjects;
  }

  // ---------------------------------------------------------------------------
  // Cull (_cull_old_objects, _should_cull_object)

  /** Stale, or never confirmed and not seen within the fast-prune window. */
  predicate ShouldCull(o: InstanceObject, currentTime: int, lastSeenThreshold: int): (r: bool)
    ensures lastSeenThreshold >= 0 && o.lastSeen >= currentTime ==> !r
    ensures o.observationCount >= ConfirmationThreshold ==> (r <==> o.lastSeen < currentTime - lastSeenThreshold)
    ensures o.observationCount < ConfirmationThreshold && FastPruneWindow <= lastSeenThreshold ==>
              (r <==> o.lastSeen < currentTime - FastPruneWindow)
  {
    o.lastSeen < currentTime - lastSeenThreshold
    || (o.observationCount < ConfirmationThreshold && o.lastSeen < currentTime - FastPruneWindow)
  }

  /** The order-preserving filter that keeps the objects not to be culled. */
  function Cull(objs: seq<InstanceObject>, currentTime: int, lastSeenThreshold: int): (r: seq<InstanceObject>)
    ensures |r| <= |objs|
    ensures forall o :: o in r ==> o in objs && !ShouldCull(o, currentTime, lastSeenThreshold)
  {
    if objs == [] then []
    else
      var prefix := Cull(objs[..|objs| - 1], currentTime, lastSeenThreshold);
      var last := objs[|objs| - 1];
      if ShouldCull(last, currentTime, lastSeenThreshold) then prefix else prefix + [last]
  }

  /** The whole object-list update of one frame: associate, spawn, cull. */
  function UpdateObjects(objs: seq<InstanceObject>, detections: Detections, currentTime: int, threshold: int,
                         lastSeenThreshold: int): (r: seq<InstanceObject>)
    ensures |r| <= |objs| + |Flatten(detections)|
    ensures forall o :: o in r ==> !ShouldCull(o, currentTime, lastSeenThreshold)
  {
    var associated := AssociateAll(objs, Flatten(detections), currentTime, threshold);
    Cull(associated.0 + Spawn(associated.1, currentTime), currentTime, lastSeenThreshold)
  }

  // ---------------------------------------------------------------------------
  // Counting

  /** Objects of the label whose observation count is exactly the threshold. */
  function CountGraduating(objs: seq<InstanceObject>, objectType: string): nat {
    if objs == [] then 0
    else
      var last := objs[|objs| - 1];
      CountGraduating(objs[..|objs| - 1], objectType)
      + (if last.objectType == objectType && last.observationCount == ConfirmationThreshold then 1 else 0)
  }

  /** Objects of the label whose observation count has reached the threshold. */
  function CountConfirmed(objs: seq<InstanceObject>, objectType: string): nat {
    if objs == [] then 0
    else
      var last := objs[|objs| - 1];
      CountConfirmed(objs[..|objs| - 1], objectType)
      + (if last.objectType == objectType && last.observationCount >= ConfirmationThreshold then 1 else 0)
  }

  /** The distinct elements of s in order of first occurrence (the key order of a dict
      built from s). */
  function Dedup(s: seq<string>): (r: seq<string>)
    ensures NoDup(r)
    ensures forall x :: x in r <==> x in s
  {
    if s == [] then []
    else
      var prefix := Dedup(s[..|s| - 1]);
      var last := s[|s| - 1];
      assert forall x :: x in s <==> x in s[..|s| - 1] || x == last;
      if last in prefix then prefix else prefix + [last]
  }

  /** The items of a dict with the given keys, each mapped to its graduating count. */
  function GraduationItems(objs: seq<InstanceObject>, keys: seq<string>): (r: seq<(string, int)>)
    ensures |r| == |keys|
    ensures forall i :: 0 <= i < |r| ==> r[i].0 == keys[i] && r[i].1 >= 0
  {
    if keys == [] then []
    else
      var last := keys[|keys| - 1];
      GraduationItems(objs, keys[..|keys| - 1]) + [(last, CountGraduating(objs, last) as int)]
  }

  /** The `new_instances` dict of _detect_new_instances, as items in key order. */
  function NewInstances(objs: seq<InstanceObject>, tracked: seq<string>): (r: seq<(string, int)>)
    ensures forall i :: 0 <= i < |r| ==> r[i].0 in tracked && r[i].1 >= 0
    ensures forall l :: l in tracked ==> exists i :: 0 <= i < |r| && r[i].0 == l
  {
    GraduationItems(objs, Dedup(tracked))
  }

  /** The confirmed-object summary of summarise_known_objects. */
  method SummariseKnownObjects(known: seq<InstanceObject>) returns (objectCounts: map<string, int>)
    ensures forall l :: l in objectCounts <==> CountConfirmed(known, l) > 0
    ensures forall l :: l in objectCounts ==> objectCounts[l] == CountConfirmed(known, l)
  {
    objectCounts := map[];
    for i := 0 to |known|
      invariant forall l :: l in objectCounts <==> CountConfirmed(known[..i], l) > 0
      invariant forall l :: l in objectCounts ==> objectCounts[l] == CountConfirmed(known[..i], l)
    {
      assert known[..i + 1][..i] == known[..i];
      var obj := known[i];
      if obj.observationCount < ConfirmationThreshold {
        continue;
      }
      if obj.objectType in objectCounts {
        objectCounts := objectCounts[obj.objectType := objectCounts[obj.objectType] + 1];
      } else {
        objectCounts := objectCounts[obj.objectType := 1];
      }
    }
    assert known[..|known|] == known;
  }

  // ---------------------------------------------------------------------------
  // Interactions (_detect_interactions)

  /** The boxes of the objects with the label, in list order. */
  function BoxesOf(objs: seq<InstanceObject>, objectType: string): (r: seq<BoundingBox>)
    ensures |r| <= |objs|
  {
    if objs == [] then []
    else
      var last := objs[|objs| - 1];
      BoxesOf(objs[..|objs| - 1], objectType) + (if last.objectType == objectType then [last.bbox] else [])
  }

  /** The overlap is at least the fraction `threshold` of the smaller box; inclusive. */
  predicate Qualifies(a: BoundingBox, b: BoundingBox, threshold: real): (r: bool)
    ensures threshold > 0.0 && Area(a) > 0 && Area(b) > 0 && IntersectionArea(a, b) == 0 ==> !r
    ensures threshold <= 0.0 && Area(a) >= 0 && Area(b) >= 0 ==> r
  {
    IntersectionArea(a, b) as real >= threshold * (Min(Area(a), Area(b)) as real)
  }

  function Hit(rule: InteractionRule): Interaction {
    Interaction(rule.objectA, rule.objectB, rule.verb)
  }

  /** The hits of one a-box against the b-boxes, in order. */
  function PairHits(a: BoundingBox, bs: seq<BoundingBox>, rule: InteractionRule): seq<Interaction> {
    if bs == [] then []
    else
      PairHits(a, bs[..|bs| - 1], rule) + (if Qualifies(a, bs[|bs| - 1], rule.threshold) then [Hit(rule)] else [])
  }

  /** The hits over itertools.product(aBoxes, bs), in product order. */
  function ProductHits(aBoxes: seq<BoundingBox>, bs: seq<BoundingBox>, rule: InteractionRule): seq<Interaction> {
    if aBoxes == [] then []
    else ProductHits(aBoxes[..|aBoxes| - 1], bs, rule) + PairHits(aBoxes[|aBoxes| - 1], bs, rule)
  }

  function RuleHits(objs: seq<InstanceObject>, rule: InteractionRule): seq<Interaction> {
    ProductHits(BoxesOf(objs, rule.objectA), BoxesOf(objs, rule.objectB), rule)
  }

  /** All hits, rule by rule in registration order. */
  function Interactions(objs: seq<InstanceObject>, rules: seq<InteractionRule>): (r: seq<Interaction>)
    ensures forall i :: 0 <= i < |r| ==> exists k :: 0 <= k < |rules| && r[i] == Hit(rules[k])
  {
    if rules == [] then []
    else
      var n := |rules| - 1;
      var prev := Interactions(objs, rules[..n]);
      var hits := RuleHits(objs, rules[n]);
      ProductHitsAreHits(BoxesOf(objs, rules[n].objectA), BoxesOf(objs, rules[n].objectB), rules[n]);
      assert forall i :: 0 <= i < |prev| ==> exists k :: 0 <= k < |rules| && prev[i] == Hit(rules[k]) by {
        forall i | 0 <= i < |prev| ensures exists k :: 0 <= k < |rules| && prev[i] == Hit(rules[k]) {
          var k :| 0 <= k < n && prev[i] == Hit(rules[..n][k]);
          assert rules[..n][k] == rules[k];
        }
      }
      assert forall i :: 0 <= i < |hits| ==> hits[i] == Hit(rules[n]) by {
        forall i | 0 <= i < |hits| ensures hits[i] == Hit(rules[n]) {
          assert hits[i] in hits;
        }
      }
      prev + hits
  }

  /** The number of box pairs the rules examine: the sum of |A| * |B|. */
  function PairCount(objs: seq<InstanceObject>, rules: seq<InteractionRule>): nat {
    if rules == [] then 0
    else
      var rule := rules[|rules| - 1];
      PairCount(objs, rules[..|rules| - 1]) + |BoxesOf(objs, rule.objectA)| * |BoxesOf(objs, rule.objectB)|
  }

  /** The interaction loops: every rule, every (a-box, b-box) pair in product order. */
  method DetectInteractions(known: seq<InstanceObject>, rules: seq<InteractionRule>)
    returns (interactions: seq<Interaction>)
    ensures interactions == Interactions(known, rules)
  {
    interactions := [];
    for r := 0 to |rules|
      invariant interactions == Interactions(known, rules[..r])
    {
      var rule := rules[r];
      var aBoxes := BoxesOf(known, rule.objectA);
      var bBoxes := BoxesOf(known, rule.objectB);
      ghost var before := interactions;
      for i := 0 to |aBoxes|
        invariant interactions == before + ProductHits(aBoxes[..i], bBoxes, rule)
      {
        ghost var mid := interactions;
        for j := 0 to |bBoxes|
          invariant interactions == mid + PairHits(aBoxes[i], bBoxes[..j], rule)
        {
          PairHitsPrefix(aBoxes[i], bBoxes, j, rule);
          if Qualifies(aBoxes[i], bBoxes[j], rule.threshold) {
            AppendAssoc(mid, PairHits(aBoxes[i], bBoxes[..j], rule), [Hit(rule)]);
            interactions := interactions + [Interaction(rule.objectA, rule.objectB, rule.verb)];
          }
        }
        PairHitsPrefix(aBoxes[i], bBoxes, |bBoxes|, rule);
        ProductHitsPrefix(aBoxes, i, bBoxes, rule);
        AppendAssoc(before, ProductHits(aBoxes[..i], bBoxes, rule), PairHits(aBoxes[i], bBoxes, rule));
      }
      ProductHitsPrefix(aBoxes, |aBoxes|, bBoxes, rule);
      InteractionsPrefix(known, rules, r);
    }
    InteractionsPrefix(known, rules, |rules|);
  }

  lemma AppendAssoc<T>(a: seq<T>, b: seq<T>, c: seq<T>)
    ensures (a + b) + c == a + (b + c)
  {
  }

  /** Unfolds PairHits over a growing prefix (and, at k == |bs|, over all of bs). */
  lemma PairHitsPrefix(a: BoundingBox, bs: seq<BoundingBox>, k: nat, rule: InteractionRule)
    requires k <= |bs|
    ensures k < |bs| ==> PairHits(a, bs[..k + 1], rule)
                         == PairHits(a, bs[..k], rule) + (if Qualifies(a, bs[k], rule.threshold) then [Hit(rule)] else [])
    ensures k == |bs| ==> PairHits(a, bs[..k], rule) == PairHits(a, bs, rule)
  {
    if k < |bs| {
      assert bs[..k + 1][..k] == bs[..k];
    } else {
      assert bs[..k] == bs;
    }
  }

  lemma ProductHitsPrefix(aBoxes: seq<BoundingBox>, k: nat, bs: seq<BoundingBox>, rule: InteractionRule)
    requires k <= |aBoxes|
    ensures k < |aBoxes| ==> ProductHits(aBoxes[..k + 1], bs, rule) == ProductHits(aBoxes[..k], bs, rule) + PairHits(aBoxes[k], bs, rule)
    ensures k == |aBoxes| ==> ProductHits(aBoxes[..k], bs, rule) == ProductHits(aBoxes, bs, rule)
  {
    if k < |aBoxes| {
      assert aBoxes[..k + 1][..k] == aBoxes[..k];
    } else {
      assert aBoxes[..k] == aBoxes;
    }
  }

  lemma InteractionsPrefix(objs: seq<InstanceObject>, rules: seq<InteractionRule>, k: nat)
    requires k <= |rules|
    ensures k < |rules| ==> Interactions(objs, rules[..k + 1]) == Interactions(objs, rules[..k]) + RuleHits(objs, rules[k])
    ensures k == |rules| ==> Interactions(objs, rules[..k]) == Interactions(objs, rules)
  {
    if k < |rules| {
      assert rules[..k + 1][..k] == rules[..k];
    } else {
      assert rules[..k] == rules;
    }
  }

  // ---------------------------------------------------------------------------
  // Properties of association

  /** Association only updates objects in place: the list keeps its length and order,
      no label changes, no observation count goes down, last_seen is either kept or set
      to the current frame, an object whose count did not move is untouched, and every
      queued detection is one of the inputs. */
  lemma {:induction false} AssociationPreservesObjects(objs: seq<InstanceObject>, dets: seq<Detection>,
                                                       currentTime: int, threshold: int)
    ensures var r := AssociateAll(objs, dets, currentTime, threshold);
      && |r.0| == |objs|
      && (forall i :: 0 <= i < |objs| ==>
            && r.0[i].objectType == objs[i].objectType
            && r.0[i].observationCount >= objs[i].observationCount
            && (r.0[i].lastSeen == objs[i].lastSeen || r.0[i].lastSeen == currentTime))
      && (forall i :: 0 <= i < |objs| && r.0[i].observationCount == objs[i].observationCount ==> r.0[i] == objs[i])
      && |r.1| <= |dets|
      && (forall d :: d in r.1 ==> d in dets)
  {
    if dets != [] {
      var init := dets[..|dets| - 1];
      var d := dets[|dets| - 1];
      AssociationPreservesObjects(objs, init, currentTime, threshold);
      assert forall x :: x in init ==> x in dets;
    }
  }

  /** The detection goes to object i exactly when i carries the detection's label, the
      Euclidean distance between their centroids is below the movement threshold, and no
      earlier object of that label is that close: greedy first match in list order. */
  lemma FirstMatchByDistance(objs: seq<InstanceObject>, d: Detection, threshold: int, i: nat, dist: seq<real>)
    requires i < |objs| && |dist| == |objs|
    requires forall k :: 0 <= k < |objs| ==> IsDistance(dist[k], Centroid(objs[k].bbox), Centroid(d.bbox))
    ensures FirstMatch(objs, d, threshold) == Some(i) <==>
      && objs[i].objectType == d.objectType
      && dist[i] < threshold as real
      && forall k :: 0 <= k < i && objs[k].objectType == d.objectType ==> dist[k] >= threshold as real
  {
    forall k | 0 <= k < |objs|
      ensures Matches(objs[k], d, threshold) <==> objs[k].objectType == d.objectType && dist[k] < threshold as real
    {
      NearIffCentroidDistanceBelow(objs[k].bbox, d.bbox, threshold, dist[k]);
    }
  }

  /** A frame in which no label has any box. */
  predicate Silent(detections: Detections) {
    forall g :: 0 <= g < |detections| ==> detections[g].1 == []
  }

  lemma {:induction false} SilentFlattensToNothing(detections: Detections)
    requires Silent(detections)
    ensures Flatten(detections) == []
  {
    if detections != [] {
      SilentFlattensToNothing(detections[..|detections| - 1]);
    }
  }

  /** With no boxes at all, nothing is matched or spawned: the frame only culls. */
  lemma SilentFrameOnlyCulls(objs: seq<InstanceObject>, detections: Detections, currentTime: int, threshold: int,
                             lastSeenThreshold: int)
    requires Silent(detections)
    ensures UpdateObjects(objs, detections, currentTime, threshold, lastSeenThreshold) == Cull(objs, currentTime, lastSeenThreshold)
  {
    SilentFlattensToNothing(detections);
    assert objs + Spawn([], currentTime) == objs;
  }

  /** An object that no detection of the frame matches is left as it was. */
  lemma {:induction false} UnmatchedObjectUnchanged(objs: seq<InstanceObject>, dets: seq<Detection>,
                                                    currentTime: int, threshold: int, i: nat)
    requires i < |objs| && forall d :: d in dets ==> !Matches(objs[i], d, threshold)
    ensures AssociateAll(objs, dets, currentTime, threshold).0[i] == objs[i]
  {
    if dets != [] {
      var init := dets[..|dets| - 1];
      var d := dets[|dets| - 1];
      assert forall x :: x in init ==> x in dets;
      UnmatchedObjectUnchanged(objs, init, currentTime, threshold, i);
      var prev := AssociateAll(objs, init, currentTime, threshold);
      match FirstMatch(prev.0, d, threshold)
      case None =>
      case Some(j) =>
        assert Matches(prev.0[j], d, threshold);
        assert j != i;
    }
  }

  // ---------------------------------------------------------------------------
  // Properties of spawning and culling

  /** The cull keeps every object that should not be culled, as often as it occurs, and
      drops every other one: it is a filter that changes no fields. */
  lemma {:induction false} CullCounts(objs: seq<InstanceObject>, currentTime: int, lastSeenThreshold: int, o: InstanceObject)
    ensures multiset(Cull(objs, currentTime, lastSeenThreshold))[o]
            == if ShouldCull(o, currentTime, lastSeenThreshold) then 0 else multiset(objs)[o]
  {
    if objs != [] {
      var init := objs[..|objs| - 1];
      CullCounts(init, currentTime, lastSeenThreshold, o);
      assert objs == init + [objs[|objs| - 1]];
      assert multiset(objs) == multiset(init) + multiset{objs[|objs| - 1]};
    }
  }

  lemma {:induction false} CullAppend(a: seq<InstanceObject>, b: seq<InstanceObject>, currentTime: int, lastSeenThreshold: int)
    ensures Cull(a + b, currentTime, lastSeenThreshold) == Cull(a, currentTime, lastSeenThreshold) + Cull(b, currentTime, lastSeenThreshold)
    decreases |b|
  {
    if b == [] {
      assert a + b == a;
    } else {
      var init := b[..|b| - 1];
      CullAppend(a, init, currentTime, lastSeenThreshold);
      assert (a + b)[..|a + b| - 1] == a + init;
    }
  }

  /** An object that association leaves as it was (no detection refreshed it) is still
      known after the frame exactly when the cull does not select it. */
  lemma UnrefreshedObjectSurvival(objs: seq<InstanceObject>, detections: Detections, currentTime: int, threshold: int,
                                  lastSeenThreshold: int, i: nat)
    requires i < |objs| && AssociateAll(objs, Flatten(detections), currentTime, threshold).0[i] == objs[i]
    ensures objs[i] in UpdateObjects(objs, detections, currentTime, threshold, lastSeenThreshold)
            <==> !ShouldCull(objs[i], currentTime, lastSeenThreshold)
  {
    var associated := AssociateAll(objs, Flatten(detections), currentTime, threshold);
    var all := associated.0 + Spawn(associated.1, currentTime);
    assert all[i] == objs[i];
    assert multiset(all)[objs[i]] > 0;
    CullCounts(all, currentTime, lastSeenThreshold, objs[i]);
  }

  /** Objects created this frame survive this frame's cull (for a non-negative window). */
  lemma {:induction false} SpawnedSurviveCull(newObjects: seq<Detection>, currentTime: int, lastSeenThreshold: int)
    requires lastSeenThreshold >= 0
    ensures Cull(Spawn(newObjects, currentTime), currentTime, lastSeenThreshold) == Spawn(newObjects, currentTime)
  {
    if newObjects != [] {
      var init := newObjects[..|newObjects| - 1];
      SpawnedSurviveCull(init, currentTime, lastSeenThreshold);
      assert Spawn(newObjects, currentTime)[..|newObjects| - 1] == Spawn(init, currentTime);
    }
  }

  /** After a frame the list is the culled, updated old objects followed by one new
      object per unmatched detection, in detection order, each with count 1 and
      last_seen the current frame. */
  lemma UpdateAppendsSpawned(objs: seq<InstanceObject>, detections: Detections, currentTime: int, threshold: int,
                             lastSeenThreshold: int)
    requires lastSeenThreshold >= 0
    ensures var associated := AssociateAll(objs, Flatten(detections), currentTime, threshold);
      UpdateObjects(objs, detections, currentTime, threshold, lastSeenThreshold)
      == Cull(associated.0, currentTime, lastSeenThreshold) + Spawn(associated.1, currentTime)
  {
    var associated := AssociateAll(objs, Flatten(detections), currentTime, threshold);
    CullAppend(associated.0, Spawn(associated.1, currentTime), currentTime, lastSeenThreshold);
    SpawnedSurviveCull(associated.1, currentTime, lastSeenThreshold);
  }

  /** Every object still known after a frame was seen within the staleness window, and,
      unless confirmed, within the fast-prune window. */
  lemma UpdateSurvivorsAreFresh(objs: seq<InstanceObject>, detections: Detections, currentTime: int, threshold: int,
                                lastSeenThreshold: int, o: InstanceObject)
    requires o in UpdateObjects(objs, detections, currentTime, threshold, lastSeenThreshold)
    ensures o.lastSeen >= currentTime - lastSeenThreshold
    ensures o.observationCount >= ConfirmationThreshold || o.lastSeen >= currentTime - FastPruneWindow
  {
  }

  /** Objects leave the list only through the cull, and keep their label and a count of
      at least 1 (the invariant both tracker classes keep). */
  lemma UpdateKeepsCountsPositive(objs: seq<InstanceObject>, detections: Detections, currentTime: int, threshold: int,
                                  lastSeenThreshold: int)
    requires forall o :: o in objs ==> o.observationCount >= 1
    ensures forall o :: o in UpdateObjects(objs, detections, currentTime, threshold, lastSeenThreshold) ==> o.observationCount >= 1
  {
    var associated := AssociateAll(objs, Flatten(detections), currentTime, threshold);
    AssociationPreservesObjects(objs, Flatten(detections), currentTime, threshold);
    var all := associated.0 + Spawn(associated.1, currentTime);
    forall o | o in all ensures o.observationCount >= 1 {
      var k :| 0 <= k < |all| && all[k] == o;
      if k < |associated.0| {
        assert objs[k].observationCount >= 1;
      }
    }
  }

  // ---------------------------------------------------------------------------
  // Properties of new-instance counting

  lemma {:induction false} GraduationItemsAt(objs: seq<InstanceObject>, keys: seq<string>, i: nat)
    requires i < |keys|
    ensures GraduationItems(objs, keys)[i] == (keys[i], CountGraduating(objs, keys[i]) as int)
  {
    if i < |keys| - 1 {
      GraduationItemsAt(objs, keys[..|keys| - 1], i);
    }
  }

  /** `new_instances` has one entry per registered label and no other, each label once,
      and each value is the number of known objects of that label whose count is exactly
      the confirmation threshold. */
  lemma NewInstancesShape(objs: seq<InstanceObject>, tracked: seq<string>)
    ensures var r := NewInstances(objs, tracked);
      && (forall i :: 0 <= i < |r| ==> r[i].0 in tracked && r[i].1 == CountGraduating(objs, r[i].0))
      && (forall l :: l in tracked ==> exists i :: 0 <= i < |r| && r[i].0 == l)
      && (forall i, j :: 0 <= i < j < |r| ==> r[i].0 != r[j].0)
  {
    var keys := Dedup(tracked);
    var r := NewInstances(objs, tracked);
    forall i | 0 <= i < |r| ensures r[i] == (keys[i], CountGraduating(objs, keys[i]) as int) {
      GraduationItemsAt(objs, keys, i);
    }
    forall l | l in tracked ensures exists i :: 0 <= i < |r| && r[i].0 == l {
      var i :| 0 <= i < |keys| && keys[i] == l;
      assert r[i].0 == l;
    }
  }

  /** A known object of the label at exactly the confirmation count is counted. */
  lemma {:induction false} GraduatingIsCounted(objs: seq<InstanceObject>, o: InstanceObject)
    requires o in objs && o.observationCount == ConfirmationThreshold
    ensures CountGraduating(objs, o.objectType) >= 1
  {
    var init := objs[..|objs| - 1];
    if objs[|objs| - 1] != o {
      assert o in init by {
        var k :| 0 <= k < |objs| && objs[k] == o;
        assert init[k] == o;
      }
      GraduatingIsCounted(init, o);
    }
  }

  /** Registering a label a second time does not change `new_instances`. */
  lemma RegisteringTwiceChangesNothing(objs: seq<InstanceObject>, tracked: seq<string>, objectType: string)
    requires objectType in tracked
    ensures NewInstances(objs, tracked + [objectType]) == NewInstances(objs, tracked)
  {
    assert (tracked + [objectType])[..|tracked|] == tracked;
  }

  // ---------------------------------------------------------------------------
  // Properties of interaction detection

  lemma {:induction false} PairHitsShape(a: BoundingBox, bs: seq<BoundingBox>, rule: InteractionRule)
    ensures |PairHits(a, bs, rule)| <= |bs|
    ensures forall x :: x in PairHits(a, bs, rule) ==> x == Hit(rule)
    ensures Hit(rule) in PairHits(a, bs, rule) <==> exists b :: b in bs && Qualifies(a, b, rule.threshold)
  {
    if bs != [] {
      var init := bs[..|bs| - 1];
      PairHitsShape(a, init, rule);
      assert forall b :: b in bs <==> b in init || b == bs[|bs| - 1];
    }
  }

  /** One rule reports at most |A| * |B| tuples, all equal to (a, b, verb), and reports
      one exactly when some a-box and b-box overlap by the threshold, inclusively. */
  lemma ProductHitsShape(aBoxes: seq<BoundingBox>, bs: seq<BoundingBox>, rule: InteractionRule)
    ensures |ProductHits(aBoxes, bs, rule)| <= |aBoxes| * |bs|
    ensures forall x :: x in ProductHits(aBoxes, bs, rule) ==> x == Hit(rule)
    ensures Hit(rule) in ProductHits(aBoxes, bs, rule) <==>
            exists a, b :: a in aBoxes && b in bs && Qualifies(a, b, rule.threshold)
  {
    ProductHitsLength(aBoxes, bs, rule);
    ProductHitsAreHits(aBoxes, bs, rule);
    ProductHitsIff(aBoxes, bs, rule);
  }

  lemma {:induction false} ProductHitsLength(aBoxes: seq<BoundingBox>, bs: seq<BoundingBox>, rule: InteractionRule)
    ensures |ProductHits(aBoxes, bs, rule)| <= |aBoxes| * |bs|
  {
    if aBoxes != [] {
      var init := aBoxes[..|aBoxes| - 1];
      ProductHitsLength(init, bs, rule);
      PairHitsShape(aBoxes[|aBoxes| - 1], bs, rule);
      assert |ProductHits(aBoxes, bs, rule)| == |ProductHits(init, bs, rule)| + |PairHits(aBoxes[|aBoxes| - 1], bs, rule)|;
      MultiplySuccessor(|init|, |bs|);
    }
  }

  /** The index pairs (i, j) whose a-box i and b-box j overlap by the threshold. */
  function QualifyingPairs(aBoxes: seq<BoundingBox>, bs: seq<BoundingBox>, threshold: real): set<(int, int)> {
    set i, j | 0 <= i < |aBoxes| && 0 <= j < |bs| && Qualifies(aBoxes[i], bs[j], threshold) :: (i, j)
  }

  /** The pairs (k, j) for the b-boxes j that the box a overlaps by the threshold. */
  function QualifyingRow(k: int, a: BoundingBox, bs: seq<BoundingBox>, threshold: real): set<(int, int)> {
    set j | 0 <= j < |bs| && Qualifies(a, bs[j], threshold) :: (k, j)
  }

  /** The row of a longer b-list is the row of its prefix plus, when it qualifies, the last pair. */
  lemma QualifyingRowSnoc(k: int, a: BoundingBox, bs: seq<BoundingBox>, threshold: real)
    requires bs != []
    ensures var n := |bs| - 1;
            QualifyingRow(k, a, bs, threshold)
            == QualifyingRow(k, a, bs[..n], threshold) + (if Qualifies(a, bs[n], threshold) then {(k, n)} else {})
  {
    var n := |bs| - 1;
    var init := bs[..n];
    forall p | p in QualifyingRow(k, a, init, threshold) ensures p in QualifyingRow(k, a, bs, threshold) {
      assert init[p.1] == bs[p.1];
    }
    forall p | p in QualifyingRow(k, a, bs, threshold) && p.1 < n ensures p in QualifyingRow(k, a, init, threshold) {
      assert init[p.1] == bs[p.1];
    }
  }

  /** One a-box reports one tuple per b-box it overlaps by the threshold. */
  lemma {:induction false} PairHitsCount(k: int, a: BoundingBox, bs: seq<BoundingBox>, rule: InteractionRule)
    ensures |PairHits(a, bs, rule)| == |QualifyingRow(k, a, bs, rule.threshold)|
  {
    if bs == [] {
      assert QualifyingRow(k, a, bs, rule.threshold) == {};
    } else {
      var n := |bs| - 1;
      PairHitsCount(k, a, bs[..n], rule);
      QualifyingRowSnoc(k, a, bs, rule.threshold);
      assert (k, n) !in QualifyingRow(k, a, bs[..n], rule.threshold);
    }
  }

  /** The qualifying pairs of a longer a-list are those of its prefix plus the last box's row. */
  lemma QualifyingPairsSnoc(aBoxes: seq<BoundingBox>, bs: seq<BoundingBox>, threshold: real)
    requires aBoxes != []
    ensures var n := |aBoxes| - 1;
            QualifyingPairs(aBoxes, bs, threshold)
            == QualifyingPairs(aBoxes[..n], bs, threshold) + QualifyingRow(n, aBoxes[n], bs, threshold)
  {
    var n := |aBoxes| - 1;
    var init := aBoxes[..n];
    forall p | p in QualifyingPairs(aBoxes, bs, threshold)
      ensures p in QualifyingPairs(init, bs, threshold) + QualifyingRow(n, aBoxes[n], bs, threshold)
    {
      if p.0 < n {
        assert init[p.0] == aBoxes[p.0];
      }
    }
    forall p | p in QualifyingPairs(init, bs, threshold) ensures p in QualifyingPairs(aBoxes, bs, threshold) {
      assert init[p.0] == aBoxes[p.0];
    }
  }

  /** A rule's product loop reports exactly one tuple per qualifying (a-box, b-box) pair. */
  lemma {:induction false} ProductHitsCount(aBoxes: seq<BoundingBox>, bs: seq<BoundingBox>, rule: InteractionRule)
    ensures |ProductHits(aBoxes, bs, rule)| == |QualifyingPairs(aBoxes, bs, rule.threshold)|
  {
    if aBoxes == [] {
      assert QualifyingPairs(aBoxes, bs, rule.threshold) == {};
    } else {
      var n := |aBoxes| - 1;
      ProductHitsCount(aBoxes[..n], bs, rule);
      PairHitsCount(n, aBoxes[n], bs, rule);
      QualifyingPairsSnoc(aBoxes, bs, rule.threshold);
      var before := QualifyingPairs(aBoxes[..n], bs, rule.threshold);
      var row := QualifyingRow(n, aBoxes[n], bs, rule.threshold);
      assert before * row == {} by {
        forall p | p in before ensures p !in row {
          assert p.0 < n;
        }
      }
    }
  }

  /** One rule reports as many tuples as there are qualifying pairs of a-boxes and b-boxes
      (the same object may supply both boxes). */
  lemma RuleHitsCount(objs: seq<InstanceObject>, rule: InteractionRule)
    ensures |RuleHits(objs, rule)|
            == |QualifyingPairs(BoxesOf(objs, rule.objectA), BoxesOf(objs, rule.objectB), rule.threshold)|
  {
    ProductHitsCount(BoxesOf(objs, rule.objectA), BoxesOf(objs, rule.objectB), rule);
  }

  lemma MultiplySuccessor(n: nat, m: nat)
    ensures (n + 1) * m == n * m + m
  {
  }

  lemma {:induction false} ProductHitsAreHits(aBoxes: seq<BoundingBox>, bs: seq<BoundingBox>, rule: InteractionRule)
    ensures forall x :: x in ProductHits(aBoxes, bs, rule) ==> x == Hit(rule)
  {
    if aBoxes != [] {
      ProductHitsAreHits(aBoxes[..|aBoxes| - 1], bs, rule);
      PairHitsShape(aBoxes[|aBoxes| - 1], bs, rule);
    }
  }

  lemma {:induction false} ProductHitsIff(aBoxes: seq<BoundingBox>, bs: seq<BoundingBox>, rule: InteractionRule)
    ensures Hit(rule) in ProductHits(aBoxes, bs, rule) <==>
            exists a, b :: a in aBoxes && b in bs && Qualifies(a, b, rule.threshold)
  {
    if aBoxes != [] {
      var init := aBoxes[..|aBoxes| - 1];
      var last := aBoxes[|aBoxes| - 1];
      ProductHitsIff(init, bs, rule);
      PairHitsShape(last, bs, rule);
      assert forall a :: a in aBoxes <==> a in init || a == last;
    }
  }

  lemma {:induction false} BoxesOfMembers(objs: seq<InstanceObject>, objectType: string, b: BoundingBox)
    ensures b in BoxesOf(objs, objectType) <==> exists o :: o in objs && o.objectType == objectType && o.bbox == b
  {
    if objs != [] {
      var init := objs[..|objs| - 1];
      BoxesOfMembers(init, objectType, b);
      assert forall o :: o in objs <==> o in init || o == objs[|objs| - 1];
    }
  }

  /** A rule reports its tuple exactly when some known object of label a and some known
      object of label b (possibly the same object) overlap by the threshold. */
  lemma RuleHitIff(objs: seq<InstanceObject>, rule: InteractionRule)
    ensures Hit(rule) in RuleHits(objs, rule) <==>
            exists p, q :: p in objs && q in objs && p.objectType == rule.objectA && q.objectType == rule.objectB
                           && Qualifies(p.bbox, q.bbox, rule.threshold)
  {
    var aBoxes := BoxesOf(objs, rule.objectA);
    var bBoxes := BoxesOf(objs, rule.objectB);
    ProductHitsShape(aBoxes, bBoxes, rule);
    if Hit(rule) in RuleHits(objs, rule) {
      var a, b :| a in aBoxes && b in bBoxes && Qualifies(a, b, rule.threshold);
      BoxesOfMembers(objs, rule.objectA, a);
      BoxesOfMembers(objs, rule.objectB, b);
    }
    if exists p, q :: p in objs && q in objs && p.objectType == rule.objectA && q.objectType == rule.objectB
                      && Qualifies(p.bbox, q.bbox, rule.threshold) {
      var p, q :| p in objs && q in objs && p.objectType == rule.objectA && q.objectType == rule.objectB
                  && Qualifies(p.bbox, q.bbox, rule.threshold);
      BoxesOfMembers(objs, rule.objectA, p.bbox);
      BoxesOfMembers(objs, rule.objectB, q.bbox);
    }
  }

  /** The interaction list never holds more entries than the number of box pairs
      examined, the sum over rules of |A| * |B|. */
  lemma {:induction false} InteractionsBound(objs: seq<InstanceObject>, rules: seq<InteractionRule>)
    ensures |Interactions(objs, rules)| <= PairCount(objs, rules)
  {
    if rules != [] {
      var rule := rules[|rules| - 1];
      InteractionsBound(objs, rules[..|rules| - 1]);
      ProductHitsShape(BoxesOf(objs, rule.objectA), BoxesOf(objs, rule.objectB), rule);
    }
  }

  /** Every reported tuple is the (a, b, verb) of some rule that fired. */
  lemma {:induction false} InteractionsComeFromRules(objs: seq<InstanceObject>, rules: seq<InteractionRule>, x: Interaction)
    ensures x in Interactions(objs, rules) <==> exists rule :: rule in rules && x == Hit(rule) && Hit(rule) in RuleHits(objs, rule)
  {
    if rules != [] {
      var init := rules[..|rules| - 1];
      var last := rules[|rules| - 1];
      InteractionsComeFromRules(objs, init, x);
      ProductHitsShape(BoxesOf(objs, last.objectA), BoxesOf(objs, last.objectB), last);
      assert forall rule :: rule in rules <==> rule in init || rule == last;
    }
  }

  /** There is no self-pair exclusion: when a rule pairs a label with itself, a single
      object of that label (of non-negative extent) fires the rule for any threshold up
      to 1, because its box overlaps itself completely. */
  lemma SelfPairIsReported(objs: seq<InstanceObject>, rule: InteractionRule, o: InstanceObject)
    requires rule.objectA == rule.objectB && o in objs && o.objectType == rule.objectA
    requires o.bbox.w >= 0 && o.bbox.h >= 0 && rule.threshold <= 1.0
    ensures Hit(rule) in RuleHits(objs, rule)
  {
    SelfIntersectionIsArea(o.bbox);
    var area := Area(o.bbox) as real;
    assert area >= 0.0 by {
      ProductMonotone(0, 0, o.bbox.w, o.bbox.h);
    }
    assert rule.threshold * area <= area by {
      assert (1.0 - rule.threshold) * area >= 0.0;
    }
    assert Qualifies(o.bbox, o.bbox, rule.threshold);
    RuleHitIff(objs, rule);
  }

  /** The overlap test is inclusive: two 10x10 boxes overlapping by 50 meet a 0.5
      threshold, overlapping by 49 they do not. */
  lemma ThresholdIsInclusive()
    ensures Qualifies(BoundingBox(0, 0, 10, 10), BoundingBox(5, 0, 10, 10), 0.5)
    ensures !Qualifies(BoundingBox(0, 0, 10, 10), BoundingBox(3, 3, 10, 10), 0.5)
  {
  }

  // ---------------------------------------------------------------------------
  // Single-step and worked properties

  /** One detection refreshes exactly its first match: that object gets the detection's
      box, one more observation and last_seen the current frame; no other object changes,
      and the detection is not queued. Without a match nothing changes and it is queued. */
  lemma AssociateOneEffect(objs: seq<InstanceObject>, d: Detection, currentTime: int, threshold: int)
    ensures var r := AssociateOne(objs, d, currentTime, threshold);
      && |r.0| == |objs|
      && (FirstMatch(objs, d, threshold).None? ==> r.0 == objs && r.1 == [d])
      && (FirstMatch(objs, d, threshold).Some? ==>
            var j := FirstMatch(objs, d, threshold).value;
            && r.1 == []
            && r.0[j] == InstanceObject(objs[j].objectType, d.bbox, objs[j].observationCount + 1, currentTime)
            && forall i :: 0 <= i < |objs| && i != j ==> r.0[i] == objs[i])
  {
  }

  lemma AssociateSingle(objs: seq<InstanceObject>, d: Detection, currentTime: int, threshold: int)
    ensures AssociateAll(objs, [d], currentTime, threshold) == AssociateOne(objs, d, currentTime, threshold)
  {
    assert [d][..0] == [];
    var step := AssociateOne(objs, d, currentTime, threshold);
    assert [] + step.1 == step.1;
  }

  lemma FirstMatchSingle(o: InstanceObject, d: Detection, threshold: int)
    requires Matches(o, d, threshold)
    ensures forall t :: AssociateOne([o], d, t, threshold) == ([Refresh(o, d.bbox, t)], [])
  {
    assert FirstMatch([o], d, threshold) == Some(0);
    forall t ensures AssociateOne([o], d, t, threshold) == ([Refresh(o, d.bbox, t)], []) {
      assert [o][0 := Refresh(o, d.bbox, t)] == [Refresh(o, d.bbox, t)];
    }
  }

  lemma CountGraduatingOfOne(o: InstanceObject, objectType: string)
    ensures CountGraduating([o], objectType)
            == if o.objectType == objectType && o.observationCount == ConfirmationThreshold then 1 else 0
  {
    assert [o][..0] == [];
  }

  /** An object re-detected close to where it was, and alone in the list, is refreshed
      in place and survives the cull. */
  lemma ReseenObjectIsRefreshed(o: InstanceObject, b: BoundingBox, currentTime: int, threshold: int, lastSeenThreshold: int)
    requires Near(o.bbox, b, threshold) && lastSeenThreshold >= 0
    ensures UpdateObjects([o], [(o.objectType, [b])], currentTime, threshold, lastSeenThreshold)
            == [Refresh(o, b, currentTime)]
  {
    var d := Detection(o.objectType, b);
    assert Flatten([(o.objectType, [b])]) == [d] by {
      assert [(o.objectType, [b])][..0] == [];
    }
    var r := Refresh(o, b, currentTime);
    AssociateSingle([o], d, currentTime, threshold);
    FirstMatchSingle(o, d, threshold);
    assert [r] + Spawn([], currentTime) == [r];
    assert Cull([r], currentTime, lastSeenThreshold) == [r] by {
      assert [r][..0] == [];
    }
  }

  /** Nothing prevents two detections in one frame from matching the same object: both
      refresh it, so its count rises by two. */
  lemma TwoDetectionsMatchOneObject(o: InstanceObject, d1: Detection, d2: Detection, currentTime: int, threshold: int)
    requires Matches(o, d1, threshold) && Matches(Refresh(o, d1.bbox, currentTime), d2, threshold)
    ensures AssociateAll([o], [d1, d2], currentTime, threshold)
            == ([o.(bbox := d2.bbox, observationCount := o.observationCount + 2, lastSeen := currentTime)], [])
  {
    var o1 := Refresh(o, d1.bbox, currentTime);
    AssociateSingle([o], d1, currentTime, threshold);
    FirstMatchSingle(o, d1, threshold);
    FirstMatchSingle(o1, d2, threshold);
    assert [d1, d2][..1] == [d1];
    var none: seq<Detection> := [];
    assert none + none == none;
  }

  /** So the count can jump over the confirmation threshold: an object at count 4 that
      two detections of one frame both match goes to 6 and is never counted as
      graduating. */
  lemma CountCanSkipConfirmation(o: InstanceObject, d1: Detection, d2: Detection, currentTime: int, threshold: int)
    requires o.observationCount == ConfirmationThreshold - 1
    requires Matches(o, d1, threshold) && Matches(Refresh(o, d1.bbox, currentTime), d2, threshold)
    ensures var r := AssociateAll([o], [d1, d2], currentTime, threshold);
            && |r.0| == 1 && r.1 == []
            && r.0[0].observationCount == ConfirmationThreshold + 1
            && CountGraduating(r.0, o.objectType) == 0
  {
    TwoDetectionsMatchOneObject(o, d1, d2, currentTime, threshold);
    var o2 := o.(bbox := d2.bbox, observationCount := o.observationCount + 2, lastSeen := currentTime);
    CountGraduatingOfOne(o2, o.objectType);
  }
}
