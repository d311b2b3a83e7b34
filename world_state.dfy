/** The current tracker, world_state.py: a WorldState object holding the known objects
    and the registered new-instance labels and interaction rules. Each `update` runs
    association, spawning and culling with a staleness window of 5 frames, then reports
    the labels' graduation counts and the interaction tuples of the frame. */
module World {
  import opened Geometry
  import opened Tracking

  /** `_last_seen_threshold`, set to 5 in the constructor. */
  const LastSeenThreshold: int := 5

  class WorldState {
    const movementThreshold: int
    var knownObjects: seq<InstanceObject>
    var newInstancesToTrack: seq<string>
    var interactionsToTrack: seq<InteractionRule>

    /** Every known object has been observed at least once. */
    ghost predicate Valid()
      reads this
    {
      forall o :: o in knownObjects ==> o.observationCount >= 1
    }

    constructor (movementThreshold: int := DefaultMovementThreshold)
      ensures Valid()
      ensures this.movementThreshold == movementThreshold
      ensures knownObjects == [] && newInstancesToTrack == [] && interactionsToTrack == []
    {
      this.movementThreshold := movementThreshold;
      knownObjects := [];
      newInstancesToTrack := [];
      interactionsToTrack := [];
    }

    /** One frame: associate, spawn, cull, then report new instances and interactions. */
    method Update(detections: Detections, currentTime: int) returns (delta: StateDelta)
      requires Valid()
      modifies this
      ensures Valid()
      ensures knownObjects
              == UpdateObjects(old(knownObjects), detections, currentTime, movementThreshold, LastSeenThreshold)
      ensures newInstancesToTrack == old(newInstancesToTrack) && interactionsToTrack == old(interactionsToTrack)
      ensures delta.newInstances == NewInstances(knownObjects, newInstancesToTrack)
      ensures delta.interactions == Interactions(knownObjects, interactionsToTrack)
    {
      UpdateKeepsCountsPositive(knownObjects, detections, currentTime, movementThreshold, LastSeenThreshold);
      var updated, newObjects := AssociateDetections(knownObjects, detections, currentTime, movementThreshold);
      var all := AddNewObjects(updated, newObjects, currentTime);
      knownObjects := Cull(all, currentTime, LastSeenThreshold);
      var newInstances := DetectNewInstances();
      var interactions := DetectInteractions(knownObjects, interactionsToTrack);
      delta := StateDelta(interactions, newInstances);
    }

    /** Registers a label whose graduations `update` reports. */
    method StartTrackingNewInstancesOfObjectType(objectType: string)
      modifies this
      ensures newInstancesToTrack == old(newInstancesToTrack) + [objectType]
      ensures knownObjects == old(knownObjects) && interactionsToTrack == old(interactionsToTrack)
    {
      newInstancesToTrack := newInstancesToTrack + [objectType];
    }

    /** Registers an interaction rule; the threshold and the verb have defaults. */
    method StartTrackingObjectInteractions(objectA: string, objectB: string,
                                           intersectionThreshold: real := DefaultIntersectionThreshold,
                                           verb: string := DefaultVerb)
      modifies this
      ensures interactionsToTrack
              == old(interactionsToTrack) + [InteractionRule(objectA, objectB, intersectionThreshold, verb)]
      ensures knownObjects == old(knownObjects) && newInstancesToTrack == old(newInstancesToTrack)
    {
      interactionsToTrack := interactionsToTrack + [InteractionRule(objectA, objectB, intersectionThreshold, verb)];
    }

    /** A dict with one zero per registered label, then one increment per known object of
        a registered label whose count is exactly the confirmation threshold. */
    method DetectNewInstances() returns (newInstances: seq<(string, int)>)
      ensures newInstances == NewInstances(knownObjects, newInstancesToTrack)
    {
      var keys := Dedup(newInstancesToTrack);
      var counts: map<string, int> := map l | l in keys :: 0;
      for i := 0 to |knownObjects|
        invariant forall l :: l in counts <==> l in keys
        invariant forall l :: l in keys ==> counts[l] == CountGraduating(knownObjects[..i], l)
      {
        assert knownObjects[..i + 1][..i] == knownObjects[..i];
        var obj := knownObjects[i];
        if obj.objectType in newInstancesToTrack && obj.observationCount == ConfirmationThreshold {
          counts := counts[obj.objectType := counts[obj.objectType] + 1];
        }
      }
      assert knownObjects[..|knownObjects|] == knownObjects;
      newInstances := seq(|keys|, k requires 0 <= k < |keys| => (keys[k], counts[keys[k]]));
      forall k | 0 <= k < |keys|
        ensures newInstances[k] == NewInstances(knownObjects, newInstancesToTrack)[k]
      {
        GraduationItemsAt(knownObjects, keys, k);
      }
    }

    /** The confirmed objects per label; labels with none are absent. */
    method SummariseKnownObjects() returns (objectCounts: map<string, int>)
      ensures forall l :: l in objectCounts <==> CountConfirmed(knownObjects, l) > 0
      ensures forall l :: l in objectCounts ==> objectCounts[l] == CountConfirmed(knownObjects, l)
    {
      objectCounts := Tracking.SummariseKnownObjects(knownObjects);
    }
  }

  // ---------------------------------------------------------------------------
  // Properties of this tracker

  /** With a 5-frame window the fast-prune clause never decides anything: an object is
      culled exactly when it was last seen more than 5 frames ago. */
  lemma CullIsStaleness(o: InstanceObject, currentTime: int)
    ensures ShouldCull(o, currentTime, LastSeenThreshold) <==> o.lastSeen < currentTime - LastSeenThreshold
  {
  }

  /** An object that is not re-detected (association leaves it as it was, whatever the
      other boxes of the frame do) stays through frame lastSeen + 5 and is gone from
      frame lastSeen + 6 on. */
  lemma UnseenObjectLifetime(objs: seq<InstanceObject>, detections: Detections, currentTime: int, threshold: int, i: nat)
    requires i < |objs| && AssociateAll(objs, Flatten(detections), currentTime, threshold).0[i] == objs[i]
    ensures objs[i] in UpdateObjects(objs, detections, currentTime, threshold, LastSeenThreshold)
            <==> currentTime <= objs[i].lastSeen + LastSeenThreshold
  {
    UnrefreshedObjectSurvival(objs, detections, currentTime, threshold, LastSeenThreshold, i);
  }

  /** Graduation is not once-only: an object at the confirmation count that is not
      re-detected is still known and still counted for its label in every frame until
      it is culled. */
  lemma GraduationRepeatsWhileUnseen(objs: seq<InstanceObject>, detections: Detections, currentTime: int, threshold: int,
                                     i: nat)
    requires i < |objs| && AssociateAll(objs, Flatten(detections), currentTime, threshold).0[i] == objs[i]
    requires objs[i].observationCount == ConfirmationThreshold
    requires currentTime <= objs[i].lastSeen + LastSeenThreshold
    ensures objs[i] in UpdateObjects(objs, detections, currentTime, threshold, LastSeenThreshold)
    ensures CountGraduating(UpdateObjects(objs, detections, currentTime, threshold, LastSeenThreshold), objs[i].objectType) >= 1
  {
    UnseenObjectLifetime(objs, detections, currentTime, threshold, i);
    GraduatingIsCounted(UpdateObjects(objs, detections, currentTime, threshold, LastSeenThreshold), objs[i]);
  }

  /** The report for a single known object and a single registered label. */
  lemma NewInstancesOfOne(o: InstanceObject, objectType: string)
    ensures NewInstances([o], [objectType])
            == [(objectType, if o.objectType == objectType && o.observationCount == ConfirmationThreshold then 1 else 0)]
  {
    assert [objectType][..0] == [];
    assert Dedup([objectType]) == [objectType];
    assert [o][..0] == [];
    CountGraduatingOfOne(o, objectType);
    var n := CountGraduating([o], objectType);
    assert GraduationItems([o], [objectType]) == GraduationItems([o], []) + [(objectType, n as int)];
  }

  /** A stationary object seen in five consecutive frames, with the default movement
      threshold: a new object in frame 0, refreshed in frames 1 to 4, and reported as a
      new instance of its label in frame 4 and not before. */
  lemma StationaryObjectGraduatesInFifthFrame(objectType: string, b: BoundingBox)
    ensures var frame := [(objectType, [b])];
            && UpdateObjects([], frame, 0, DefaultMovementThreshold, LastSeenThreshold)
               == [InstanceObject(objectType, b, 1, 0)]
            && UpdateObjects([InstanceObject(objectType, b, 1, 0)], frame, 1, DefaultMovementThreshold, LastSeenThreshold)
               == [InstanceObject(objectType, b, 2, 1)]
            && UpdateObjects([InstanceObject(objectType, b, 2, 1)], frame, 2, DefaultMovementThreshold, LastSeenThreshold)
               == [InstanceObject(objectType, b, 3, 2)]
            && UpdateObjects([InstanceObject(objectType, b, 3, 2)], frame, 3, DefaultMovementThreshold, LastSeenThreshold)
               == [InstanceObject(objectType, b, 4, 3)]
            && UpdateObjects([InstanceObject(objectType, b, 4, 3)], frame, 4, DefaultMovementThreshold, LastSeenThreshold)
               == [InstanceObject(objectType, b, 5, 4)]
            && NewInstances([InstanceObject(objectType, b, 4, 3)], [objectType]) == [(objectType, 0)]
            && NewInstances([InstanceObject(objectType, b, 5, 4)], [objectType]) == [(objectType, 1)]
  {
    assert DoubledCentroidSquaredDistance(b, b) == 0;
    FirstFrameSpawns(objectType, b, 0, DefaultMovementThreshold);
    ReseenObjectIsRefreshed(InstanceObject(objectType, b, 1, 0), b, 1, DefaultMovementThreshold, LastSeenThreshold);
    ReseenObjectIsRefreshed(InstanceObject(objectType, b, 2, 1), b, 2, DefaultMovementThreshold, LastSeenThreshold);
    ReseenObjectIsRefreshed(InstanceObject(objectType, b, 3, 2), b, 3, DefaultMovementThreshold, LastSeenThreshold);
    ReseenObjectIsRefreshed(InstanceObject(objectType, b, 4, 3), b, 4, DefaultMovementThreshold, LastSeenThreshold);
    NewInstancesOfOne(InstanceObject(objectType, b, 4, 3), objectType);
    NewInstancesOfOne(InstanceObject(objectType, b, 5, 4), objectType);
  }

  /** In the first frame with an empty list, the one box becomes a new object. */
  lemma FirstFrameSpawns(objectType: string, b: BoundingBox, currentTime: int, threshold: int)
    ensures UpdateObjects([], [(objectType, [b])], currentTime, threshold, LastSeenThreshold)
            == [InstanceObject(objectType, b, 1, currentTime)]
  {
    var d := Detection(objectType, b);
    assert Flatten([(objectType, [b])]) == [d] by {
      assert [(objectType, [b])][..0] == [];
    }
    AssociateSingle([], d, currentTime, threshold);
    var o := InstanceObject(objectType, b, 1, currentTime);
    assert Spawn([d], currentTime) == [o];
    assert [] + [o] == [o];
    assert [o][..0] == [];
  }
}
