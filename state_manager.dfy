/** The earlier tracker, state_manager.py: the same association, spawning and culling as
    world_state.py but with a 90-frame staleness window. Instead of returning a report it
    keeps a counter per registered label, prints one line per qualifying interaction pair,
    and returns the per-label number of confirmed objects. */
module StateManager {
  import opened Geometry
  import opened Tracking

  /** `_last_seen_threshold`: three seconds at 30 frames per second. */
  const LastSeenThreshold: int := 3 * 30

  /** The line printed for an interaction: "{a} is {verb} {b}". */
  function InteractionLine(x: Interaction): string {
    x.objectA + " is " + x.verb + " " + x.objectB
  }

  function InteractionLines(xs: seq<Interaction>): (r: seq<string>)
    ensures |r| == |xs|
  {
    seq(|xs|, i requires 0 <= i < |xs| => InteractionLine(xs[i]))
  }

  class WorldState {
    const movementThreshold: int
    var knownObjects: seq<InstanceObject>
    var trackedNewObjectCounts: map<string, int>
    var interactionsToTrack: seq<InteractionRule>
    /** What has been printed to standard output, one entry per line. */
    var printed: seq<string>

    /** Every known object has been observed at least once. */
    ghost predicate Valid()
      reads this
    {
      forall o :: o in knownObjects ==> o.observationCount >= 1
    }

    constructor (movementThreshold: int := DefaultMovementThreshold)
      ensures Valid()
      ensures this.movementThreshold == movementThreshold
      ensures knownObjects == [] && trackedNewObjectCounts == map[] && interactionsToTrack == [] && printed == []
    {
      this.movementThreshold := movementThreshold;
      knownObjects := [];
      trackedNewObjectCounts := map[];
      interactionsToTrack := [];
      printed := [];
    }

    /** One frame: associate, spawn, cull, advance the counters, print the interactions
        and return the confirmed-object summary. */
    method Update(detections: Detections, currentTime: int) returns (summary: map<string, int>)
      requires Valid()
      modifies this
      ensures Valid()
      ensures knownObjects
              == UpdateObjects(old(knownObjects), detections, currentTime, movementThreshold, LastSeenThreshold)
      ensures trackedNewObjectCounts.Keys == old(trackedNewObjectCounts).Keys
      ensures forall l :: l in old(trackedNewObjectCounts) ==>
                trackedNewObjectCounts[l] == old(trackedNewObjectCounts)[l] + CountGraduating(knownObjects, l)
      ensures interactionsToTrack == old(interactionsToTrack)
      ensures printed == old(printed) + InteractionLines(Interactions(knownObjects, interactionsToTrack))
      ensures forall l :: l in summary <==> CountConfirmed(knownObjects, l) > 0
      ensures forall l :: l in summary ==> summary[l] == CountConfirmed(knownObjects, l)
    {
      UpdateKeepsCountsPositive(knownObjects, detections, currentTime, movementThreshold, LastSeenThreshold);
      var updated, newObjects := AssociateDetections(knownObjects, detections, currentTime, movementThreshold);
      var all := AddNewObjects(updated, newObjects, currentTime);
      knownObjects := Cull(all, currentTime, LastSeenThreshold);
      UpdateNewInstanceCounts();
      DetectInteractions();
      summary := SummariseKnownObjects();
    }

    /** Sets the label's counter to 0, also when the label is already registered. */
    method StartTrackingNewInstancesOfObjectType(objectType: string)
      modifies this
      ensures trackedNewObjectCounts == old(trackedNewObjectCounts)[objectType := 0]
      ensures knownObjects == old(knownObjects) && interactionsToTrack == old(interactionsToTrack)
      ensures printed == old(printed)
    {
      trackedNewObjectCounts := trackedNewObjectCounts[objectType := 0];
    }

    /** Adds to each registered label's counter the number of known objects of that label
        whose count is exactly the confirmation threshold; no label is added. */
    method UpdateNewInstanceCounts()
      modifies this
      ensures trackedNewObjectCounts.Keys == old(trackedNewObjectCounts).Keys
      ensures forall l :: l in old(trackedNewObjectCounts) ==>
                trackedNewObjectCounts[l] == old(trackedNewObjectCounts)[l] + CountGraduating(knownObjects, l)
      ensures knownObjects == old(knownObjects) && interactionsToTrack == old(interactionsToTrack)
      ensures printed == old(printed)
    {
      for i := 0 to |knownObjects|
        invariant knownObjects == old(knownObjects) && interactionsToTrack == old(interactionsToTrack)
        invariant printed == old(printed)
        invariant trackedNewObjectCounts.Keys == old(trackedNewObjectCounts).Keys
        invariant forall l :: l in old(trackedNewObjectCounts) ==>
                    trackedNewObjectCounts[l] == old(trackedNewObjectCounts)[l] + CountGraduating(knownObjects[..i], l)
      {
        assert knownObjects[..i + 1][..i] == knownObjects[..i];
        var obj := knownObjects[i];
        if obj.objectType in trackedNewObjectCounts && obj.observationCount == ConfirmationThreshold {
          trackedNewObjectCounts := trackedNewObjectCounts[obj.objectType := trackedNewObjectCounts[obj.objectType] + 1];
        }
      }
      assert knownObjects[..|knownObjects|] == knownObjects;
    }

    /** The label's counter, or None where the source raises KeyError. */
    function GetInstanceCounts(objectType: string): (r: Option<int>)
      reads this
      ensures r.None? <==> objectType !in trackedNewObjectCounts
      ensures r.Some? ==> r.value == trackedNewObjectCounts[objectType]
    {
      if objectType in trackedNewObjectCounts then Some(trackedNewObjectCounts[objectType]) else None
    }

    /** Registers an interaction rule; the threshold and the verb have defaults. */
    method StartTrackingObjectInteractions(objectA: string, objectB: string,
                                           intersectionThreshold: real := DefaultIntersectionThreshold,
                                           verb: string := DefaultVerb)
      modifies this
      ensures interactionsToTrack
              == old(interactionsToTrack) + [InteractionRule(objectA, objectB, intersectionThreshold, verb)]
      ensures knownObjects == old(knownObjects) && trackedNewObjectCounts == old(trackedNewObjectCounts)
      ensures printed == old(printed)
    {
      interactionsToTrack := interactionsToTrack + [InteractionRule(objectA, objectB, intersectionThreshold, verb)];
    }

    /** Prints one line per rule per qualifying (a-box, b-box) pair. */
    method DetectInteractions()
      modifies this
      ensures printed == old(printed) + InteractionLines(Interactions(knownObjects, interactionsToTrack))
      ensures knownObjects == old(knownObjects) && trackedNewObjectCounts == old(trackedNewObjectCounts)
      ensures interactionsToTrack == old(interactionsToTrack)
    {
      var interactions := Tracking.DetectInteractions(knownObjects, interactionsToTrack);
      printed := printed + InteractionLines(interactions);
    }

    /** The confirmed objects per label; labels with none are absent. */
    method SummariseKnownObjects() returns (objectCounts: map<string, int>)
      ensures forall l :: l in objectCounts <==> CountConfirmed(knownObjects, l) > 0
      ensures forall l :: l in objectCounts ==> objectCounts[l] == CountConfirmed(knownObjects, l)
    {
      objectCounts := Tracking.SummariseKnownObjects(knownObjects);
    }
  }

  // ---------------------------------------------------------------------------
  // Properties of this tracker

  /** With a 90-frame window both cull clauses matter: a confirmed object is culled once
      it has been unseen for more than 90 frames, an unconfirmed one after 10. */
  lemma CullTiming(o: InstanceObject, currentTime: int)
    ensures ShouldCull(o, currentTime, LastSeenThreshold)
            <==> currentTime > o.lastSeen + (if o.observationCount >= ConfirmationThreshold then 90 else FastPruneWindow)
  {
  }

  /** An object that is not re-detected (association leaves it as it was, whatever the
      other boxes of the frame do) is present through frame lastSeen + 90 when it is
      confirmed and through lastSeen + 10 otherwise, and gone afterwards. */
  lemma UnseenObjectLifetime(objs: seq<InstanceObject>, detections: Detections, currentTime: int, threshold: int, i: nat)
    requires i < |objs| && AssociateAll(objs, Flatten(detections), currentTime, threshold).0[i] == objs[i]
    ensures objs[i] in UpdateObjects(objs, detections, currentTime, threshold, LastSeenThreshold)
            <==> currentTime <= objs[i].lastSeen
                                + (if objs[i].observationCount >= ConfirmationThreshold then 90 else FastPruneWindow)
  {
    UnrefreshedObjectSurvival(objs, detections, currentTime, threshold, LastSeenThreshold, i);
    CullTiming(objs[i], currentTime);
  }

  /** Each printed line names the two labels and the verb of a rule that fired. */
  lemma PrintedLinesComeFromRules(objs: seq<InstanceObject>, rules: seq<InteractionRule>, k: nat)
    requires k < |Interactions(objs, rules)|
    ensures exists rule :: rule in rules && Hit(rule) in RuleHits(objs, rule)
              && InteractionLines(Interactions(objs, rules))[k] == rule.objectA + " is " + rule.verb + " " + rule.objectB
  {
    var x := Interactions(objs, rules)[k];
    InteractionsComeFromRules(objs, rules, x);
  }
}
