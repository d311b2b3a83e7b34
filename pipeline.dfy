/** The per-frame wiring of analyse_video.py: each frame's detections go to the tracker's
    `update`, and the report it returns goes to the event log's `update_state`, stamped
    with the frame number. */
module Pipeline {
  import opened Tracking
  import opened World
  import opened Events

  /** A registered label's report entry carries its graduation count; an unregistered
      label gets nothing. */
  lemma NewInstancesTotals(objs: seq<InstanceObject>, tracked: seq<string>, l: string)
    ensures SumFor(NewInstances(objs, tracked), l) == if l in tracked then CountGraduating(objs, l) as int else 0
  {
    var r := NewInstances(objs, tracked);
    NewInstancesShape(objs, tracked);
    assert NoDup(Keys(r));
    if l in tracked {
      var i :| 0 <= i < |r| && r[i].0 == l;
      SumForUnique(r, l, i);
    } else {
      assert l !in Keys(r);
      SumForAbsent(r, l);
    }
  }

  /** One frame through the tracker and the log. The tracker's objects follow its update;
      each registered label's running total grows by the number of its objects reaching
      the confirmation count, and no other label's total changes; the log's active
      interactions are exactly the tuples the tracker reports; the frame becomes the
      log's last frame. */
  method ProcessFrame(world: WorldState, log: EventLog, detections: Detections, frameNumber: int)
    requires world.Valid() && log.Valid() && (log.HasFile() ==> log.fileOpen)
    modifies world, log
    ensures world.Valid() && log.Valid()
    ensures world.knownObjects
            == UpdateObjects(old(world.knownObjects), detections, frameNumber, world.movementThreshold, LastSeenThreshold)
    ensures world.newInstancesToTrack == old(world.newInstancesToTrack)
    ensures world.interactionsToTrack == old(world.interactionsToTrack)
    ensures forall l :: Get(log.newInstanceCounts.counts, l)
                        == Get(old(log.newInstanceCounts.counts), l)
                           + (if l in world.newInstancesToTrack then CountGraduating(world.knownObjects, l) as int else 0)
    ensures ToSet(log.currentInteractions) == ToSet(Interactions(world.knownObjects, world.interactionsToTrack))
    ensures log.lastTime == frameNumber && log.fileOpen == old(log.fileOpen)
  {
    var delta := world.Update(detections, frameNumber);
    log.UpdateState(frameNumber, delta);
    forall l ensures Get(log.newInstanceCounts.counts, l)
                     == Get(old(log.newInstanceCounts.counts), l)
                        + (if l in world.newInstancesToTrack then CountGraduating(world.knownObjects, l) as int else 0)
    {
      AccumulateTotals(old(log.newInstanceCounts), delta.newInstances, l);
      NewInstancesTotals(world.knownObjects, world.newInstancesToTrack, l);
    }
  }
}
