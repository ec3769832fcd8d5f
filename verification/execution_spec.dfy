/** The tour-execution state machine as values: store queries over the execution and
    key-point collections, and the proximity step of `CheckProximity`
    (services/tour-service/internal/handlers/tour_handler.go:697-750). */
module ExecutionSpec {
  import opened Wrappers
  import opened ObjectIds
  import opened TourModels

  /** The haversine distance in metres, left abstract: only the comparison with the
      threshold matters to the engine. */
  type DistanceFn = (real, real, real, real) -> real

  const ProximityThreshold: real := 50.0

  // ---------- key points ----------

  /** `GetKeyPointsByTourID`: the key points of one tour, in store order. */
  function KeyPointsOf(kps: seq<KeyPoint>, tourId: ObjectId): (r: seq<KeyPoint>)
    ensures |r| <= |kps|
    ensures forall k :: 0 <= k < |r| ==> r[k].tourId == tourId && r[k] in kps
    ensures forall kp :: kp in kps && kp.tourId == tourId ==> kp in r
  {
    if kps == [] then []
    else
      var rest := KeyPointsOf(kps[1..], tourId);
      assert forall kp :: kp in kps ==> kp == kps[0] || kp in kps[1..];
      (if kps[0].tourId == tourId then [kps[0]] else []) + rest
  }

  /** The query keeps store order: the key points of a tour in two stretches of the
      collection are those of the first stretch followed by those of the second. */
  lemma {:induction false} KeyPointsOfAppend(a: seq<KeyPoint>, b: seq<KeyPoint>, tourId: ObjectId)
    ensures KeyPointsOf(a + b, tourId) == KeyPointsOf(a, tourId) + KeyPointsOf(b, tourId)
  {
    if a == [] {
      assert a + b == b;
    } else {
      assert (a + b)[1..] == a[1..] + b;
      KeyPointsOfAppend(a[1..], b, tourId);
    }
  }

  /** A key point stored last comes last among its tour's key points and leaves every
      other tour's list as it was. */
  lemma KeyPointsOfSnoc(kps: seq<KeyPoint>, kp: KeyPoint, tourId: ObjectId)
    ensures KeyPointsOf(kps + [kp], tourId) ==
      KeyPointsOf(kps, tourId) + (if kp.tourId == tourId then [kp] else [])
  {
    KeyPointsOfAppend(kps, [kp], tourId);
    assert [kp][1..] == [];
  }

  // ---------- completed key points ----------

  predicate IsCompleted(done: seq<CompletedKeypoint>, keypointId: ObjectId) {
    exists k :: 0 <= k < |done| && done[k].keypointId == keypointId
  }

  predicate DistinctCompleted(done: seq<CompletedKeypoint>) {
    forall i, j :: 0 <= i < j < |done| ==> done[i].keypointId != done[j].keypointId
  }

  /** A key point the tourist has reached on this poll: not yet completed and within 50 m. */
  predicate Reached(kp: KeyPoint, done: seq<CompletedKeypoint>, lat: real, lon: real, distance: DistanceFn) {
    !IsCompleted(done, kp.id) && distance(lat, lon, kp.latitude, kp.longitude) <= ProximityThreshold
  }

  /** The first reached key point at or after `from`, in store order (not the nearest). */
  function FirstReached(kps: seq<KeyPoint>, done: seq<CompletedKeypoint>, lat: real, lon: real,
                        distance: DistanceFn, from: nat): (r: Option<nat>)
    requires from <= |kps|
    decreases |kps| - from
    ensures r.Some? ==> from <= r.value < |kps| && Reached(kps[r.value], done, lat, lon, distance)
    ensures forall j :: from <= j < (if r.Some? then r.value else |kps|) ==>
              !Reached(kps[j], done, lat, lon, distance)
  {
    if from == |kps| then None
    else if Reached(kps[from], done, lat, lon, distance) then Some(from)
    else FirstReached(kps, done, lat, lon, distance, from + 1)
  }

  datatype ProximityReport = NotNear | Near(keypoint: KeyPoint, distance: real)

  /** One proximity poll on an execution owned by the caller: mark the first reached key
      point, if any, and refresh the last activity. The status is not consulted. */
  function Poll(e: TourExecution, kps: seq<KeyPoint>, lat: real, lon: real, now: Time,
                distance: DistanceFn): (r: (TourExecution, ProximityReport))
    ensures r.0 == e.(completedKeypoints := r.0.completedKeypoints, lastActivity := now)
    ensures |e.completedKeypoints| <= |r.0.completedKeypoints| <= |e.completedKeypoints| + 1
    ensures r.0.completedKeypoints[..|e.completedKeypoints|] == e.completedKeypoints
    ensures r.1.NotNear? <==> r.0.completedKeypoints == e.completedKeypoints
    ensures r.1.NotNear? ==> forall kp :: kp in kps ==> !Reached(kp, e.completedKeypoints, lat, lon, distance)
    ensures r.1.Near? ==>
              && r.1.keypoint in kps
              && !IsCompleted(e.completedKeypoints, r.1.keypoint.id)
              && r.1.distance <= ProximityThreshold
              && r.0.completedKeypoints == e.completedKeypoints + [CompletedKeypoint(r.1.keypoint.id, now)]
    ensures r.1.Near? <==> FirstReached(kps, e.completedKeypoints, lat, lon, distance, 0).Some?
    ensures r.1.Near? ==> r.1.keypoint == kps[FirstReached(kps, e.completedKeypoints, lat, lon, distance, 0).value]
    ensures DistinctCompleted(e.completedKeypoints) ==> DistinctCompleted(r.0.completedKeypoints)
  {
    var hit := FirstReached(kps, e.completedKeypoints, lat, lon, distance, 0);
    if hit.None? then
      assert forall kp :: kp in kps ==> !Reached(kp, e.completedKeypoints, lat, lon, distance) by {
        forall kp | kp in kps ensures !Reached(kp, e.completedKeypoints, lat, lon, distance) {
          var j :| 0 <= j < |kps| && kps[j] == kp;
        }
      }
      (e.(lastActivity := now), NotNear)
    else
      var kp := kps[hit.value];
      var done := e.completedKeypoints + [CompletedKeypoint(kp.id, now)];
      assert done[..|e.completedKeypoints|] == e.completedKeypoints;
      (e.(completedKeypoints := done, lastActivity := now),
       Near(kp, distance(lat, lon, kp.latitude, kp.longitude)))
  }

  datatype PollRequest = PollRequest(lat: real, lon: real, now: Time)

  /** A sequence of polls on the same execution, as the client's timer issues them. */
  function PollAll(e: TourExecution, kps: seq<KeyPoint>, reqs: seq<PollRequest>, distance: DistanceFn): TourExecution
    decreases |reqs|
  {
    if reqs == [] then e
    else PollAll(Poll(e, kps, reqs[0].lat, reqs[0].lon, reqs[0].now, distance).0, kps, reqs[1..], distance)
  }

  /** However often and from wherever the tourist polls, no key point is completed twice,
      earlier completions are never altered, and each poll adds at most one. */
  lemma {:induction false} PollingKeepsCompletionsUnique(e: TourExecution, kps: seq<KeyPoint>,
                                                         reqs: seq<PollRequest>, distance: DistanceFn)
    requires DistinctCompleted(e.completedKeypoints)
    decreases |reqs|
    ensures var f := PollAll(e, kps, reqs, distance);
      && DistinctCompleted(f.completedKeypoints)
      && |e.completedKeypoints| <= |f.completedKeypoints| <= |e.completedKeypoints| + |reqs|
      && f.completedKeypoints[..|e.completedKeypoints|] == e.completedKeypoints
      && f.status == e.status && f.touristId == e.touristId && f.tourId == e.tourId
  {
    if reqs != [] {
      var e1 := Poll(e, kps, reqs[0].lat, reqs[0].lon, reqs[0].now, distance).0;
      PollingKeepsCompletionsUnique(e1, kps, reqs[1..], distance);
      var f := PollAll(e1, kps, reqs[1..], distance);
      assert f.completedKeypoints[..|e1.completedKeypoints|] == e1.completedKeypoints;
      assert f.completedKeypoints[..|e.completedKeypoints|]
          == e1.completedKeypoints[..|e.completedKeypoints|];
    }
  }

  /** Every key point of the tour is marked at most once: after it is completed, no later
      poll reports it again. */
  lemma {:induction false} CompletedKeypointNotReported(e: TourExecution, kps: seq<KeyPoint>, lat: real, lon: real,
                                                        now: Time, distance: DistanceFn, kp: KeyPoint)
    requires IsCompleted(e.completedKeypoints, kp.id)
    ensures var r := Poll(e, kps, lat, lon, now, distance);
      r.1.Near? ==> r.1.keypoint.id != kp.id
  {
  }

  // ---------- the execution collection ----------

  predicate IsActiveFor(e: TourExecution, touristId: UserId, tourId: ObjectId) {
    e.touristId == touristId && e.tourId == tourId && e.status == Active
  }

  /** `GetExecution`: the record with this id (`FindOne` takes the first match). */
  function FindExecution(execs: seq<TourExecution>, id: ObjectId, from: nat): (r: Option<nat>)
    requires from <= |execs|
    decreases |execs| - from
    ensures r.Some? ==> from <= r.value < |execs| && execs[r.value].id == id
    ensures forall j :: from <= j < (if r.Some? then r.value else |execs|) ==> execs[j].id != id
  {
    if from == |execs| then None
    else if execs[from].id == id then Some(from)
    else FindExecution(execs, id, from + 1)
  }

  /** `GetActiveExecution`: the first active execution of this tourist on this tour. */
  function FindActive(execs: seq<TourExecution>, touristId: UserId, tourId: ObjectId, from: nat): (r: Option<nat>)
    requires from <= |execs|
    decreases |execs| - from
    ensures r.Some? ==> from <= r.value < |execs| && IsActiveFor(execs[r.value], touristId, tourId)
    ensures forall j :: from <= j < (if r.Some? then r.value else |execs|) ==>
              !IsActiveFor(execs[j], touristId, tourId)
  {
    if from == |execs| then None
    else if IsActiveFor(execs[from], touristId, tourId) then Some(from)
    else FindActive(execs, touristId, tourId, from + 1)
  }

  /** `GetExecutionsByTouristID`: the tourist's active executions, in store order. */
  function ActiveOf(execs: seq<TourExecution>, touristId: UserId): (r: seq<TourExecution>)
    ensures forall k :: 0 <= k < |r| ==> r[k].touristId == touristId && r[k].status == Active && r[k] in execs
    ensures forall e :: e in execs && e.touristId == touristId && e.status == Active ==> e in r
  {
    if execs == [] then []
    else
      var rest := ActiveOf(execs[1..], touristId);
      assert forall e :: e in execs && e != execs[0] ==> e in execs[1..];
      (if execs[0].touristId == touristId && execs[0].status == Active then [execs[0]] else []) + rest
  }

  /** Execution ids are unique in the collection. */
  predicate DistinctIds(execs: seq<TourExecution>) {
    forall i, j :: 0 <= i < j < |execs| ==> execs[i].id != execs[j].id
  }

  /** At most one active execution per (tourist, tour): starting again must continue it. */
  predicate SingleActive(execs: seq<TourExecution>) {
    forall i, j :: 0 <= i < j < |execs| && execs[i].status == Active && execs[j].status == Active ==>
      execs[i].touristId != execs[j].touristId || execs[i].tourId != execs[j].tourId
  }

  predicate AllCompletionsDistinct(execs: seq<TourExecution>) {
    forall k :: 0 <= k < |execs| ==> DistinctCompleted(execs[k].completedKeypoints)
  }

  /** `next` is a later state of the run `prev`: same tourist and tour, and not active
      again once it has ended. */
  predicate SameRun(prev: TourExecution, next: TourExecution) {
    next.touristId == prev.touristId && next.tourId == prev.tourId && (next.status == Active ==> prev.status == Active)
  }

  /** Replacing one record by a later state of the same run keeps at most one active
      execution per pair. */
  lemma ReplaceKeepsSingleActive(execs: seq<TourExecution>, i: nat, e: TourExecution)
    requires SingleActive(execs) && i < |execs|
    requires SameRun(execs[i], e)
    ensures SingleActive(execs[i := e])
  {
  }

  /** Appending a new active execution for a pair that has none keeps one active per pair. */
  lemma {:induction false} AppendKeepsSingleActive(execs: seq<TourExecution>, e: TourExecution)
    requires SingleActive(execs)
    requires FindActive(execs, e.touristId, e.tourId, 0).None?
    ensures SingleActive(execs + [e])
  {
    var all := execs + [e];
    forall i, j | 0 <= i < j < |all| && all[i].status == Active && all[j].status == Active
      ensures all[i].touristId != all[j].touristId || all[i].tourId != all[j].tourId
    {
      if j == |execs| {
        assert !IsActiveFor(execs[i], e.touristId, e.tourId);
      }
    }
  }

  /** `CompleteTour` and `AbandonTour` once the id has parsed: an unknown id or another
      tourist's execution fails and changes nothing; otherwise the execution, whatever its
      status, gets the final status, the end time and a fresh last activity, and keeps its
      completed key points. */
  function EndRun(execs: seq<TourExecution>, id: ObjectId, touristId: UserId, final: ExecutionStatus, now: Time)
    : (r: (Result<TourExecution, TourError>, seq<TourExecution>))
    ensures r.0.Failure? ==> r.1 == execs
    ensures r.0.Success? ==> && r.0.value.status == final && r.0.value.completedAt == Some(now)
                             && r.0.value.touristId == touristId && r.0.value.id == id && r.0.value in r.1
    ensures |r.1| == |execs|
    ensures FindExecution(execs, id, 0).None? ==> r.0 == Failure(ExecutionNotFound)
    ensures var i := FindExecution(execs, id, 0);
      i.Some? && execs[i.value].touristId == touristId ==>
        r.0 == Success(execs[i.value].(status := final, completedAt := Some(now), lastActivity := now))
    ensures FindExecution(execs, id, 0).Some? ==>
      var i := FindExecution(execs, id, 0).value;
      && (execs[i].touristId != touristId <==> r.0 == Failure(Unauthorized))
      && (r.0.Success? ==> && r.1[i] == r.0.value && r.0.value.tourId == execs[i].tourId
                           && r.0.value.completedKeypoints == execs[i].completedKeypoints)
      && (forall k :: 0 <= k < |execs| && k != i ==> r.1[k] == execs[k])
  {
    var i := FindExecution(execs, id, 0);
    if i.None? then (Failure(ExecutionNotFound), execs)
    else if execs[i.value].touristId != touristId then (Failure(Unauthorized), execs)
    else
      var e := execs[i.value].(status := final, completedAt := Some(now), lastActivity := now);
      var after := execs[i.value := e];
      assert after[i.value] == e;
      (Success(e), after)
  }

  /** Ending a run keeps at most one active execution per pair and keeps every
      execution's completions free of duplicates. */
  lemma EndRunKeepsInvariants(execs: seq<TourExecution>, id: ObjectId, touristId: UserId, final: ExecutionStatus, now: Time)
    requires final != Active
    requires SingleActive(execs) && AllCompletionsDistinct(execs)
    ensures var after := EndRun(execs, id, touristId, final, now).1;
      SingleActive(after) && AllCompletionsDistinct(after)
  {
    var i := FindExecution(execs, id, 0);
    if i.Some? && execs[i.value].touristId == touristId {
      var e := execs[i.value].(status := final, completedAt := Some(now), lastActivity := now);
      ReplaceKeepsSingleActive(execs, i.value, e);
      assert DistinctCompleted(execs[i.value].completedKeypoints);
    }
  }

  /** The owner ending their active run of a tour succeeds, and afterwards no active
      execution of that pair is left, so the next start creates a new one. */
  lemma {:induction false} EndRunClosesPair(execs: seq<TourExecution>, id: ObjectId, touristId: UserId,
                                            final: ExecutionStatus, now: Time)
    requires final != Active && SingleActive(execs)
    requires FindExecution(execs, id, 0).Some?
    requires execs[FindExecution(execs, id, 0).value].touristId == touristId
    requires execs[FindExecution(execs, id, 0).value].status == Active
    ensures EndRun(execs, id, touristId, final, now).0.Success?
    ensures var tourId := EndRun(execs, id, touristId, final, now).0.value.tourId;
      FindActive(EndRun(execs, id, touristId, final, now).1, touristId, tourId, 0).None?
  {
    var i := FindExecution(execs, id, 0).value;
    var r := EndRun(execs, id, touristId, final, now);
    var after := r.1;
    var tourId := r.0.value.tourId;
    assert IsActiveFor(execs[i], touristId, tourId);
    forall k | 0 <= k < |after|
      ensures !IsActiveFor(after[k], touristId, tourId)
    {
      if k != i {
        assert after[k] == execs[k];
      }
    }
  }
}
