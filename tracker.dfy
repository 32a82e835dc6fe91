/**
 * The process-wide set tracker: at most one active instance per user, each
 * holding the chosen set, its image table and its start and end times.
 * The clock is an explicit `now` argument in milliseconds.
 */
module Tracker {
  import opened Wrappers
  import opened Images
  import opened Access

  type UserId = int

  /** Milliseconds since the epoch, the unit of `Date.now()`. */
  type Timestamp = int

  /** One user's active set. */
  datatype Instance = Instance(setId: SetId, imgs: Table, start: Timestamp, end: Timestamp)

  /** What the tracker throws: a second start, a missing instance, or a missing image key. */
  datatype TrackerError = AlreadyStarted | NotStarted | NoSuchImage

  /**
   * The instance recorded for `chosen` when the clock reads `now`; the time
   * limit is in seconds. It is for the chosen set, starts now, ends the time
   * limit later, and has one untouched record per image id of the set.
   */
  function NewInstance(chosen: ImageSet, now: Timestamp): (r: Instance)
    ensures r.setId == chosen.id && r.start == now
    ensures r.end - r.start == chosen.timeLimit * 1000
    ensures r.imgs.Keys == Ids(chosen.imgs)
    ensures forall k :: k in r.imgs ==> Untouched(r.imgs[k])
    ensures EvidenceConsistent(r.imgs)
  {
    SeedTableKeys(chosen.imgs);
    Instance(chosen.id, SeedTable(chosen.imgs), now, now + chosen.timeLimit * 1000)
  }

  /** The deadline test: strictly after `end`, so not yet at `end` itself. */
  predicate TimedOut(inst: Instance, now: Timestamp)
    ensures TimedOut(inst, now) <==> inst.end < now
  {
    now > inst.end
  }

  /** Once timed out, an instance stays timed out as the clock advances. */
  lemma TimedOutMonotone(inst: Instance, now: Timestamp, later: Timestamp)
    requires now <= later && TimedOut(inst, now)
    ensures TimedOut(inst, later)
  {
  }

  /** The deadline test does not look at the image table. */
  lemma TimedOutIgnoresImages(inst: Instance, t: Table, now: Timestamp)
    ensures TimedOut(inst.(imgs := t), now) <==> TimedOut(inst, now)
  {
  }

  /** At the end time itself the instance has not timed out; one millisecond later it has. */
  lemma TimedOutStrictlyAfterEnd(inst: Instance)
    ensures !TimedOut(inst, inst.end) && TimedOut(inst, inst.end + 1)
  {
  }

  /** An instance with a non-negative time limit has not timed out when it starts. */
  lemma NewInstanceNotTimedOut(chosen: ImageSet, now: Timestamp)
    requires chosen.timeLimit >= 0
    ensures !TimedOut(NewInstance(chosen, now), now)
  {
  }

  /**
   * Whether a call on `key` for `userId` finds its instance and its record:
   * `NotStarted` without an instance, `NoSuchImage` without the record.
   */
  function Lookup(instances: map<UserId, Instance>, userId: UserId, key: ImgId): (r: Outcome<TrackerError>)
    ensures r.Pass? <==> userId in instances && key in instances[userId].imgs
    ensures r == Fail(NotStarted) <==> userId !in instances
    ensures r == Fail(NoSuchImage) <==> userId in instances && key !in instances[userId].imgs
  {
    if userId !in instances then Fail(NotStarted)
    else if key !in instances[userId].imgs then Fail(NoSuchImage)
    else Pass
  }

  class SetTracker {
    var instances: map<UserId, Instance>

    /** Every instance's evidence ids are those `completeImg` writes. */
    ghost predicate Valid()
      reads this
    {
      forall u :: u in instances ==> EvidenceConsistent(instances[u].imgs)
    }

    constructor ()
      ensures Valid() && instances == map[]
    {
      instances := map[];
    }

    /** Whether the user has an entry. */
    predicate HasInstance(userId: UserId)
      reads this
      ensures HasInstance(userId) <==> userId in instances.Keys
    {
      userId in instances
    }

    /** Removes the user's instance if there is one; never fails. */
    method ClearInstance(userId: UserId)
      requires Valid()
      modifies this
      ensures Valid()
      ensures instances == old(instances) - {userId}
      ensures !HasInstance(userId)
    {
      instances := instances - {userId};
    }

    /** Starts `chosen` for the user unless the user already has an instance. */
    method StartInstance(userId: UserId, chosen: ImageSet, now: Timestamp) returns (r: Outcome<TrackerError>)
      requires Valid()
      modifies this
      ensures Valid()
      ensures old(HasInstance(userId)) ==> r == Fail(AlreadyStarted) && instances == old(instances)
      ensures !old(HasInstance(userId)) ==> r == Pass && instances == old(instances)[userId := NewInstance(chosen, now)]
      ensures HasInstance(userId)
      ensures r.Pass? ==> instances[userId].imgs.Keys == Ids(chosen.imgs)
    {
      if userId in instances {
        return Fail(AlreadyStarted);
      }
      var imgs := BuildImageTable(chosen.imgs);
      SeedTableConsistent(chosen.imgs);
      instances := instances[userId := Instance(chosen.id, imgs, now, now + chosen.timeLimit * 1000)];
      r := Pass;
    }

    /** The user's instance, or `NotStarted` when there is none. */
    function GetInstance(userId: UserId): (r: Result<Instance, TrackerError>)
      reads this
      ensures r.Ok? <==> HasInstance(userId)
      ensures r.Ok? ==> r.value == instances[userId]
      ensures r.Err? ==> r.error == NotStarted
      ensures Valid() && r.Ok? ==> EvidenceConsistent(r.value.imgs)
    {
      if userId in instances then Ok(instances[userId]) else Err(NotStarted)
    }

    /** Whether the user's instance is past its end time; `NotStarted` when there is none. */
    function InstanceTimedOut(userId: UserId, now: Timestamp): (r: Result<bool, TrackerError>)
      reads this
      ensures r.Err? <==> !HasInstance(userId)
      ensures r.Err? ==> r.error == NotStarted
      ensures r.Ok? ==> (r.value <==> now > instances[userId].end)
    {
      if userId !in instances then Err(NotStarted) else Ok(TimedOut(instances[userId], now))
    }

    /**
     * Completes the image keyed by `evidenceId` and records `evidenceId` as
     * its evidence; only that record of that user changes.
     */
    method CompleteImg(userId: UserId, evidenceId: ImgId) returns (r: Outcome<TrackerError>)
      requires Valid()
      modifies this
      ensures Valid()
      ensures r == Lookup(old(instances), userId, evidenceId)
      ensures r.Fail? ==> instances == old(instances)
      ensures r.Pass? ==> instances == old(instances)[userId := old(instances)[userId].(imgs := Complete(old(instances)[userId].imgs, evidenceId))]
    {
      var found := GetInstance(userId);
      if found.Err? {
        return Fail(found.error);
      }
      var inst := found.value;
      if evidenceId !in inst.imgs {
        return Fail(NoSuchImage);
      }
      instances := instances[userId := inst.(imgs := Complete(inst.imgs, evidenceId))];
      r := Pass;
    }

    /** Skips one image of the user's instance; only that record changes. */
    method SkipImg(userId: UserId, imgId: ImgId) returns (r: Outcome<TrackerError>)
      requires Valid()
      modifies this
      ensures Valid()
      ensures r == Lookup(old(instances), userId, imgId)
      ensures r.Fail? ==> instances == old(instances)
      ensures r.Pass? ==> instances == old(instances)[userId := old(instances)[userId].(imgs := Skip(old(instances)[userId].imgs, imgId))]
    {
      var found := GetInstance(userId);
      if found.Err? {
        return Fail(found.error);
      }
      var inst := found.value;
      if imgId !in inst.imgs {
        return Fail(NoSuchImage);
      }
      instances := instances[userId := inst.(imgs := Skip(inst.imgs, imgId))];
      r := Pass;
    }

    /** Marks one image of the user's instance as hinted; only that record changes. */
    method HintImg(userId: UserId, imgId: ImgId) returns (r: Outcome<TrackerError>)
      requires Valid()
      modifies this
      ensures Valid()
      ensures r == Lookup(old(instances), userId, imgId)
      ensures r.Fail? ==> instances == old(instances)
      ensures r.Pass? ==> instances == old(instances)[userId := old(instances)[userId].(imgs := Hint(old(instances)[userId].imgs, imgId))]
    {
      var found := GetInstance(userId);
      if found.Err? {
        return Fail(found.error);
      }
      var inst := found.value;
      if imgId !in inst.imgs {
        return Fail(NoSuchImage);
      }
      instances := instances[userId := inst.(imgs := Hint(inst.imgs, imgId))];
      r := Pass;
    }

    /**
     * Whether every image ordered before `imgId` in the user's instance is
     * skipped or completed, found by scanning the table.
     */
    method CanAccessImage(userId: UserId, imgId: ImgId) returns (r: Result<bool, TrackerError>)
      ensures Lookup(instances, userId, imgId).Fail? ==> r == Err(Lookup(instances, userId, imgId).error)
      ensures Lookup(instances, userId, imgId).Pass? ==> r == Ok(Accessible(instances[userId].imgs, imgId))
    {
      if userId !in instances {
        return Err(NotStarted);
      }
      var imgs := instances[userId].imgs;
      if imgId !in imgs {
        return Err(NoSuchImage);
      }
      var seqNo := imgs[imgId].seqNo;
      var remaining := imgs.Keys;
      while exists k :: k in remaining
        invariant remaining <= imgs.Keys
        invariant forall k :: k in imgs && k !in remaining && imgs[k].seqNo < seqNo ==> Handled(imgs[k])
        decreases remaining
      {
        var k :| k in remaining;
        if imgs[k].seqNo < seqNo && !imgs[k].skipped && !imgs[k].completed {
          return Ok(false);
        }
        remaining := remaining - {k};
      }
      return Ok(true);
    }
  }

  /**
   * Three images numbered 1, 2, 3 for one user, driven through the tracker's
   * methods: a second start is refused; only image 1 is open at first;
   * skipping it opens image 2; completing image 2 opens image 3; clearing
   * twice leaves no instance and a new start is accepted.
   */
  method SequentialUnlockScenario()
  {
    var tracker := new SetTracker();
    var chosen := ImageSet(7, [Img(10, 1), Img(20, 2), Img(30, 3)], 600);
    var r := tracker.StartInstance(42, chosen, 1000);
    assert r == Pass;
    r := tracker.StartInstance(42, chosen, 2000);
    assert r == Fail(AlreadyStarted);
    ThreeImageWalkthrough();
    var a1 := tracker.CanAccessImage(42, 10);
    var a2 := tracker.CanAccessImage(42, 20);
    var a3 := tracker.CanAccessImage(42, 30);
    assert a1 == Ok(true) && a2 == Ok(false) && a3 == Ok(false);
    r := tracker.SkipImg(42, 10);
    a2 := tracker.CanAccessImage(42, 20);
    a3 := tracker.CanAccessImage(42, 30);
    assert a2 == Ok(true) && a3 == Ok(false);
    r := tracker.CompleteImg(42, 20);
    a3 := tracker.CanAccessImage(42, 30);
    assert a3 == Ok(true);
    var late := tracker.InstanceTimedOut(42, 1000 + 600 * 1000);
    assert late == Ok(false);
    tracker.ClearInstance(42);
    tracker.ClearInstance(42);
    assert !tracker.HasInstance(42);
    var missing := tracker.CanAccessImage(42, 10);
    assert missing == Err(NotStarted);
    r := tracker.StartInstance(42, chosen, 5000);
    assert r == Pass;
  }
}
