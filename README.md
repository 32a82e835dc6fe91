# Set-progress tracker

A Dafny model of the in-memory set tracker of the TOUCHGRASS service
(`src/config/setTracker.js`). The tracker is a process-wide table keyed by
user id. Each entry is one user's active set: the set id, a start and an end
timestamp, and one progress record per image of the set (`seq_no`,
`skipped`, `completed`, `hinted`, `evidence_id`). Users start a set, skip,
hint or complete its images, ask whether an image is unlocked (every image
with a lower sequence number skipped or completed) and ask whether the set
has run out of time.

Layout:

- `wrappers.dfy` (module `Wrappers`): `Option`, `Result` and `Outcome`.
- `images.dfy` (module `Images`): the progress record, the seeding of an
  image table from a set's image list (`SeedTable`, built by the method
  `BuildImageTable` with the source's loop), the three transitions as
  functions on a table, the `Transition` datatype with `Apply`/`Run` for
  sequences of calls, and the evidence invariant they keep.
- `access.dfy` (module `Access`): the sequential-unlock rule `Accessible`
  and what follows from it.
- `tracker.dfy` (module `Tracker`): the `Instance` record, the deadline test
  `TimedOut`, and the class `SetTracker`, whose field `instances` is the
  tracker's table. Its methods change that map in place (`modifies this`) and
  state the whole new map in terms of the old one and the functions above.
  `SequentialUnlockScenario` is a client that drives the class through a
  three-image set.

Modelling choices:

- The clock is a parameter `now` (milliseconds). `startInstance` reads
  `Date.now()` twice; the model takes both `start` and `end` from one reading.
- What the source throws becomes a returned `TrackerError`: `AlreadyStarted`
  for a second start, `NotStarted` when the user has no entry, and
  `NoSuchImage` where the source would fail with a `TypeError` on a missing
  image key. A failed call leaves the table unchanged, as in the source,
  which throws before it writes anything.
- `completeImg(userId, evidenceId)` looks the image record up by
  `evidenceId` itself and stores that same id as the evidence. The model
  keeps this: `Images.Complete` completes the record keyed by the evidence
  id, and the invariant `EvidenceConsistent` says every stored evidence id
  equals its record's key.
- If a set lists an image id twice, the seeding loop overwrites the
  earlier record. `SeedTable` is defined on the last element for this reason.
- The deadline test is a strict `now > end`, as in the code, so a set is not
  timed out at its end time itself. A set that counts as timed out from its
  end time on would test `now >= end`; the model keeps the code's `>`.
- One might expect skip to apply only to images that are not completed, and
  complete only to images that are not skipped. The code has no such guard,
  and the model has none either. `SkipThenCompleteSetsBoth` shows that both
  flags can end up set.
- `SetTracker.Valid()` is an invariant the constructor establishes and every
  method keeps: each stored evidence id sits on a completed record and equals
  that record's key. `GetInstance` passes it on to callers for the instance
  it returns.

## Model

| member | source | states |
|---|---|---|
| `Images.BuildImageTable` | src/config/setTracker.js:15-24 | the loop builds exactly the seeded table: one key per image id of the set, every record with all flags false and no evidence |
| `Images.SeedTableKeys` | src/config/setTracker.js:16-17 | the seeded table's keys are exactly the ids of the set's images |
| `Images.SeedTable` | src/config/setTracker.js:15-24 | the table the seeding loop leaves, written in list order (last write wins); every record has `skipped`, `completed`, `hinted` false and evidence `null` |
| `Images.SeedTableSeqNo` | src/config/setTracker.js:16-18 | an image whose id does not recur later in the list is seeded with its own `seq_no` (the last write wins) |
| `Images.SeedTableDistinct` | src/config/setTracker.js:16-18 | when the set's image ids are distinct, every image's record carries that image's `seq_no` |
| `Images.SeedTableConsistent` | src/config/setTracker.js:22 | a seeded table meets the evidence invariant |
| `Images.Skip` | src/config/setTracker.js:51 | skipping sets `skipped` on that one record; keys, the other flags, other records unchanged |
| `Images.Hint` | src/config/setTracker.js:56 | hinting sets `hinted` on that one record; keys, the other flags, other records unchanged |
| `Images.Complete` | src/config/setTracker.js:45-46 | completing sets `completed` and evidence = the evidence id on the record keyed by that id; nothing else changes |
| `Images.RunKeepsShape` | src/config/setTracker.js:43-57 | under any sequence of transitions keys and sequence numbers are fixed, and handled or hinted records stay so |
| `Images.RunConsistent` | src/config/setTracker.js:43-57 | any sequence of transitions preserves the evidence invariant (evidence set only on completed records, equal to their key) |
| `Images.SkipThenCompleteSetsBoth` | src/config/setTracker.js:43-52 | skip and complete, in either order, on one image leave both `skipped` and `completed` set: no mutual-exclusion guard |
| `Access.Accessible` | src/config/setTracker.js:62-71 | the unlock rule: every image with a lower `seq_no` is skipped or completed; the image with the least `seq_no` is always accessible |
| `Access.AccessDependsOnlyOnHandled` | src/config/setTracker.js:62-71 | two tables with the same keys, sequence numbers and handled flags agree on every image's accessibility: `hinted` and evidence are never read |
| `Access.SomeImageAccessible` | src/config/setTracker.js:62-71 | a table with at least one image has an accessible image |
| `Access.NextImageAccessible` | src/config/setTracker.js:62-71 | while an image is unhandled, some unhandled image is accessible |
| `Access.AccessIgnoresHinted` | src/config/setTracker.js:56-71 | hinting an image never changes whether any image is accessible |
| `Access.ApplyKeepsAccess` | src/config/setTracker.js:43-71 | no single skip, hint or complete makes an accessible image inaccessible |
| `Access.RunKeepsAccess` | src/config/setTracker.js:43-71 | no sequence of transitions makes an accessible image inaccessible |
| `Access.ThreeImageWalkthrough` | src/config/setTracker.js:15-71 | images 1, 2, 3: only 1 open at the start; skipping 1 opens 2 but not 3; completing 2 opens 3 |
| `Tracker.NewInstance` | src/config/setTracker.js:25-30 | a new instance has the set's id, starts at `now`, ends `time_limit * 1000` later, has one untouched record per image id, and meets the evidence invariant |
| `Tracker.TimedOut` | src/config/setTracker.js:35 | true iff `now` is strictly after `end` |
| `Tracker.Lookup` | src/config/setTracker.js:39-62 | the error a call meets: `NotStarted` iff the user has no entry (source 39), `NoSuchImage` iff the entry lacks the image key (source 45, 51, 56, 62), success otherwise |
| `Tracker.NewInstanceNotTimedOut` | src/config/setTracker.js:28-35 | with a non-negative time limit a new instance is not timed out at its start |
| `Tracker.TimedOutMonotone` | src/config/setTracker.js:35 | once timed out, an instance stays timed out as `now` advances |
| `Tracker.TimedOutIgnoresImages` | src/config/setTracker.js:35 | the deadline test does not depend on image state |
| `Tracker.TimedOutStrictlyAfterEnd` | src/config/setTracker.js:35 | the test is strict: false at `end`, true at `end + 1` |
| `Tracker.SetTracker.constructor` | src/config/setTracker.js:3 | the tracker starts with no entries |
| `Tracker.SetTracker.ClearInstance` | src/config/setTracker.js:5-7 | removes only that user's entry, never fails, and is idempotent; afterwards `HasInstance` is false |
| `Tracker.SetTracker.StartInstance` | src/config/setTracker.js:13-31 | refuses with `AlreadyStarted`, changing nothing, when the user has an entry; otherwise adds exactly the new instance, leaves other users unchanged, and `HasInstance` holds after |
| `Tracker.SetTracker.HasInstance` | src/config/setTracker.js:9-11 | true iff the user has an entry |
| `Tracker.SetTracker.GetInstance` | src/config/setTracker.js:38-41 | returns the user's entry when `HasInstance` holds, `NotStarted` otherwise; the returned instance meets the evidence invariant |
| `Tracker.SetTracker.InstanceTimedOut` | src/config/setTracker.js:33-36 | `NotStarted` without an entry; otherwise true iff `now > end` |
| `Tracker.SetTracker.CompleteImg` | src/config/setTracker.js:43-47 | `NotStarted` / `NoSuchImage` with nothing changed; otherwise completes the record keyed by the evidence id of that user only |
| `Tracker.SetTracker.SkipImg` | src/config/setTracker.js:49-52 | `NotStarted` / `NoSuchImage` with nothing changed; otherwise skips that record of that user only |
| `Tracker.SetTracker.HintImg` | src/config/setTracker.js:54-57 | `NotStarted` / `NoSuchImage` with nothing changed; otherwise hints that record of that user only |
| `Tracker.SetTracker.CanAccessImage` | src/config/setTracker.js:59-72 | `NotStarted` / `NoSuchImage` errors; otherwise true iff every image with a lower `seq_no` is skipped or completed; changes nothing |

## Left out

- The wall clock: `Date.now()` is the parameter `now`. The two readings in `startInstance` are taken as one.
- Concurrency: the source is single-threaded JavaScript with no locking; the model is sequential.
- JavaScript numbers are doubles; timestamps and `time_limit * 1000` are unbounded integers here.
- Ids are integers. JavaScript coerces keys to strings, and `in` also sees inherited keys such as `toString`; neither is modelled.
- `getInstance` returns a live reference to the stored entry, which a caller could mutate; the model returns a value, so that aliasing is not captured.
- The finish-set workflow, image and hint endpoints and outcome submission are unimplemented stubs in `src/routes/sets.js` and `src/routes/imgs.js`, so there is no behaviour to model.
- Authentication, password hashing, token signing, the database and the HTTP framework wiring (`src/routes/auth.js`, `src/middleware/auth.js`, `src/config/database.js`, `src/index.js`, `src/routes/index.js`, `src/middleware/errorCatcher.js`) are I/O and calls into foreign libraries, and are not part of this model.
