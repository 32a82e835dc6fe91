/**
 * The per-image progress table of one user's active set: how it is seeded
 * from the set's image list and how the skip, hint and complete transitions
 * change it.
 */
module Images {
  import opened Wrappers

  type ImgId = int
  type SetId = int

  /** One image of a set as the catalogue lists it. */
  datatype Img = Img(id: ImgId, seqNo: int)

  /** A set as handed to the tracker: its id, its images and its time limit in seconds. */
  datatype ImageSet = ImageSet(id: SetId, imgs: seq<Img>, timeLimit: int)

  /** The progress record kept for one image. */
  datatype Progress = Progress(seqNo: int, skipped: bool, completed: bool, hinted: bool, evidenceId: Option<ImgId>)

  /** The image table of an instance, keyed by image id. */
  type Table = map<ImgId, Progress>

  /** The record an image starts with: its sequence number and every flag cleared. */
  function Unstarted(seqNo: int): Progress
  {
    Progress(seqNo, false, false, false, None)
  }

  predicate Untouched(p: Progress)
  {
    !p.skipped && !p.completed && !p.hinted && p.evidenceId == None
  }

  /** An image is handled once it is skipped or completed. */
  predicate Handled(p: Progress)
  {
    p.skipped || p.completed
  }

  function Ids(imgs: seq<Img>): set<ImgId>
  {
    set i | 0 <= i < |imgs| :: imgs[i].id
  }

  /**
   * The table the seeding loop leaves behind: every image of the list is
   * written in order, so a later image with a repeated id overwrites an
   * earlier one. Every record it holds starts with all flags false and no
   * evidence.
   */
  function SeedTable(imgs: seq<Img>): (r: Table)
    ensures forall k :: k in r ==> Untouched(r[k])
    decreases |imgs|
  {
    if imgs == [] then map[]
    else SeedTable(imgs[..|imgs| - 1])[imgs[|imgs| - 1].id := Unstarted(imgs[|imgs| - 1].seqNo)]
  }

  /** Builds the image table of a new instance with the source's loop over the set's images. */
  method BuildImageTable(imgs: seq<Img>) returns (table: Table)
    ensures table == SeedTable(imgs)
    ensures table.Keys == Ids(imgs)
    ensures forall k :: k in table ==> Untouched(table[k])
  {
    table := map[];
    for i := 0 to |imgs|
      invariant table == SeedTable(imgs[..i])
    {
      assert imgs[..i + 1][..i] == imgs[..i];
      table := table[imgs[i].id := Unstarted(imgs[i].seqNo)];
    }
    assert imgs[..|imgs|] == imgs;
    SeedTableKeys(imgs);
  }

  /** The seeded table has exactly one key per distinct image id of the set. */
  lemma {:induction false} SeedTableKeys(imgs: seq<Img>)
    ensures SeedTable(imgs).Keys == Ids(imgs)
  {
    if imgs != [] {
      var init := imgs[..|imgs| - 1];
      SeedTableKeys(init);
      forall x | x in Ids(imgs) ensures x in Ids(init) + {imgs[|imgs| - 1].id} {
        var i :| 0 <= i < |imgs| && imgs[i].id == x;
        if i < |imgs| - 1 {
          assert init[i] == imgs[i];
        }
      }
      forall x | x in Ids(init) ensures x in Ids(imgs) {
        var i :| 0 <= i < |init| && init[i].id == x;
        assert imgs[i] == init[i];
      }
    }
  }

  /**
   * An image whose id does not occur later in the list keeps its own
   * sequence number in the seeded table.
   */
  lemma {:induction false} SeedTableSeqNo(imgs: seq<Img>, j: nat)
    requires j < |imgs|
    requires forall j' :: j < j' < |imgs| ==> imgs[j'].id != imgs[j].id
    ensures imgs[j].id in SeedTable(imgs)
    ensures SeedTable(imgs)[imgs[j].id] == Unstarted(imgs[j].seqNo)
  {
    if j < |imgs| - 1 {
      var init := imgs[..|imgs| - 1];
      assert init[j] == imgs[j];
      SeedTableSeqNo(init, j);
    }
  }

  predicate DistinctIds(imgs: seq<Img>)
  {
    forall i, j :: 0 <= i < j < |imgs| ==> imgs[i].id != imgs[j].id
  }

  /** With distinct ids, every image of the set is seeded with its own sequence number. */
  lemma {:induction false} SeedTableDistinct(imgs: seq<Img>)
    requires DistinctIds(imgs)
    ensures forall j :: 0 <= j < |imgs| ==> imgs[j].id in SeedTable(imgs) && SeedTable(imgs)[imgs[j].id] == Unstarted(imgs[j].seqNo)
  {
    forall j | 0 <= j < |imgs|
      ensures imgs[j].id in SeedTable(imgs) && SeedTable(imgs)[imgs[j].id] == Unstarted(imgs[j].seqNo)
    {
      SeedTableSeqNo(imgs, j);
    }
  }

  /** Sets `skipped` on one image; no key is added or removed and nothing else changes. */
  function Skip(t: Table, id: ImgId): (r: Table)
    requires id in t
    ensures r.Keys == t.Keys
    ensures forall k :: k in t && k != id ==> r[k] == t[k]
    ensures r[id].skipped
    ensures r[id].seqNo == t[id].seqNo && r[id].completed == t[id].completed
    ensures r[id].hinted == t[id].hinted && r[id].evidenceId == t[id].evidenceId
  {
    t[id := t[id].(skipped := true)]
  }

  /** Sets `hinted` on one image; no key is added or removed and nothing else changes. */
  function Hint(t: Table, id: ImgId): (r: Table)
    requires id in t
    ensures r.Keys == t.Keys
    ensures forall k :: k in t && k != id ==> r[k] == t[k]
    ensures r[id].hinted
    ensures r[id].seqNo == t[id].seqNo && r[id].skipped == t[id].skipped
    ensures r[id].completed == t[id].completed && r[id].evidenceId == t[id].evidenceId
  {
    t[id := t[id].(hinted := true)]
  }

  /**
   * Completes the image whose key is the evidence id itself (the source looks
   * the record up by `evidenceId`) and stores that id as its evidence.
   */
  function Complete(t: Table, evidenceId: ImgId): (r: Table)
    requires evidenceId in t
    ensures r.Keys == t.Keys
    ensures forall k :: k in t && k != evidenceId ==> r[k] == t[k]
    ensures r[evidenceId].completed && r[evidenceId].evidenceId == Some(evidenceId)
    ensures r[evidenceId].seqNo == t[evidenceId].seqNo
    ensures r[evidenceId].skipped == t[evidenceId].skipped && r[evidenceId].hinted == t[evidenceId].hinted
  {
    t[evidenceId := t[evidenceId].(completed := true, evidenceId := Some(evidenceId))]
  }

  /** One call of a transition, named by the argument the source passes. */
  datatype Transition = SkipImg(img: ImgId) | HintImg(img: ImgId) | CompleteImg(evidence: ImgId)

  function Target(s: Transition): ImgId
  {
    match s
    case SkipImg(i) => i
    case HintImg(i) => i
    case CompleteImg(e) => e
  }

  /** A transition on a key that is not in the table fails and leaves the table as it was. */
  function Apply(t: Table, s: Transition): Table
  {
    if Target(s) !in t then t
    else match s
      case SkipImg(i) => Skip(t, i)
      case HintImg(i) => Hint(t, i)
      case CompleteImg(e) => Complete(t, e)
  }

  /** The table after a sequence of transition calls, in order. */
  function Run(t: Table, steps: seq<Transition>): Table
    decreases |steps|
  {
    if steps == [] then t else Run(Apply(t, steps[0]), steps[1..])
  }

  /**
   * Under any sequence of transitions the keys stay fixed, every sequence
   * number stays fixed, and a handled or hinted image stays so.
   */
  lemma {:induction false} RunKeepsShape(t: Table, steps: seq<Transition>)
    ensures Run(t, steps).Keys == t.Keys
    ensures forall k :: k in t ==> Run(t, steps)[k].seqNo == t[k].seqNo
    ensures forall k :: k in t && Handled(t[k]) ==> Handled(Run(t, steps)[k])
    ensures forall k :: k in t && t[k].hinted ==> Run(t, steps)[k].hinted
    decreases |steps|
  {
    if steps != [] {
      RunKeepsShape(Apply(t, steps[0]), steps[1..]);
    }
  }

  /**
   * A record carries evidence only when it is completed, and the evidence it
   * carries is its own key: what `completeImg` writes.
   */
  ghost predicate EvidenceConsistent(t: Table)
  {
    forall k :: k in t && t[k].evidenceId.Some? ==> t[k].completed && t[k].evidenceId.value == k
  }

  lemma SeedTableConsistent(imgs: seq<Img>)
    ensures EvidenceConsistent(SeedTable(imgs))
  {
  }

  /** No sequence of transitions breaks the evidence invariant. */
  lemma {:induction false} RunConsistent(t: Table, steps: seq<Transition>)
    requires EvidenceConsistent(t)
    ensures EvidenceConsistent(Run(t, steps))
    decreases |steps|
  {
    if steps != [] {
      var t' := Apply(t, steps[0]);
      assert EvidenceConsistent(t');
      RunConsistent(t', steps[1..]);
    }
  }

  /**
   * The transitions do not keep `skipped` and `completed` exclusive: skipping
   * and then completing the same image leaves both set.
   */
  lemma SkipThenCompleteSetsBoth(t: Table, id: ImgId)
    requires id in t
    ensures Complete(Skip(t, id), id)[id].skipped && Complete(Skip(t, id), id)[id].completed
    ensures Skip(Complete(t, id), id)[id].skipped && Skip(Complete(t, id), id)[id].completed
  {
  }
}
