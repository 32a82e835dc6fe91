/**
 * The sequential-unlock rule: an image may be opened only once every image
 * with a lower sequence number has been skipped or completed.
 */
module Access {
  import opened Images

  /**
   * Every image of the table ordered before `id` is handled. An image with
   * the least sequence number of its table is always accessible.
   */
  ghost predicate Accessible(t: Table, id: ImgId)
    requires id in t
    ensures (forall k :: k in t ==> t[id].seqNo <= t[k].seqNo) ==> Accessible(t, id)
  {
    forall k :: k in t && t[k].seqNo < t[id].seqNo ==> Handled(t[k])
  }

  /** Every non-empty set of keys has a member with the least sequence number. */
  lemma {:induction false} LeastExists(t: Table, s: set<ImgId>, w: ImgId)
    requires w in s && s <= t.Keys
    ensures exists m :: m in s && forall k :: k in s ==> t[m].seqNo <= t[k].seqNo
    decreases |s|
  {
    var rest := s - {w};
    if y :| y in rest {
      LeastExists(t, rest, y);
      var m :| m in rest && forall k :: k in rest ==> t[m].seqNo <= t[k].seqNo;
      if t[w].seqNo <= t[m].seqNo {
        assert forall k :: k in s ==> t[w].seqNo <= t[k].seqNo;
      } else {
        assert forall k :: k in s ==> t[m].seqNo <= t[k].seqNo;
      }
    } else {
      forall k | k in s ensures k == w {
        assert k !in rest;
      }
    }
  }

  /** A table holding at least one image `w` always has an accessible image. */
  lemma SomeImageAccessible(t: Table, w: ImgId)
    requires w in t
    ensures exists id :: id in t && Accessible(t, id)
  {
    LeastExists(t, t.Keys, w);
    var m :| m in t.Keys && forall k :: k in t.Keys ==> t[m].seqNo <= t[k].seqNo;
    assert Accessible(t, m);
  }

  /**
   * While some image is unhandled, an unhandled image is accessible: the
   * unhandled image with the least sequence number.
   */
  lemma NextImageAccessible(t: Table, u: ImgId)
    requires u in t && !Handled(t[u])
    ensures exists id :: id in t && !Handled(t[id]) && Accessible(t, id)
  {
    var open := set k | k in t && !Handled(t[k]);
    assert u in open;
    LeastExists(t, open, u);
    var m :| m in open && forall k :: k in open ==> t[m].seqNo <= t[k].seqNo;
    assert Accessible(t, m) by {
      forall k | k in t && t[k].seqNo < t[m].seqNo ensures Handled(t[k]) {
        assert k in open <==> !Handled(t[k]);
      }
    }
  }

  /**
   * The rule reads only keys, sequence numbers and handled state: two tables
   * that agree on those agree on every image's accessibility, whatever their
   * `hinted` flags and evidence.
   */
  lemma AccessDependsOnlyOnHandled(t: Table, t': Table, id: ImgId)
    requires t.Keys == t'.Keys && id in t
    requires forall k :: k in t ==> t'[k].seqNo == t[k].seqNo && Handled(t'[k]) == Handled(t[k])
    ensures Accessible(t', id) <==> Accessible(t, id)
  {
  }

  /** In particular hinting an image never changes whether any image is accessible. */
  lemma AccessIgnoresHinted(t: Table, h: ImgId, id: ImgId)
    requires h in t && id in t
    ensures Accessible(Hint(t, h), id) <==> Accessible(t, id)
  {
    AccessDependsOnlyOnHandled(t, Hint(t, h), id);
  }

  /** No single transition makes an accessible image inaccessible. */
  lemma ApplyKeepsAccess(t: Table, s: Transition, id: ImgId)
    requires id in t && Accessible(t, id)
    ensures id in Apply(t, s) && Accessible(Apply(t, s), id)
  {
  }

  /** No sequence of transitions, in any order, makes an accessible image inaccessible. */
  lemma {:induction false} RunKeepsAccess(t: Table, steps: seq<Transition>, id: ImgId)
    requires id in t && Accessible(t, id)
    ensures id in Run(t, steps) && Accessible(Run(t, steps), id)
  {
    RunKeepsShape(t, steps);
  }

  /**
   * Three images numbered 1, 2, 3: only the first is open at the start;
   * skipping it opens the second; completing the second opens the third.
   */
  lemma ThreeImageWalkthrough()
    ensures var t0 := SeedTable([Img(10, 1), Img(20, 2), Img(30, 3)]);
            && t0.Keys == {10, 20, 30}
            && Accessible(t0, 10) && !Accessible(t0, 20) && !Accessible(t0, 30)
            && var t1 := Skip(t0, 10);
               && Accessible(t1, 20) && !Accessible(t1, 30)
               && var t2 := Complete(t1, 20);
                  Accessible(t2, 30)
  {
    var imgs := [Img(10, 1), Img(20, 2), Img(30, 3)];
    assert imgs[..1][..0] == [];
    assert SeedTable(imgs[..1]) == map[10 := Unstarted(1)];
    assert imgs[..2][..1] == imgs[..1];
    assert SeedTable(imgs[..2]) == map[10 := Unstarted(1), 20 := Unstarted(2)];
    assert imgs[..3][..2] == imgs[..2] && imgs[..3] == imgs;
    assert SeedTable(imgs) == map[10 := Unstarted(1), 20 := Unstarted(2), 30 := Unstarted(3)];
  }
}
