/** The academic repository: saving a review and the merge transaction with its loop over the source's
    reviews, proved against `Academic`. */
module AcademicRepository {
  import opened Support
  import opened Academic

  class Repository {
    var courses: map<Id, Course>
    var reviews: map<Id, Review>
    var materials: map<Id, Material>

    ghost function Rows(): Db
      reads this
    {
      Db(courses, reviews, materials)
    }

    /** The unique index and the foreign key. */
    ghost predicate Valid()
      reads this
    {
      Inv(Rows())
    }

    constructor ()
      ensures Valid() && Rows() == EMPTY
    {
      courses, reviews, materials := map[], map[], map[];
    }

    method SaveReview(id: Id, course: Id, user: Id, fields: Fields, now: int) returns (res: Result<Id, AcademicError>)
      requires Valid()
      modifies this
      ensures Valid()
      ensures Rows() == Settled(old(Rows()), Academic.SaveReview(old(Rows()), id, course, user, fields, now))
      ensures res.Ok? ==> SavedAs(old(Rows()), Rows(), res.value, course, user, fields, now)
      ensures res.Err? <==> !old(Reviewed(reviews, course, user)) && (old(id in reviews) || course !in courses)
      ensures res.Err? ==> Rows() == old(Rows())
    {
      SaveKeeps(Rows(), id, course, user, fields, now);
      if e :| e in reviews && On(reviews, e, course, user) {
        assert forall x :: On(reviews, x, course, user) ==> Twins(reviews[x], reviews[e]);
        reviews := reviews[e := reviews[e].(fields := fields, status := Normal, updatedAt := now)];
        return Ok(e);
      }
      assert !Reviewed(reviews, course, user);
      if id in reviews || course !in courses { return Err(ConstraintViolated); }
      reviews := reviews[id := Review(course, user, fields, Normal, now, now)];
      return Ok(id);
    }

    /** The source's reviews come in any order, read once before the loop. */
    method MergeCourses(source: Id, target: Id, now: int) returns (res: Result<(), AcademicError>)
      requires Valid()
      modifies this
      ensures Valid()
      ensures Rows() == Settled(old(Rows()), Academic.MergeCourses(old(Rows()), source, target, now))
      ensures res.Ok? <==> source != target && old(IsNormal(courses, source) && IsNormal(courses, target))
      ensures res.Err? ==> res.error == if source == target then SameCourse else NotFound
    {
      if source == target { return Err(SameCourse); }
      if !IsNormal(courses, source) { return Err(NotFound); }
      if !IsNormal(courses, target) { return Err(NotFound); }
      MergeKeeps(Rows(), source, target, now);
      MergeReviews(source, target, now);
      materials := MovedMaterials(materials, source, target, now);
      courses := courses[source := Course(Merged, Some(target))];
      return Ok(());
    }

    method MergeReviews(source: Id, target: Id, now: int)
      requires Unique(reviews) && source != target
      modifies this`reviews
      ensures reviews == MergedReviews(old(reviews), source, target, now)
    {
      var found := reviews;
      var rest := set r | r in found && found[r].course == source;
      ghost var done: set<Id> := {};
      assert MergedRows(found, done, source, target, now) == found;
      while rest != {}
        invariant forall r :: r in rest ==> r !in done
        invariant forall r :: r in done || r in rest <==> r in found && found[r].course == source
        invariant reviews == MergedRows(found, done, source, target, now)
        decreases |rest|
      {
        var r :| r in rest;
        MergeOne(r, found, done, source, target, now);
        rest, done := rest - {r}, done + {r};
      }
      AllMerged(found, done, source, target, now);
    }

    /** One turn of the loop: move the review, or let the later one win and mark it as merged. */
    method MergeOne(r: Id, found: map<Id, Review>, ghost done: set<Id>, source: Id, target: Id, now: int)
      requires Unique(found) && source != target
      requires reviews == MergedRows(found, done, source, target, now)
      requires r in found && found[r].course == source && r !in done
      modifies this`reviews
      ensures reviews == MergedRows(found, done + {r}, source, target, now)
    {
      var review := found[r];
      TurnFinds(found, done, r, source, target, now);
      if e :| e in reviews && On(reviews, e, target, review.user) {
        TurnMarks(found, done, r, e, source, target, now);
        var existing := reviews[e];
        if review.updatedAt > existing.updatedAt {
          reviews := reviews[e := existing.(fields := review.fields, status := review.status, updatedAt := now)];
        }
        reviews := reviews[r := reviews[r].(status := Merged, updatedAt := now)];
      } else {
        TurnMoves(found, done, r, source, target, now);
        reviews := reviews[r := reviews[r].(course := target, updatedAt := now)];
      }
    }
  }

  lemma AllMerged(reviews: map<Id, Review>, list: set<Id>, source: Id, target: Id, now: int)
    requires forall r :: r in list <==> r in reviews && reviews[r].course == source
    requires Unique(reviews) && source != target
    ensures MergedRows(reviews, list, source, target, now) == MergedReviews(reviews, source, target, now)
  {
    forall r | r in reviews
      ensures MergedRow(reviews, list, source, target, now, r) == MergedRow(reviews, reviews.Keys, source, target, now, r)
    {
      if reviews[r].course == target {
        if s :| Beats(reviews, s, r, source) {
          Overwrites(reviews, list, source, target, now, s, r);
          Overwrites(reviews, reviews.Keys, source, target, now, s, r);
        }
      }
    }
  }

  /** What the turn of one more source review finds: the rows of its user are still as they were. */
  lemma TurnFinds(found: map<Id, Review>, done: set<Id>, r: Id, source: Id, target: Id, now: int)
    requires Unique(found) && source != target
    requires r in found && found[r].course == source && r !in done
    ensures var rows := MergedRows(found, done, source, target, now);
      && rows[r] == found[r]
      && (forall e :: On(rows, e, target, found[r].user) <==> On(found, e, target, found[r].user))
      && (forall e :: On(found, e, target, found[r].user) ==> rows[e] == found[e])
  {
    forall s | On(found, s, source, found[r].user)
      ensures s == r
    {
      assert Twins(found[s], found[r]);
    }
  }

  /** A row that the turn of `r` is not about. */
  lemma TurnSpares(found: map<Id, Review>, done: set<Id>, r: Id, source: Id, target: Id, now: int, x: Id)
    requires Unique(found) && source != target
    requires r in found && found[r].course == source && x in found && x != r
    requires found[x].course == target ==> !Beats(found, r, x, source)
    ensures MergedRow(found, done, source, target, now, x) == MergedRow(found, done + {r}, source, target, now, x)
  {
    if found[x].course == target {
      if s :| s in done && Beats(found, s, x, source) {
        Overwrites(found, done, source, target, now, s, x);
        Overwrites(found, done + {r}, source, target, now, s, x);
      }
    }
  }

  lemma TurnMoves(found: map<Id, Review>, done: set<Id>, r: Id, source: Id, target: Id, now: int)
    requires Unique(found) && source != target
    requires r in found && found[r].course == source && !Reviewed(found, target, found[r].user)
    ensures MergedRows(found, done + {r}, source, target, now)
            == MergedRows(found, done, source, target, now)[r := found[r].(course := target, updatedAt := now)]
  {
    forall x | x in found && x != r
      ensures MergedRow(found, done, source, target, now, x) == MergedRow(found, done + {r}, source, target, now, x)
    {
      assert !On(found, x, target, found[r].user);
      TurnSpares(found, done, r, source, target, now, x);
    }
  }

  lemma TurnMarks(found: map<Id, Review>, done: set<Id>, r: Id, e: Id, source: Id, target: Id, now: int)
    requires Unique(found) && source != target
    requires r in found && found[r].course == source && r !in done && On(found, e, target, found[r].user)
    ensures var over := if found[r].updatedAt > found[e].updatedAt
                        then found[e].(fields := found[r].fields, status := found[r].status, updatedAt := now) else found[e];
      MergedRows(found, done + {r}, source, target, now)
      == MergedRows(found, done, source, target, now)[e := over][r := found[r].(status := Merged, updatedAt := now)]
  {
    OverwrittenOrKept(found, done, r, e, source, target, now);
    forall x | x in found && x != r && x != e
      ensures MergedRow(found, done, source, target, now, x) == MergedRow(found, done + {r}, source, target, now, x)
    {
      assert !Twins(found[x], found[e]);
      TurnSpares(found, done, r, source, target, now, x);
    }
  }

  lemma OverwrittenOrKept(found: map<Id, Review>, done: set<Id>, r: Id, e: Id, source: Id, target: Id, now: int)
    requires Unique(found) && source != target
    requires r in found && found[r].course == source && r !in done && On(found, e, target, found[r].user)
    ensures MergedRow(found, done + {r}, source, target, now, e)
            == if found[r].updatedAt > found[e].updatedAt
               then found[e].(fields := found[r].fields, status := found[r].status, updatedAt := now) else found[e]
  {
    if Beats(found, r, e, source) {
      Overwrites(found, done + {r}, source, target, now, r, e);
    } else {
      TurnFinds(found, done, r, source, target, now);
      TurnSpares(found, done, r, source, target, now, e);
      assert MergedRows(found, done, source, target, now)[e] == found[e];
    }
  }
}
