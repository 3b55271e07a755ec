/** Course reviews and the merging of two courses.  The unique index allows one review per course and
    user; a merge moves, overwrites and marks rows without ever breaking it. */
module Academic {
  import opened Support

  datatype Status = Normal | Hidden | Deleted | Merged

  datatype Course = Course(status: Status, mergeTarget: Option<Id>)

  datatype Fields = Fields(semester: string, content: string, overall: int, difficulty: int, workload: int, gain: int)

  datatype Review = Review(course: Id, user: Id, fields: Fields, status: Status, createdAt: int, updatedAt: int)

  datatype Material = Material(course: Id, user: Id, title: string, status: Status, updatedAt: int)

  datatype Db = Db(courses: map<Id, Course>, reviews: map<Id, Review>, materials: map<Id, Material>)

  datatype AcademicError = SameCourse | NotFound | ConstraintViolated

  const EMPTY: Db := Db(map[], map[], map[])

  predicate On(reviews: map<Id, Review>, r: Id, course: Id, user: Id) {
    r in reviews && reviews[r].course == course && reviews[r].user == user
  }

  ghost predicate Reviewed(reviews: map<Id, Review>, course: Id, user: Id) {
    exists r :: On(reviews, r, course, user)
  }

  predicate Twins(a: Review, b: Review) {
    a.course == b.course && a.user == b.user
  }

  /** The unique index on (course, user). */
  ghost predicate Unique(reviews: map<Id, Review>) {
    forall r, s :: r in reviews && s in reviews && Twins(reviews[r], reviews[s]) ==> r == s
  }

  // ---------- the merge, row by row ----------

  /** A review of the source written later than the target's review `r` by the same user. */
  ghost predicate Beats(reviews: map<Id, Review>, s: Id, r: Id, source: Id) {
    r in reviews && On(reviews, s, source, reviews[r].user) && reviews[s].updatedAt > reviews[r].updatedAt
  }

  /** What a row holds once the source reviews in `done` have been merged. */
  ghost function MergedRow(reviews: map<Id, Review>, done: set<Id>, source: Id, target: Id, now: int, r: Id): Review
    requires r in reviews
  {
    var row := reviews[r];
    if row.course == source && r in done then
      if Reviewed(reviews, target, row.user) then row.(status := Merged, updatedAt := now)
      else row.(course := target, updatedAt := now)
    else if row.course == target then
      if s :| s in done && Beats(reviews, s, r, source) then
        row.(fields := reviews[s].fields, status := reviews[s].status, updatedAt := now)
      else row
    else row
  }

  ghost function MergedRows(reviews: map<Id, Review>, done: set<Id>, source: Id, target: Id, now: int): map<Id, Review> {
    map r | r in reviews :: MergedRow(reviews, done, source, target, now, r)
  }

  ghost function MergedReviews(reviews: map<Id, Review>, source: Id, target: Id, now: int): map<Id, Review> {
    MergedRows(reviews, reviews.Keys, source, target, now)
  }

  /** Every material of the source ends up on the target; none is lost and no other one changes. */
  function MovedMaterials(materials: map<Id, Material>, source: Id, target: Id, now: int): (moved: map<Id, Material>)
    ensures moved.Keys == materials.Keys
    ensures source != target ==> forall m :: m in moved ==> moved[m].course != source
    ensures forall m :: m in moved ==> (moved[m].course == target <==> materials[m].course in {source, target})
    ensures forall m :: m in moved ==>
      moved[m].user == materials[m].user && moved[m].title == materials[m].title && moved[m].status == materials[m].status
    ensures forall m :: m in moved && materials[m].course != source ==> moved[m] == materials[m]
    ensures forall m :: m in moved && materials[m].course == source ==> moved[m].updatedAt == now
  {
    map m | m in materials ::
      if materials[m].course == source then materials[m].(course := target, updatedAt := now) else materials[m]
  }

  predicate IsNormal(courses: map<Id, Course>, c: Id) {
    c in courses && courses[c].status == Normal
  }

  ghost function MergeCourses(db: Db, source: Id, target: Id, now: int): Result<Db, AcademicError> {
    if source == target then Err(SameCourse)
    else if !IsNormal(db.courses, source) || !IsNormal(db.courses, target) then Err(NotFound)
    else Ok(Db(
      db.courses[source := Course(Merged, Some(target))],
      MergedReviews(db.reviews, source, target, now),
      MovedMaterials(db.materials, source, target, now)))
  }

  /** A user's review of a course is overwritten in place, or inserted if there is none. */
  ghost function SaveReview(db: Db, id: Id, course: Id, user: Id, fields: Fields, now: int): Result<Db, AcademicError> {
    if e :| On(db.reviews, e, course, user) then
      Ok(db.(reviews := db.reviews[e := db.reviews[e].(fields := fields, status := Normal, updatedAt := now)]))
    else if id in db.reviews || course !in db.courses then Err(ConstraintViolated)
    else Ok(db.(reviews := db.reviews[id := Review(course, user, fields, Normal, now, now)]))
  }

  // ---------- what a merge means ----------

  ghost predicate Rivals(a: Review, b: Review, source: Id, target: Id) {
    a.user == b.user && a.course in {source, target} && b.course in {source, target}
  }

  /** `a` gives way to `b`: written earlier, or at the same time with `b` on the target. */
  ghost predicate GivesWay(a: Review, b: Review, target: Id) {
    a.updatedAt < b.updatedAt || (a.updatedAt == b.updatedAt && b.course == target)
  }

  /** The review that decides a user's merged review: the later written of the user's reviews of the
      two courses, the target's if they were written at the same time. */
  ghost predicate Wins(reviews: map<Id, Review>, w: Id, source: Id, target: Id) {
    && w in reviews && reviews[w].course in {source, target}
    && forall r :: r in reviews && r != w && Rivals(reviews[r], reviews[w], source, target) ==>
         GivesWay(reviews[r], reviews[w], target)
  }

  lemma MergeKeepsUnique(reviews: map<Id, Review>, source: Id, target: Id, now: int)
    requires Unique(reviews) && source != target
    ensures Unique(MergedReviews(reviews, source, target, now))
  {
    var after := MergedReviews(reviews, source, target, now);
    forall r, s | r in after && s in after && Twins(after[r], after[s])
      ensures r == s
    {
      assert On(reviews, s, reviews[s].course, reviews[s].user) && On(reviews, r, reviews[r].course, reviews[r].user);
      assert Twins(reviews[r], reviews[s]);
    }
  }

  /** Every row keeps its id, its user and its creation time, and no row of another course changes. */
  lemma MergeKeepsRows(reviews: map<Id, Review>, source: Id, target: Id, now: int)
    ensures var after := MergedReviews(reviews, source, target, now);
      && after.Keys == reviews.Keys && |after| == |reviews|
      && Kept(reviews, after)
      && (forall r :: r in reviews && reviews[r].course !in {source, target} ==> after[r] == reviews[r])
  {
    var after := MergedReviews(reviews, source, target, now);
    assert after.Keys == reviews.Keys;
    assert |after.Keys| == |reviews.Keys|;
  }

  /** There is one later review at most, so the row takes over that one. */
  lemma Overwrites(reviews: map<Id, Review>, done: set<Id>, source: Id, target: Id, now: int, s: Id, r: Id)
    requires Unique(reviews) && source != target && r in reviews && reviews[r].course == target
    requires s in done && Beats(reviews, s, r, source)
    ensures MergedRow(reviews, done, source, target, now, r)
            == reviews[r].(fields := reviews[s].fields, status := reviews[s].status, updatedAt := now)
  {
    forall x | x in done && Beats(reviews, x, r, source)
      ensures x == s
    {
      assert Twins(reviews[x], reviews[s]);
    }
  }

  /** Each user of either course has a deciding review. */
  lemma WinnerExists(reviews: map<Id, Review>, r: Id, source: Id, target: Id) returns (w: Id)
    requires Unique(reviews) && r in reviews && reviews[r].course in {source, target}
    ensures Wins(reviews, w, source, target) && reviews[w].user == reviews[r].user
  {
    w := r;
    if s :| s in reviews && s != r && Rivals(reviews[s], reviews[r], source, target) && !GivesWay(reviews[s], reviews[r], target) {
      w := s;
      assert !Twins(reviews[s], reviews[r]);
      forall x | x in reviews && x != s && Rivals(reviews[x], reviews[s], source, target)
        ensures x == r
      {
        assert Twins(reviews[x], reviews[s]) || Twins(reviews[x], reviews[r]);
      }
    }
  }

  /** A deciding review ends up on the target: some row there has its user, fields and status. */
  lemma WinnerLands(reviews: map<Id, Review>, w: Id, source: Id, target: Id, now: int) returns (r: Id)
    requires Unique(reviews) && source != target && Wins(reviews, w, source, target)
    ensures Carries(MergedReviews(reviews, source, target, now), r, target, reviews[w])
  {
    r := w;
    if reviews[w].course == source {
      if e :| On(reviews, e, target, reviews[w].user) {
        assert Rivals(reviews[e], reviews[w], source, target);
        Overwrites(reviews, reviews.Keys, source, target, now, w, e);
        r := e;
      }
    } else {
      forall s
        ensures !Beats(reviews, s, w, source)
      {
        assert s in reviews && Rivals(reviews[s], reviews[w], source, target) && s != w ==> GivesWay(reviews[s], reviews[w], target);
      }
    }
  }

  /** Row `r` of `course` has the user, the fields and the status of `row`. */
  ghost predicate Carries(reviews: map<Id, Review>, r: Id, course: Id, row: Review) {
    On(reviews, r, course, row.user) && reviews[r].fields == row.fields && reviews[r].status == row.status
  }

  /** After a merge the target holds exactly one review for each user who had one on either course,
      and it carries the fields and status of the user's deciding review. */
  lemma TargetAfterMerge(reviews: map<Id, Review>, source: Id, target: Id, now: int)
    requires Unique(reviews) && source != target
    ensures var after := MergedReviews(reviews, source, target, now);
      && Unique(after)
      && (forall u :: Reviewed(after, target, u) <==> Reviewed(reviews, source, u) || Reviewed(reviews, target, u))
      && (forall r, w :: Wins(reviews, w, source, target) && On(after, r, target, reviews[w].user) ==> Carries(after, r, target, reviews[w]))
  {
    var after := MergedReviews(reviews, source, target, now);
    MergeKeepsUnique(reviews, source, target, now);
    forall u
      ensures Reviewed(after, target, u) <==> Reviewed(reviews, source, u) || Reviewed(reviews, target, u)
    {
      if r :| On(reviews, r, source, u) || On(reviews, r, target, u) {
        var w := WinnerExists(reviews, r, source, target);
        var t := WinnerLands(reviews, w, source, target, now);
        assert On(after, t, target, u);
      }
      if r :| On(after, r, target, u) {
        assert On(reviews, r, reviews[r].course, u);
      }
    }
    forall r, w | Wins(reviews, w, source, target) && On(after, r, target, reviews[w].user)
      ensures Carries(after, r, target, reviews[w])
    {
      var t := WinnerLands(reviews, w, source, target, now);
      assert Twins(after[t], after[r]);
    }
  }

  /** The source keeps only reviews marked as merged, each superseded by a review of the same user on
      the target; nothing else of such a review changes. */
  lemma SourceAfterMerge(reviews: map<Id, Review>, source: Id, target: Id, now: int)
    requires source != target
    ensures var after := MergedReviews(reviews, source, target, now);
      forall r :: r in after && after[r].course == source ==>
        after[r] == reviews[r].(status := Merged, updatedAt := now) && Reviewed(after, target, after[r].user)
  {
    var after := MergedReviews(reviews, source, target, now);
    forall r | r in after && after[r].course == source
      ensures after[r] == reviews[r].(status := Merged, updatedAt := now) && Reviewed(after, target, after[r].user)
    {
      var e :| On(reviews, e, target, reviews[r].user);
      assert On(after, e, target, after[r].user);
    }
  }

  /** A user's review counts in the rating of a course while it is normal. */
  ghost predicate Counts(reviews: map<Id, Review>, course: Id, user: Id) {
    exists r :: On(reviews, r, course, user) && reviews[r].status == Normal
  }

  /** Merging leaves a user's review counting exactly when the deciding one counted. */
  lemma CountsAfterMergeIff(reviews: map<Id, Review>, source: Id, target: Id, now: int, w: Id)
    requires Unique(reviews) && source != target && Wins(reviews, w, source, target)
    ensures Counts(MergedReviews(reviews, source, target, now), target, reviews[w].user) <==> reviews[w].status == Normal
  {
    var after := MergedReviews(reviews, source, target, now);
    TargetAfterMerge(reviews, source, target, now);
    var r := WinnerLands(reviews, w, source, target, now);
    assert On(after, r, target, reviews[w].user);
    if s :| On(after, s, target, reviews[w].user) && after[s].status == Normal {
      assert Carries(after, s, target, reviews[w]);
    }
  }

  /** The source course is merged into the target; no other course changes; every row the merge touches is
      stamped with its time, and no other. */
  lemma MergeTouches(db: Db, source: Id, target: Id, now: int)
    requires MergeCourses(db, source, target, now).Ok?
    ensures var after := MergeCourses(db, source, target, now).value;
      && after.courses.Keys == db.courses.Keys
      && after.courses[source].status == Merged && after.courses[source].mergeTarget == Some(target)
      && (forall c :: c in db.courses && c != source ==> after.courses[c] == db.courses[c])
      && (forall r :: r in db.reviews && after.reviews[r] != db.reviews[r] ==> after.reviews[r].updatedAt == now)
      && (forall r :: r in db.reviews && db.reviews[r].course == source ==> after.reviews[r].updatedAt == now)
      && (forall m :: m in db.materials && db.materials[m].course == source ==> after.materials[m].updatedAt == now)
  {
    assert MergeCourses(db, source, target, now).value.courses.Keys == db.courses.Keys;
  }

  // ---------- saving ----------

  /** The row a save leaves: the user's only review of the course, with the new fields, visible, stamped
      with the time of the save; an existing one keeps its creation time. */
  ghost predicate SavedAs(before: Db, after: Db, r: Id, course: Id, user: Id, fields: Fields, now: int) {
    && after.courses == before.courses && after.materials == before.materials && r in after.reviews
    && (forall x :: x != r ==> (x in after.reviews <==> x in before.reviews))
    && (forall x :: x in before.reviews && x != r ==> after.reviews[x] == before.reviews[x])
    && after.reviews[r] == Review(course, user, fields, Normal, if r in before.reviews then before.reviews[r].createdAt else now, now)
    && (r in before.reviews <==> Reviewed(before.reviews, course, user))
  }

  /** Saving writes exactly one row: the user's review of the course if there is one, else a new one. */
  lemma SaveWrites(db: Db, id: Id, course: Id, user: Id, fields: Fields, now: int) returns (r: Id)
    requires Unique(db.reviews) && SaveReview(db, id, course, user, fields, now).Ok?
    ensures SavedAs(db, SaveReview(db, id, course, user, fields, now).value, r, course, user, fields, now)
    ensures r != id ==> On(db.reviews, r, course, user)
  {
    if e :| On(db.reviews, e, course, user) {
      r := e;
      forall x | On(db.reviews, x, course, user)
        ensures x == e
      {
        assert Twins(db.reviews[x], db.reviews[e]);
      }
    } else {
      r := id;
      assert !Reviewed(db.reviews, course, user);
    }
  }

  /** A save fails only for want of the course, or on a clash of ids, and then only as a first review. */
  lemma SaveFailsIff(db: Db, id: Id, course: Id, user: Id, fields: Fields, now: int)
    ensures SaveReview(db, id, course, user, fields, now).Err? <==>
      !Reviewed(db.reviews, course, user) && (id in db.reviews || course !in db.courses)
  {}

  /** The user's reviews of the other of the two courses are older. */
  ghost predicate OlderElsewhere(reviews: map<Id, Review>, course: Id, user: Id, source: Id, target: Id, now: int) {
    forall x :: x in reviews && reviews[x].user == user && reviews[x].course in {source, target} && reviews[x].course != course ==>
      reviews[x].updatedAt < now
  }

  /** A review saved later than the user's review of the other course decides a merge of the two. */
  lemma SavedLaterWins(db: Db, id: Id, course: Id, user: Id, fields: Fields, now: int, source: Id, target: Id) returns (r: Id)
    requires Inv(db) && SaveReview(db, id, course, user, fields, now).Ok? && source != target && course in {source, target}
    requires OlderElsewhere(db.reviews, course, user, source, target, now)
    ensures var after := SaveReview(db, id, course, user, fields, now).value;
      && Inv(after) && Wins(after.reviews, r, source, target)
      && r in after.reviews && after.reviews[r].user == user && after.reviews[r].fields == fields && after.reviews[r].status == Normal
  {
    r := SaveWrites(db, id, course, user, fields, now);
    SaveKeeps(db, id, course, user, fields, now);
    var after := SaveReview(db, id, course, user, fields, now).value;
    forall x | x in after.reviews && x != r && Rivals(after.reviews[x], after.reviews[r], source, target)
      ensures GivesWay(after.reviews[x], after.reviews[r], target)
    {
      assert after.reviews[x] == db.reviews[x];
      assert !Twins(after.reviews[x], after.reviews[r]);
    }
  }

  /** Save a review, then merge: what was written last is what the target shows for the user. */
  lemma SaveThenMerge(db: Db, id: Id, course: Id, user: Id, fields: Fields, now: int, source: Id, target: Id, later: int) returns (t: Id)
    requires Inv(db) && SaveReview(db, id, course, user, fields, now).Ok? && source != target && course in {source, target}
    requires OlderElsewhere(db.reviews, course, user, source, target, now)
    ensures var merged := MergedReviews(SaveReview(db, id, course, user, fields, now).value.reviews, source, target, later);
      On(merged, t, target, user) && merged[t].fields == fields && merged[t].status == Normal
  {
    var r := SavedLaterWins(db, id, course, user, fields, now, source, target);
    t := WinnerLands(SaveReview(db, id, course, user, fields, now).value.reviews, r, source, target, later);
  }

  // ---------- runs ----------

  datatype Op =
    | AddCourse(id: Id)
    | SetCourseStatus(id: Id, hidden: bool)
    | Save(id: Id, course: Id, user: Id, fields: Fields, now: int)
    | DeleteReview(course: Id, user: Id, now: int)
    | SetReviewStatus(id: Id, hidden: bool, now: int)
    | AddMaterial(id: Id, material: Material)
    | Merge(source: Id, target: Id, now: int)

  function Shown(hidden: bool): Status {
    if hidden then Hidden else Normal
  }

  ghost function DeleteOne(reviews: map<Id, Review>, course: Id, user: Id, now: int): map<Id, Review> {
    map r | r in reviews ::
      if On(reviews, r, course, user) && reviews[r].status != Deleted then reviews[r].(status := Deleted, updatedAt := now)
      else reviews[r]
  }

  ghost function ShowOne(reviews: map<Id, Review>, id: Id, hidden: bool, now: int): map<Id, Review> {
    map r | r in reviews :: if r == id then reviews[r].(status := Shown(hidden), updatedAt := now) else reviews[r]
  }

  /** A refused operation changes nothing. */
  ghost function Settled(db: Db, res: Result<Db, AcademicError>): Db {
    if res.Ok? then res.value else db
  }

  ghost function Apply(db: Db, op: Op): Db {
    match op
    case AddCourse(id) =>
      if id in db.courses then db else db.(courses := db.courses[id := Course(Normal, None)])
    case SetCourseStatus(id, hidden) =>
      if id !in db.courses then db else db.(courses := db.courses[id := db.courses[id].(status := Shown(hidden))])
    case Save(id, course, user, fields, now) => Settled(db, SaveReview(db, id, course, user, fields, now))
    case DeleteReview(course, user, now) => db.(reviews := DeleteOne(db.reviews, course, user, now))
    case SetReviewStatus(id, hidden, now) => db.(reviews := ShowOne(db.reviews, id, hidden, now))
    case AddMaterial(id, material) =>
      if id in db.materials || material.course !in db.courses then db
      else db.(materials := db.materials[id := material])
    case Merge(source, target, now) => Settled(db, MergeCourses(db, source, target, now))
  }

  ghost function Run(db: Db, ops: seq<Op>): Db
    decreases |ops|
  {
    if ops == [] then db else Apply(Run(db, ops[..|ops| - 1]), ops[|ops| - 1])
  }

  /** Every review hangs on an existing course. */
  ghost predicate Placed(reviews: map<Id, Review>, courses: map<Id, Course>) {
    forall r :: r in reviews ==> reviews[r].course in courses
  }

  ghost predicate Inv(db: Db) {
    Unique(db.reviews) && Placed(db.reviews, db.courses)
  }

  /** No review is lost, given to another user or redated. */
  ghost predicate Kept(before: map<Id, Review>, after: map<Id, Review>) {
    forall r :: r in before ==> r in after && after[r].user == before[r].user && after[r].createdAt == before[r].createdAt
  }

  /** Changing statuses only keeps the index. */
  lemma SameOwners(before: map<Id, Review>, after: map<Id, Review>)
    requires Unique(before) && after.Keys == before.Keys && forall r :: r in after ==> Twins(after[r], before[r])
    ensures Unique(after)
  {
    forall r, s | r in after && s in after && Twins(after[r], after[s])
      ensures r == s
    {
      assert Twins(before[r], before[s]);
    }
  }

  /** A first review of a course keeps the index. */
  lemma InsertKeeps(reviews: map<Id, Review>, id: Id, row: Review)
    requires Unique(reviews) && id !in reviews && !Reviewed(reviews, row.course, row.user)
    ensures Unique(reviews[id := row])
  {
    var after := reviews[id := row];
    forall r, s | r in after && s in after && Twins(after[r], after[s])
      ensures r == s
    {
      assert !On(reviews, r, row.course, row.user) && !On(reviews, s, row.course, row.user);
      assert r in reviews && s in reviews ==> Twins(reviews[r], reviews[s]);
    }
  }

  ghost predicate Good(before: Db, after: Db) {
    Inv(after) && Kept(before.reviews, after.reviews)
  }

  lemma SaveKeeps(db: Db, id: Id, course: Id, user: Id, fields: Fields, now: int)
    requires Inv(db)
    ensures Good(db, Settled(db, SaveReview(db, id, course, user, fields, now)))
  {
    var after := Settled(db, SaveReview(db, id, course, user, fields, now));
    if Reviewed(db.reviews, course, user) {
      SameOwners(db.reviews, after.reviews);
    } else if id !in db.reviews && course in db.courses {
      InsertKeeps(db.reviews, id, Review(course, user, fields, Normal, now, now));
    }
  }

  lemma MergeKeeps(db: Db, source: Id, target: Id, now: int)
    requires Inv(db)
    ensures Good(db, Settled(db, MergeCourses(db, source, target, now)))
  {
    if MergeCourses(db, source, target, now).Ok? {
      MergeKeepsUnique(db.reviews, source, target, now);
      MergeKeepsRows(db.reviews, source, target, now);
    }
  }

  lemma StatusKeeps(db: Db, op: Op)
    requires Inv(db) && (op.DeleteReview? || op.SetReviewStatus?)
    ensures Good(db, Apply(db, op))
  {
    SameOwners(db.reviews, Apply(db, op).reviews);
  }

  lemma ApplyKeeps(db: Db, op: Op)
    requires Inv(db)
    ensures Good(db, Apply(db, op))
  {
    match op
    case Merge(source, target, now) => MergeKeeps(db, source, target, now);
    case Save(id, course, user, fields, now) => SaveKeeps(db, id, course, user, fields, now);
    case DeleteReview(_, _, _) => StatusKeeps(db, op);
    case SetReviewStatus(_, _, _) => StatusKeeps(db, op);
    case _ =>
  }

  /** Deleting deletes the user's review of the course and touches no other; hiding and showing set the
      status of one review, hidden or normal. */
  lemma StatusOps(db: Db, course: Id, user: Id, id: Id, hidden: bool, now: int, r: Id)
    requires r in db.reviews
    ensures var after := Apply(db, DeleteReview(course, user, now));
      && after == db.(reviews := after.reviews) && r in after.reviews
      && (On(db.reviews, r, course, user) ==>
            after.reviews[r] == db.reviews[r].(status := Deleted, updatedAt := after.reviews[r].updatedAt))
      && (On(db.reviews, r, course, user) && db.reviews[r].status != Deleted ==> after.reviews[r].updatedAt == now)
      && (!On(db.reviews, r, course, user) || db.reviews[r].status == Deleted ==> after.reviews[r] == db.reviews[r])
    ensures var after := Apply(db, SetReviewStatus(id, hidden, now));
      && after == db.(reviews := after.reviews) && r in after.reviews
      && (r != id ==> after.reviews[r] == db.reviews[r])
      && (r == id ==> after.reviews[r] == db.reviews[r].(status := if hidden then Hidden else Normal, updatedAt := now))
  {}

  /** Over every run: one review per course and user, none lost, none changing hands. */
  lemma {:induction false} RunKeeps(db: Db, ops: seq<Op>)
    requires Inv(db)
    ensures Good(db, Run(db, ops))
    decreases |ops|
  {
    if ops != [] {
      RunKeeps(db, ops[..|ops| - 1]);
      ApplyKeeps(Run(db, ops[..|ops| - 1]), ops[|ops| - 1]);
    }
  }

  // ---------- merging twice ----------

  /** Two courses reviewed by the same user, the target's review written last; the source is merged
      and then shown again. */
  function TwoReviews(source: Id, target: Id, user: Id, a: Id, b: Id, fields: Fields): seq<Op> {
    [AddCourse(source), AddCourse(target), Save(a, source, user, fields, 1), Save(b, target, user, fields, 2),
     Merge(source, target, 3), SetCourseStatus(source, false)]
  }

  lemma TwoReviewsSaved(source: Id, target: Id, user: Id, a: Id, b: Id, fields: Fields)
    requires source != target && a != b
    ensures Run(EMPTY, TwoReviews(source, target, user, a, b, fields)[..4]) == Db(
      map[source := Course(Normal, None), target := Course(Normal, None)],
      map[a := Review(source, user, fields, Normal, 1, 1), b := Review(target, user, fields, Normal, 2, 2)],
      map[])
  {
    var ops := TwoReviews(source, target, user, a, b, fields);
    var two := map[source := Course(Normal, None), target := Course(Normal, None)];
    var first := Review(source, user, fields, Normal, 1, 1);
    assert ops[..4][..3] == ops[..3] && ops[..3][..2] == ops[..2] && ops[..2][..1] == ops[..1] && ops[..1][..0] == [];
    assert Run(EMPTY, ops[..1]) == Db(map[source := Course(Normal, None)], map[], map[]);
    assert Run(EMPTY, ops[..2]) == Db(two, map[], map[]);
    assert Run(EMPTY, ops[..3]) == Db(two, map[a := first], map[]);
  }

  lemma TwoReviewsLead(source: Id, target: Id, user: Id, a: Id, b: Id, fields: Fields)
    requires source != target && a != b
    ensures Run(EMPTY, TwoReviews(source, target, user, a, b, fields)) == Db(
      map[source := Course(Normal, Some(target)), target := Course(Normal, None)],
      map[a := Review(source, user, fields, Merged, 1, 3), b := Review(target, user, fields, Normal, 2, 2)],
      map[])
  {
    var ops := TwoReviews(source, target, user, a, b, fields);
    TwoReviewsSaved(source, target, user, a, b, fields);
    var db := Run(EMPTY, ops[..4]);
    assert ops[..5][..4] == ops[..4];
    assert On(db.reviews, b, target, user);
    assert MergedReviews(db.reviews, source, target, 3)
           == map[a := Review(source, user, fields, Merged, 1, 3), b := Review(target, user, fields, Normal, 2, 2)];
    assert MovedMaterials(map[], source, target, 3) == map[];
    assert Run(EMPTY, ops[..5]) == Db(db.courses[source := Course(Merged, Some(target))],
      MergedReviews(db.reviews, source, target, 3), map[]);
  }

  /** A merge does not always leave a counting review to a user who had one: a review marked as merged
      carries the time of the merge, so if its course is shown again and merged again it beats the
      review that superseded it, and the user is left with no counting review on either course. */
  lemma MergingAgainHidesReview(source: Id, target: Id, user: Id, a: Id, b: Id, fields: Fields)
    requires source != target && a != b
    ensures var ops := TwoReviews(source, target, user, a, b, fields);
      && Counts(Run(EMPTY, ops).reviews, target, user)
      && var after := Run(EMPTY, ops + [Merge(source, target, 4)]).reviews;
         !Counts(after, target, user) && !Counts(after, source, user)
  {
    var ops := TwoReviews(source, target, user, a, b, fields);
    var db := Run(EMPTY, ops);
    TwoReviewsLead(source, target, user, a, b, fields);
    assert On(db.reviews, b, target, user);
    assert (ops + [Merge(source, target, 4)])[..|ops|] == ops;
    assert Wins(db.reviews, a, source, target);
    assert !Twins(db.reviews[a], db.reviews[b]);
    CountsAfterMergeIff(db.reviews, source, target, 4, a);
    SourceAfterMerge(db.reviews, source, target, 4);
  }
}
