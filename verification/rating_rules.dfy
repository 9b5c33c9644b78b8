/** The rules of `RatingController` (backend/src/controllers/ratingController.js):
    score validation, the composite, the insert-or-replace of a user's rating
    of a guitar, and the admin statistics. */
module RatingRules {
  import opened Common
  import opened Arith
  import opened Domain
  import Matrix

  // ---------------------------------------------------------------------
  // Storing a rating

  datatype RatingError = ScoreOutOfRange | UnknownGuitar

  /** The 400 message of an out-of-range score; an unknown guitar surfaces
      as the database's foreign-key error, whose text is not modelled. */
  const ScoreOutOfRangeMessage: string := "Rating harus antara 1-5"

  /** The index of the rating of `(u, g)`, if there is one. */
  function PairIndex(rs: seq<Rating>, u: nat, g: nat): (r: Option<nat>)
    ensures r.None? <==> forall i :: 0 <= i < |rs| ==> !(rs[i].userId == u && rs[i].guitarId == g)
    ensures r.Some? ==> r.value < |rs| && rs[r.value].userId == u && rs[r.value].guitarId == g
    ensures r.Some? ==> forall i :: 0 <= i < r.value ==> !(rs[i].userId == u && rs[i].guitarId == g)
  {
    if |rs| == 0 then None
    else if rs[0].userId == u && rs[0].guitarId == g then Some(0)
    else
      match PairIndex(rs[1..], u, g)
      case None =>
        assert forall i :: 0 < i < |rs| ==> rs[i] == rs[1..][i - 1];
        None
      case Some(j) => Some(j + 1)
  }

  predicate SamePair(x: Rating, y: Rating)
  {
    x.userId == y.userId && x.guitarId == y.guitarId
  }

  /** The upsert on `userId_guitarId`: the stored rating of the pair is
      replaced in place, or the new one is appended. Either way the new
      rating is stored and every rating of another pair keeps its place. */
  function Upsert(rs: seq<Rating>, x: Rating): (r: seq<Rating>)
    ensures x in r
    ensures |rs| <= |r| <= |rs| + 1
    ensures forall i :: 0 <= i < |rs| && !SamePair(rs[i], x) ==> r[i] == rs[i]
  {
    match PairIndex(rs, x.userId, x.guitarId)
    case None =>
      assert (rs + [x])[|rs|] == x;
      rs + [x]
    case Some(i) =>
      assert rs[i := x][i] == x;
      rs[i := x]
  }

  /** `createOrUpdateRating` for the signed-in user `userId`. */
  function CreateOrUpdateRating(db: Db, userId: nat, guitarId: nat, scores: SubScores): (r: Result<Db, RatingError>)
    ensures r == Err(ScoreOutOfRange) <==> !ScoresValid(scores)
    ensures r == Err(UnknownGuitar) <==> ScoresValid(scores) && !HasGuitar(db.guitars, guitarId)
    ensures r.Ok? ==> r.value.users == db.users && r.value.guitars == db.guitars
    ensures r.Ok? ==> Rating(userId, guitarId, scores, Composite(scores)) in r.value.ratings
    ensures r.Ok? ==> r.value.ratings == Upsert(db.ratings, Rating(userId, guitarId, scores, Composite(scores)))
  {
    if !ScoresValid(scores) then Err(ScoreOutOfRange)
    else if !HasGuitar(db.guitars, guitarId) then Err(UnknownGuitar)
    else
      var x := Rating(userId, guitarId, scores, Composite(scores));
      var rs := Upsert(db.ratings, x);
      Ok(db.(ratings := rs))
  }

  /** The upsert adds a rating exactly when the pair had none. */
  lemma UpsertLength(rs: seq<Rating>, x: Rating)
    ensures |Upsert(rs, x)| == |rs| + (if exists i :: 0 <= i < |rs| && SamePair(rs[i], x) then 0 else 1)
  {
    if PairIndex(rs, x.userId, x.guitarId).Some? {
      var i := PairIndex(rs, x.userId, x.guitarId).value;
      assert SamePair(rs[i], x);
    }
  }

  /** Afterwards the pair's one rating is `x`, and every rating of another
      pair is kept. */
  lemma UpsertContents(rs: seq<Rating>, x: Rating)
    requires UniquePairs(rs)
    ensures x in Upsert(rs, x)
    ensures forall i :: 0 <= i < |Upsert(rs, x)| && SamePair(Upsert(rs, x)[i], x) ==> Upsert(rs, x)[i] == x
    ensures forall y :: !SamePair(y, x) ==> (y in Upsert(rs, x) <==> y in rs)
  {
    var r := Upsert(rs, x);
    match PairIndex(rs, x.userId, x.guitarId)
    case None =>
    case Some(k) =>
      forall y | !SamePair(y, x)
        ensures y in r <==> y in rs
      {
        if y in r {
          var i :| 0 <= i < |r| && r[i] == y;
          assert i != k && rs[i] == y;
        }
        if y in rs {
          var i :| 0 <= i < |rs| && rs[i] == y;
          assert i != k && r[i] == y;
        }
      }
  }

  /** The upsert keeps at most one rating per (user, guitar). */
  lemma UpsertKeepsUnique(rs: seq<Rating>, x: Rating)
    requires UniquePairs(rs)
    ensures UniquePairs(Upsert(rs, x))
  {
    var r := Upsert(rs, x);
    match PairIndex(rs, x.userId, x.guitarId)
    case None =>
      forall i, j | 0 <= i < j < |r|
        ensures (r[i].userId, r[i].guitarId) != (r[j].userId, r[j].guitarId)
      {
        if j == |rs| {
          assert !(rs[i].userId == x.userId && rs[i].guitarId == x.guitarId);
        } else {
          assert r[i] == rs[i] && r[j] == rs[j];
        }
      }
    case Some(k) =>
      forall i, j | 0 <= i < j < |r|
        ensures (r[i].userId, r[i].guitarId) != (r[j].userId, r[j].guitarId)
      {
        assert SamePair(r[i], rs[i]) && SamePair(r[j], rs[j]);
      }
  }

  /** Submitting the same rating twice stores what submitting it once does. */
  lemma UpsertIdempotent(rs: seq<Rating>, x: Rating)
    ensures Upsert(Upsert(rs, x), x) == Upsert(rs, x)
  {
    var r := Upsert(rs, x);
    match PairIndex(rs, x.userId, x.guitarId)
    case None =>
      var k := PairIndex(r, x.userId, x.guitarId);
      assert r[|rs|] == x;
      assert k.Some?;
      assert k.value == |rs|;
    case Some(i) =>
      var k := PairIndex(r, x.userId, x.guitarId);
      assert r[i] == x;
      assert k.Some?;
      assert k.value == i;
  }

  /** Storing a rating by a known user keeps the snapshot well formed. */
  lemma RatingKeepsWellFormed(db: Db, userId: nat, guitarId: nat, scores: SubScores)
    requires WellFormed(db) && HasUser(db, userId)
    requires CreateOrUpdateRating(db, userId, guitarId, scores).Ok?
    ensures WellFormed(CreateOrUpdateRating(db, userId, guitarId, scores).value)
  {
    var x := Rating(userId, guitarId, scores, Composite(scores));
    var db' := CreateOrUpdateRating(db, userId, guitarId, scores).value;
    assert db'.ratings == Upsert(db.ratings, x);
    UpsertKeepsUnique(db.ratings, x);
    UpsertContents(db.ratings, x);
    forall i | 0 <= i < |db'.ratings|
      ensures HasUser(db', db'.ratings[i].userId) && HasGuitar(db'.guitars, db'.ratings[i].guitarId)
      ensures ScoresValid(db'.ratings[i].scores) && db'.ratings[i].averageRating == Composite(db'.ratings[i].scores)
    {
      var y := db'.ratings[i];
      assert y in db'.ratings;
      if !SamePair(y, x) {
        assert y in db.ratings;
        var j :| 0 <= j < |db.ratings| && db.ratings[j] == y;
      } else {
        assert y == x;
      }
    }
  }

  // ---------------------------------------------------------------------
  // Statistics

  datatype RatingStatistics = RatingStatistics(
    totalRatings: nat,
    totalUsers: nat,
    totalGuitars: nat,
    usersWithRatings: nat,
    guitarsWithRatings: nat,
    averageRatingsPerUser: real,
    averageRatingsPerGuitar: real)

  /** The distinct values of a sequence. */
  function Distinct(xs: seq<nat>): set<nat>
  {
    set x | x in xs
  }

  lemma {:induction false} DistinctAtMost(xs: seq<nat>)
    ensures |Distinct(xs)| <= |xs|
    ensures |xs| > 0 ==> |Distinct(xs)| > 0
  {
    if |xs| > 0 {
      DistinctAtMost(xs[1..]);
      assert Distinct(xs) == {xs[0]} + Distinct(xs[1..]);
      assert xs[0] in Distinct(xs);
    }
  }

  function UserIdsOf(rs: seq<Rating>): seq<nat>
  {
    seq(|rs|, i requires 0 <= i < |rs| => rs[i].userId)
  }

  function GuitarIdsOf(rs: seq<Rating>): seq<nat>
  {
    seq(|rs|, i requires 0 <= i < |rs| => rs[i].guitarId)
  }

  /** `total / (groups || 1)`: a group count of 0 is replaced by 1. */
  function PerGroup(total: nat, groups: nat): (r: real)
    ensures groups > 0 ==> r * (groups as real) == total as real
    ensures groups == 0 ==> r == total as real
  {
    (total as real) / (if groups == 0 then 1 else groups) as real
  }

  /** `getRatingStatistics`. */
  function RatingStatisticsOf(db: Db): (s: RatingStatistics)
    ensures s.totalRatings == |db.ratings| && s.totalGuitars == |db.guitars|
    ensures s.totalUsers == |Matrix.ListedUsers(db.users)| <= |db.users|
    ensures s.usersWithRatings == |Distinct(UserIdsOf(db.ratings))|
    ensures s.guitarsWithRatings == |Distinct(GuitarIdsOf(db.ratings))|
    ensures s.averageRatingsPerUser == PerGroup(s.totalRatings, s.usersWithRatings)
    ensures s.averageRatingsPerGuitar == PerGroup(s.totalRatings, s.guitarsWithRatings)
  {
    var users := |Distinct(UserIdsOf(db.ratings))|;
    var guitars := |Distinct(GuitarIdsOf(db.ratings))|;
    RatingStatistics(|db.ratings|, |Matrix.ListedUsers(db.users)|, |db.guitars|, users, guitars,
                     PerGroup(|db.ratings|, users), PerGroup(|db.ratings|, guitars))
  }

  lemma PerGroupBounds(total: nat, groups: nat)
    requires groups <= total
    requires total > 0 <==> groups > 0
    ensures total == 0 ==> PerGroup(total, groups) == 0.0
    ensures total > 0 ==> 1.0 <= PerGroup(total, groups) <= total as real
  {
    if total > 0 {
      var r, g := PerGroup(total, groups), groups as real;
      assert r * g == total as real && r == (total as real) / g;
      DivideLe(g, total as real, g);
      assert g / g == 1.0;
      MulLeft(1.0, g, r);
      assert r <= r * g;
    }
  }

  /** Every group holds at least one rating, so both ratios are 0 with no
      ratings and otherwise between 1 and the number of ratings. */
  lemma StatisticsRatios(db: Db)
    ensures var s := RatingStatisticsOf(db);
      && s.usersWithRatings <= s.totalRatings && s.guitarsWithRatings <= s.totalRatings
      && (s.totalRatings == 0 ==> s.averageRatingsPerUser == 0.0 && s.averageRatingsPerGuitar == 0.0)
      && (s.totalRatings > 0 ==>
            1.0 <= s.averageRatingsPerUser <= s.totalRatings as real
            && 1.0 <= s.averageRatingsPerGuitar <= s.totalRatings as real)
  {
    var s := RatingStatisticsOf(db);
    DistinctAtMost(UserIdsOf(db.ratings));
    DistinctAtMost(GuitarIdsOf(db.ratings));
    PerGroupBounds(s.totalRatings, s.usersWithRatings);
    PerGroupBounds(s.totalRatings, s.guitarsWithRatings);
  }
}
