/** `evaluatePerformance` and `getEvaluationByUser`
    (backend/src/services/evaluationService.js): every stored rating is
    compared with the prediction the recommender makes for the same user and
    guitar, and the errors are summarised overall and per user. */
module Evaluation {
  import opened Common
  import opened IntKeyed
  import opened Arith
  import opened Rounding
  import opened VectorMath
  import opened Domain
  import opened Prediction

  /** One entry of `details`. */
  datatype Detail = Detail(
    userId: nat,
    userName: Option<string>,
    guitarId: nat,
    guitarName: Option<string>,
    actualRating: real,
    predictedRating: real,
    error: real,
    squaredError: real)

  datatype Performance = Performance(
    k: int,
    totalRatings: nat,
    evaluatedRatings: nat,
    mae: real,
    rmse: real,
    interpretation: string,
    details: seq<Detail>)

  /** The detail of a rating whose prediction is `predicted`: the absolute
      error and its square, each rounded to four decimals. */
  function DetailFor(db: Db, x: Rating, predicted: real): (d: Detail)
    ensures d.error >= 0.0 && d.squaredError >= 0.0
    ensures d.userId == x.userId && d.guitarId == x.guitarId
    ensures d.actualRating == x.averageRating && d.predictedRating == predicted
  {
    var error := Abs(x.averageRating - predicted);
    SquareNonNegative(error);
    Detail(x.userId, UserName(db.users, x.userId), x.guitarId, GuitarName(db.guitars, x.guitarId),
           x.averageRating, predicted, Round4(error), Round4(error * error))
  }

  function PredictionFor(db: Db, x: Rating, k: int): Option<real>
  {
    PredictedRating(PredictRating(db, x.userId, x.guitarId, k))
  }

  /** The detail of rating `x`, or `None` when its prediction is `null`. */
  function DetailOf(db: Db, x: Rating, k: int): Option<Detail>
  {
    match PredictionFor(db, x, k)
    case None => None
    case Some(p) => Some(DetailFor(db, x, p))
  }

  /** The loop over the stored ratings: the details of the ratings whose
      prediction is not `null`, in stored order. */
  function EvaluateEach(db: Db, rs: seq<Rating>, k: int): (r: seq<Detail>)
    ensures |r| <= |rs|
  {
    Collect(rs, (x: Rating) => DetailOf(db, x, k))
  }

  /** A detail is listed exactly when it is the detail of a rating of `rs`
      whose prediction is not `null`. */
  lemma EvaluateEachMembers(db: Db, rs: seq<Rating>, k: int, d: Detail)
    ensures d in EvaluateEach(db, rs, k) <==> exists x :: x in rs && DetailOf(db, x, k) == Some(d)
  {
    CollectMembers(rs, (x: Rating) => DetailOf(db, x, k), d);
  }

  function Actuals(ds: seq<Detail>): (r: seq<real>)
    ensures |r| == |ds| && forall i :: 0 <= i < |ds| ==> r[i] == ds[i].actualRating
  {
    seq(|ds|, i requires 0 <= i < |ds| => ds[i].actualRating)
  }

  function Predicteds(ds: seq<Detail>): (r: seq<real>)
    ensures |r| == |ds| && forall i :: 0 <= i < |ds| ==> r[i] == ds[i].predictedRating
  {
    seq(|ds|, i requires 0 <= i < |ds| => ds[i].predictedRating)
  }

  /** 0 "Sangat Baik", 1 "Baik", 2 "Cukup", 3 "Kurang". */
  function InterpretationLevel(mae: real): (l: nat)
    ensures l <= 3
    ensures l == 0 <==> mae < 0.5
    ensures l == 3 <==> mae >= 1.5
  {
    if mae < 0.5 then 0
    else if mae < 1.0 then 1
    else if mae < 1.5 then 2
    else 3
  }

  function InterpretationText(level: nat): string
    requires level <= 3
  {
    ["Sangat Baik - Prediksi sangat akurat",
     "Baik - Prediksi cukup akurat",
     "Cukup - Prediksi perlu perbaikan",
     "Kurang - Prediksi tidak akurat, perlu review algoritma"][level]
  }

  function Interpretation(mae: real): string
  {
    InterpretationText(InterpretationLevel(mae))
  }

  /** A smaller error never gets a worse interpretation. */
  lemma InterpretationMonotone(m1: real, m2: real)
    requires m1 <= m2
    ensures InterpretationLevel(m1) <= InterpretationLevel(m2)
  {
  }

  /** `evaluatePerformance(k)`; `configuredK` is what `getKValue` reads when
      `k` is `null`. */
  function EvaluatePerformance(db: Db, k: Option<int>, configuredK: int): (r: Performance)
    ensures r.k == if k.Some? then k.value else configuredK
    ensures r.totalRatings == |db.ratings|
    ensures r.evaluatedRatings == |r.details| <= r.totalRatings
    ensures r.mae == MeanAbsoluteError(Actuals(r.details), Predicteds(r.details))
    ensures r.rmse == RootMeanSquaredError(Actuals(r.details), Predicteds(r.details))
    ensures r.details == [] ==> r.mae == 0.0 && r.rmse == 0.0
    ensures r.interpretation == Interpretation(r.mae)
  {
    var kk := if k.Some? then k.value else configuredK;
    var details := EvaluateEach(db, db.ratings, kk);
    var mae := MeanAbsoluteError(Actuals(details), Predicteds(details));
    var rmse := RootMeanSquaredError(Actuals(details), Predicteds(details));
    Performance(kk, |db.ratings|, |details|, mae, rmse, Interpretation(mae), details)
  }

  /** The details are exactly the ratings with a non-null prediction. */
  lemma DetailsAreRatings(db: Db, k: Option<int>, configuredK: int, d: Detail)
    ensures var r := EvaluatePerformance(db, k, configuredK);
            d in r.details <==> exists x :: x in db.ratings && DetailOf(db, x, r.k) == Some(d)
  {
    EvaluateEachMembers(db, db.ratings, if k.Some? then k.value else configuredK, d);
  }

  /** The reported RMSE is never below the reported MAE. */
  lemma RmseAtLeastReportedMae(db: Db, k: Option<int>, configuredK: int)
    ensures EvaluatePerformance(db, k, configuredK).mae <= EvaluatePerformance(db, k, configuredK).rmse
  {
    var r := EvaluatePerformance(db, k, configuredK);
    RmseAtLeastMae(Actuals(r.details), Predicteds(r.details));
  }

  // ---------------------------------------------------------------------
  // Per-user summary

  /** `byUser[userId]` while the details are grouped. */
  datatype UserGroup = UserGroup(userId: nat, userName: Option<string>, ratings: seq<Detail>, totalError: real)

  datatype UserSummary = UserSummary(
    userId: nat,
    userName: Option<string>,
    ratings: seq<Detail>,
    totalError: real,
    averageError: real,
    ratingsCount: nat)

  datatype EvaluationByUser = EvaluationByUser(
    k: int,
    totalRatings: nat,
    evaluatedRatings: nat,
    interpretation: string,
    mae: real,
    rmse: real,
    userSummaries: seq<UserSummary>)

  predicate NonEmptyGroup(g: UserGroup)
  {
    |g.ratings| >= 1
  }

  /** The group of `d`'s user after `d` is added: created with the user's
      id and name when absent, then extended by `d` and its error. */
  function Updated(current: Option<UserGroup>, d: Detail): (g: UserGroup)
    ensures |g.ratings| >= 1
  {
    match current
    case None => UserGroup(d.userId, d.userName, [d], 0.0 + d.error)
    case Some(g) => g.(ratings := g.ratings + [d], totalError := g.totalError + d.error)
  }

  /** One iteration of the grouping loop. */
  function AddToGroups(es: seq<Entry<UserGroup>>, d: Detail): (r: seq<Entry<UserGroup>>)
    requires Ascending(es)
    ensures Ascending(r)
  {
    Put(es, d.userId, Updated(Get(es, d.userId), d))
  }

  /** `byUser` after the loop over `ds`. */
  function GroupByUser(ds: seq<Detail>): (r: seq<Entry<UserGroup>>)
    ensures Ascending(r)
  {
    if |ds| == 0 then [] else AddToGroups(GroupByUser(ds[..|ds| - 1]), ds[|ds| - 1])
  }

  /** The details of user `u`, in order. */
  function ForUser(ds: seq<Detail>, u: nat): (r: seq<Detail>)
    ensures |r| <= |ds|
  {
    if |ds| == 0 then []
    else ForUser(ds[..|ds| - 1], u) + (if ds[|ds| - 1].userId == u then [ds[|ds| - 1]] else [])
  }

  /** `ForUser` keeps exactly the details of `u`. */
  lemma {:induction false} ForUserMembers(ds: seq<Detail>, u: nat)
    ensures forall d :: d in ForUser(ds, u) <==> d in ds && d.userId == u
  {
    if |ds| > 0 {
      var init := ds[..|ds| - 1];
      ForUserMembers(init, u);
      assert ds == init + [ds[|ds| - 1]];
    }
  }

  function SumErrors(ds: seq<Detail>): real
  {
    if |ds| == 0 then 0.0 else SumErrors(ds[..|ds| - 1]) + ds[|ds| - 1].error
  }

  /** The group of user `u` is absent when `u` has no detail; otherwise it
      holds exactly `u`'s details, in order, the name of the first of them
      and the sum of their errors. */
  lemma {:induction false} GroupContents(ds: seq<Detail>, u: nat)
    ensures var mine := ForUser(ds, u);
            Get(GroupByUser(ds), u)
            == if mine == [] then None else Some(UserGroup(u, mine[0].userName, mine, SumErrors(mine)))
  {
    if |ds| > 0 {
      var init, d := ds[..|ds| - 1], ds[|ds| - 1];
      assert ds == init + [d];
      GroupContents(init, u);
      GroupByUserLast(ds);
      if d.userId == u {
        GroupContentsStep(init, d, GroupByUser(init));
      } else {
        GroupContentsOther(init, d, GroupByUser(init), u);
      }
    }
  }

  lemma GroupByUserLast(ds: seq<Detail>)
    requires |ds| > 0
    ensures var prev := GroupByUser(ds[..|ds| - 1]);
            GroupByUser(ds) == Put(prev, ds[|ds| - 1].userId, Updated(Get(prev, ds[|ds| - 1].userId), ds[|ds| - 1]))
  {
  }

  /** Adding a detail leaves the groups of other users as they were. */
  lemma GroupContentsOther(init: seq<Detail>, d: Detail, prev: seq<Entry<UserGroup>>, u: nat)
    requires Ascending(prev) && d.userId != u
    ensures Get(Put(prev, d.userId, Updated(Get(prev, d.userId), d)), u) == Get(prev, u)
    ensures ForUser(init + [d], u) == ForUser(init, u)
  {
    GetPutOther(prev, d.userId, Updated(Get(prev, d.userId), d), u);
    assert (init + [d])[..|init|] == init;
  }

  /** Adding a detail to its own user's group, given the group before. */
  lemma GroupContentsStep(init: seq<Detail>, d: Detail, prev: seq<Entry<UserGroup>>)
    requires Ascending(prev)
    requires var mine := ForUser(init, d.userId);
             Get(prev, d.userId)
             == if mine == [] then None else Some(UserGroup(d.userId, mine[0].userName, mine, SumErrors(mine)))
    ensures var all := ForUser(init + [d], d.userId);
            && all != []
            && Get(Put(prev, d.userId, Updated(Get(prev, d.userId), d)), d.userId)
               == Some(UserGroup(d.userId, all[0].userName, all, SumErrors(all)))
  {
    var u := d.userId;
    var v := Updated(Get(prev, u), d);
    GetPutSame(prev, u, v);
    var mine := ForUser(init, u);
    assert (init + [d])[..|init|] == init;
    var all := mine + [d];
    assert ForUser(init + [d], u) == all;
    assert all[..|mine|] == mine;
    assert SumErrors(all) == SumErrors(mine) + d.error;
    if mine != [] {
      assert all[0] == mine[0];
      assert v == UserGroup(u, mine[0].userName, all, SumErrors(mine) + d.error);
    } else {
      assert all == [d];
      assert SumErrors(all) == 0.0 + d.error;
    }
  }

  /** Every group holds at least one detail. */
  lemma {:induction false} GroupsNonEmpty(ds: seq<Detail>)
    ensures forall i :: 0 <= i < |GroupByUser(ds)| ==> NonEmptyGroup(GroupByUser(ds)[i].value)
  {
    if |ds| > 0 {
      var init, d := ds[..|ds| - 1], ds[|ds| - 1];
      GroupsNonEmpty(init);
      var prev := GroupByUser(init);
      PutKeeps(prev, d.userId, Updated(Get(prev, d.userId), d), NonEmptyGroup);
    }
  }

  /** The number of details held by all groups. */
  function TotalCount(es: seq<Entry<UserGroup>>): nat
  {
    if |es| == 0 then 0 else |es[0].value.ratings| + TotalCount(es[1..])
  }

  function CountAt(es: seq<Entry<UserGroup>>, k: nat): nat
  {
    match Get(es, k)
    case None => 0
    case Some(g) => |g.ratings|
  }

  lemma TotalCountCons(x: Entry<UserGroup>, t: seq<Entry<UserGroup>>)
    ensures TotalCount([x] + t) == |x.value.ratings| + TotalCount(t)
  {
    assert ([x] + t)[1..] == t;
  }

  lemma {:induction false} TotalCountPut(es: seq<Entry<UserGroup>>, k: nat, v: UserGroup)
    requires Ascending(es)
    ensures TotalCount(Put(es, k, v)) + CountAt(es, k) == TotalCount(es) + |v.ratings|
  {
    if |es| == 0 {
      assert Put(es, k, v) == [Entry(k, v)];
      TotalCountCons(Entry(k, v), []);
    } else if k < es[0].key {
      HeadBelowRest(es);
      KeysCons(es);
      assert k !in Keys(es);
      assert Put(es, k, v) == [Entry(k, v)] + es;
      TotalCountCons(Entry(k, v), es);
    } else if k == es[0].key {
      assert Put(es, k, v) == [Entry(k, v)] + es[1..];
      TotalCountCons(Entry(k, v), es[1..]);
      TotalCountCons(es[0], es[1..]);
      assert es == [es[0]] + es[1..];
    } else {
      TotalCountPut(es[1..], k, v);
      assert Put(es, k, v) == [es[0]] + Put(es[1..], k, v);
      TotalCountCons(es[0], Put(es[1..], k, v));
      assert CountAt(es, k) == CountAt(es[1..], k);
    }
  }

  /** The groups together hold every detail exactly once. */
  lemma {:induction false} GroupCountSum(ds: seq<Detail>)
    ensures TotalCount(GroupByUser(ds)) == |ds|
  {
    if |ds| > 0 {
      var init, d := ds[..|ds| - 1], ds[|ds| - 1];
      GroupCountSum(init);
      var prev := GroupByUser(init);
      var v := Updated(Get(prev, d.userId), d);
      assert GroupByUser(ds) == Put(prev, d.userId, v);
      TotalCountPut(prev, d.userId, v);
      assert |v.ratings| == CountAt(prev, d.userId) + 1;
    }
  }

  /** The `map` over `Object.values(byUser)`. */
  function Summaries(es: seq<Entry<UserGroup>>): (r: seq<UserSummary>)
    requires forall i :: 0 <= i < |es| ==> NonEmptyGroup(es[i].value)
    ensures |r| == |es|
    ensures forall i :: 0 <= i < |r| ==>
              var g := es[i].value;
              && r[i].userId == g.userId && r[i].userName == g.userName
              && r[i].ratings == g.ratings && r[i].totalError == g.totalError
              && r[i].ratingsCount == |g.ratings| >= 1
              && r[i].averageError == Round4(g.totalError / (|g.ratings| as real))
  {
    if |es| == 0 then []
    else
      var g := es[0].value;
      assert NonEmptyGroup(g);
      [UserSummary(g.userId, g.userName, g.ratings, g.totalError, Round4(g.totalError / (|g.ratings| as real)), |g.ratings|)]
      + Summaries(es[1..])
  }

  function CountSum(ss: seq<UserSummary>): nat
  {
    if |ss| == 0 then 0 else ss[0].ratingsCount + CountSum(ss[1..])
  }

  /** `getEvaluationByUser(k)`. */
  function GetEvaluationByUser(db: Db, k: Option<int>, configuredK: int): (r: EvaluationByUser)
    ensures var e := EvaluatePerformance(db, k, configuredK);
            && r.k == e.k && r.totalRatings == e.totalRatings && r.evaluatedRatings == e.evaluatedRatings
            && r.interpretation == e.interpretation && r.mae == e.mae && r.rmse == e.rmse
  {
    var e := EvaluatePerformance(db, k, configuredK);
    GroupsNonEmpty(e.details);
    EvaluationByUser(e.k, e.totalRatings, e.evaluatedRatings, e.interpretation, e.mae, e.rmse,
                     Summaries(GroupByUser(e.details)))
  }

  /** The summaries' counts add up to the number of evaluated ratings. */
  lemma SummaryCountsAddUp(db: Db, k: Option<int>, configuredK: int)
    ensures CountSum(GetEvaluationByUser(db, k, configuredK).userSummaries)
            == GetEvaluationByUser(db, k, configuredK).evaluatedRatings
  {
    var e := EvaluatePerformance(db, k, configuredK);
    GroupsNonEmpty(e.details);
    GroupCountSum(e.details);
    SummaryCounts(GroupByUser(e.details));
  }

  lemma {:induction false} SummaryCounts(es: seq<Entry<UserGroup>>)
    requires forall i :: 0 <= i < |es| ==> NonEmptyGroup(es[i].value)
    ensures CountSum(Summaries(es)) == TotalCount(es)
  {
    if |es| > 0 {
      SummaryCounts(es[1..]);
      assert Summaries(es)[1..] == Summaries(es[1..]);
    }
  }

  /** Each summary belongs to one user and holds exactly that user's
      details, in order, with their error sum and its rounded mean. */
  lemma SummaryContents(db: Db, k: Option<int>, configuredK: int, i: nat)
    requires i < |GetEvaluationByUser(db, k, configuredK).userSummaries|
    ensures var s := GetEvaluationByUser(db, k, configuredK).userSummaries[i];
            var ds := EvaluatePerformance(db, k, configuredK).details;
            && s.ratings == ForUser(ds, s.userId)
            && s.ratingsCount == |s.ratings| >= 1
            && s.totalError == SumErrors(s.ratings)
            && s.averageError == Round4(SumErrors(s.ratings) / (s.ratingsCount as real))
  {
    var ds := EvaluatePerformance(db, k, configuredK).details;
    var groups := GroupByUser(ds);
    GroupsNonEmpty(ds);
    var u := groups[i].key;
    GetAt(groups, i);
    GroupContents(ds, u);
  }
}
