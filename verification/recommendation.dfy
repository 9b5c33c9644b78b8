/** `predictAllUnratedItems` and `generateRecommendations`
    (backend/src/services/collaborativeFiltering.js): a prediction for every
    guitar the target has not rated, best first, and the top of that list
    labelled with a rank and a category. */
module Recommendation {
  import opened Common
  import opened IntKeyed
  import opened Rounding
  import opened Domain
  import opened Matrix
  import opened StableSort
  import opened Similarity
  import opened Prediction

  /** A prediction with a value, extended with `guitarName` (`guitar?.name`). */
  datatype PredictionItem = PredictionItem(guitarId: nat, guitarName: Option<string>, predictedRating: real, prediction: Prediction)

  datatype AllPredictions = AllPredictions(targetUserId: nat, k: int, predictions: seq<PredictionItem>)

  datatype Recommendation = Recommendation(rank: nat, guitarId: nat, guitarName: Option<string>, predictedRating: real, category: string)

  datatype RatedItem = RatedItem(guitarId: nat, guitarName: Option<string>, actualRating: real)

  datatype Recommendations = Recommendations(
    targetUserId: nat,
    k: int,
    topN: int,
    recommendations: seq<Recommendation>,
    allPredictions: seq<PredictionItem>,
    ratedItems: seq<RatedItem>)

  function PredictedOf(p: PredictionItem): real
  {
    p.predictedRating
  }

  /** The keys of the `null` cells, in key order. */
  function UnratedGuitars(es: seq<Entry<Option<real>>>): (r: seq<nat>)
    ensures |r| <= |es|
    ensures forall g :: g in r <==> exists i :: 0 <= i < |es| && es[i].key == g && es[i].value.None?
  {
    if |es| == 0 then []
    else
      var rest := UnratedGuitars(es[1..]);
      assert forall i :: 0 < i < |es| ==> es[i] == es[1..][i - 1];
      (if es[0].value.None? then [es[0].key] else []) + rest
  }

  /** The unrated list holds exactly the guitars whose entry is `null`. */
  lemma UnratedGuitarsMeaning(row: Row)
    requires Ascending(row.ratings)
    ensures forall g :: g in UnratedGuitars(row.ratings) <==> Get(row.ratings, g) == Some(None)
  {
    forall g
      ensures g in UnratedGuitars(row.ratings) <==> Get(row.ratings, g) == Some(None)
    {
      if g in Keys(row.ratings) {
        var i :| 0 <= i < |row.ratings| && row.ratings[i].key == g;
        GetAt(row.ratings, i);
        if g in UnratedGuitars(row.ratings) {
          var j :| 0 <= j < |row.ratings| && row.ratings[j].key == g && row.ratings[j].value.None?;
          GetAt(row.ratings, j);
        }
      } else {
        forall i | 0 <= i < |row.ratings|
          ensures row.ratings[i].key != g
        {
          assert row.ratings[i].key in Keys(row.ratings);
        }
      }
    }
  }

  /** The item of guitar `g`, or `None` when its prediction is `null`. */
  function ItemOf(db: Db, targetId: nat, k: int, g: nat): (r: Option<PredictionItem>)
    ensures r.Some? ==> r.value.guitarId == g
  {
    var p := PredictRating(db, targetId, g, k);
    match PredictedRating(p)
    case None => None
    case Some(v) => Some(PredictionItem(g, GuitarName(db.guitars, g), v, p))
  }

  /** The loop over the unrated guitars: the predictions that are not
      `null`, in the order of `gs`. */
  function PredictEach(db: Db, targetId: nat, k: int, gs: seq<nat>): (r: seq<PredictionItem>)
    ensures |r| <= |gs|
  {
    Collect(gs, (g: nat) => ItemOf(db, targetId, k, g))
  }

  /** An item is listed exactly when it is the item of a guitar of `gs`
      whose prediction is not `null`. */
  lemma PredictEachMembers(db: Db, targetId: nat, k: int, gs: seq<nat>, p: PredictionItem)
    ensures p in PredictEach(db, targetId, k, gs) <==>
              exists g :: g in gs && ItemOf(db, targetId, k, g) == Some(p)
  {
    CollectMembers(gs, (g: nat) => ItemOf(db, targetId, k, g), p);
  }

  /** `predictAllUnratedItems(targetUserId, k)`; the thrown error is `Err`. */
  function PredictAllUnratedItems(db: Db, targetId: nat, k: int): (r: Result<AllPredictions, string>)
    ensures r.Err? <==> FindRow(BuildUserItemMatrix(db).rows, targetId).None?
    ensures r.Err? ==> r.error == "Target user not found"
    ensures r.Ok? ==> r.value.targetUserId == targetId && r.value.k == k
    ensures r.Ok? ==> SortedDesc(r.value.predictions, PredictedOf)
  {
    var rows := BuildUserItemMatrix(db).rows;
    match FindRow(rows, targetId)
    case None => Err("Target user not found")
    case Some(target) =>
      var items := PredictEach(db, targetId, k, UnratedGuitars(target.ratings));
      Ok(AllPredictions(targetId, k, SortDesc(items, PredictedOf)))
  }

  /** The listed predictions are the loop's items, sorted. */
  lemma PredictionsSorted(db: Db, targetId: nat, k: int)
    requires PredictAllUnratedItems(db, targetId, k).Ok?
    ensures var target := FindRow(BuildUserItemMatrix(db).rows, targetId).value;
            PredictAllUnratedItems(db, targetId, k).value.predictions
            == SortDesc(PredictEach(db, targetId, k, UnratedGuitars(target.ratings)), PredictedOf)
  {
  }

  /** The target's row, like every row of the matrix, is in key order. */
  lemma TargetRowAscending(db: Db, targetId: nat)
    requires FindRow(BuildUserItemMatrix(db).rows, targetId).Some?
    ensures Ascending(FindRow(BuildUserItemMatrix(db).rows, targetId).value.ratings)
  {
    var rows := BuildUserItemMatrix(db).rows;
    var i :| 0 <= i < |rows| && rows[i] == FindRow(rows, targetId).value;
  }

  /** The listed predictions are exactly the non-null predictions of the
      guitars whose cell in the target's row is `null`. */
  lemma PredictionsAreUnrated(db: Db, targetId: nat, k: int, p: PredictionItem)
    requires PredictAllUnratedItems(db, targetId, k).Ok?
    ensures var target := FindRow(BuildUserItemMatrix(db).rows, targetId).value;
            p in PredictAllUnratedItems(db, targetId, k).value.predictions
            <==> Get(target.ratings, p.guitarId) == Some(None) && ItemOf(db, targetId, k, p.guitarId) == Some(p)
  {
    var target := FindRow(BuildUserItemMatrix(db).rows, targetId).value;
    var gs := UnratedGuitars(target.ratings);
    var items := PredictEach(db, targetId, k, gs);
    PredictionsSorted(db, targetId, k);
    var sorted := SortDesc(items, PredictedOf);
    assert p in sorted <==> p in items by {
      assert p in sorted <==> p in multiset(sorted);
    }
    PredictEachMembers(db, targetId, k, gs, p);
    TargetRowAscending(db, targetId);
    UnratedGuitarsMeaning(target);
  }

  /** Equal predictions keep the ascending guitar-id order of the unrated list. */
  lemma PredictionsStable(db: Db, targetId: nat, k: int, v: real)
    requires PredictAllUnratedItems(db, targetId, k).Ok?
    ensures var target := FindRow(BuildUserItemMatrix(db).rows, targetId).value;
            WithKey(PredictAllUnratedItems(db, targetId, k).value.predictions, PredictedOf, v)
            == WithKey(PredictEach(db, targetId, k, UnratedGuitars(target.ratings)), PredictedOf, v)
  {
    var target := FindRow(BuildUserItemMatrix(db).rows, targetId).value;
    SortDescStable(PredictEach(db, targetId, k, UnratedGuitars(target.ratings)), PredictedOf, v);
  }

  /** Under the schema every listed prediction is a score in [1, 5]. */
  lemma PredictionsInRange(db: Db, targetId: nat, k: int, p: PredictionItem)
    requires WellFormed(db)
    requires PredictAllUnratedItems(db, targetId, k).Ok?
    requires p in PredictAllUnratedItems(db, targetId, k).value.predictions
    ensures 1.0 <= p.predictedRating <= 5.0
  {
    PredictionsAreUnrated(db, targetId, k, p);
    PredictionInRange(db, targetId, p.guitarId, k);
  }

  // ---------------------------------------------------------------------
  // Recommendations

  /** 0 "Kurang", 1 "Cukup", 2 plain, 3 "Sangat" Direkomendasikan. */
  function CategoryLevel(predicted: real): (l: nat)
    ensures l <= 3
    ensures l == 3 <==> predicted >= 3.5
    ensures l == 0 <==> predicted < 3.0
  {
    if predicted >= 3.5 then 3
    else if predicted >= 3.3 then 2
    else if predicted >= 3.0 then 1
    else 0
  }

  function CategoryName(level: nat): string
    requires level <= 3
  {
    ["Kurang Direkomendasikan", "Cukup Direkomendasikan", "Direkomendasikan", "Sangat Direkomendasikan"][level]
  }

  function Category(predicted: real): string
  {
    CategoryName(CategoryLevel(predicted))
  }

  /** A higher prediction never gets a lower category. */
  lemma CategoryMonotone(p: real, q: real)
    requires p <= q
    ensures CategoryLevel(p) <= CategoryLevel(q)
  {
  }

  /** The category labels, by their lower thresholds. */
  lemma CategoryThresholds(p: real)
    ensures Category(p) == "Sangat Direkomendasikan" <==> p >= 3.5
    ensures Category(p) == "Direkomendasikan" <==> 3.3 <= p < 3.5
    ensures Category(p) == "Cukup Direkomendasikan" <==> 3.0 <= p < 3.3
    ensures Category(p) == "Kurang Direkomendasikan" <==> p < 3.0
  {
    var names := ["Kurang Direkomendasikan", "Cukup Direkomendasikan", "Direkomendasikan", "Sangat Direkomendasikan"];
    assert names[0] != names[1] && names[0] != names[2] && names[0] != names[3];
    assert names[1] != names[2] && names[1] != names[3] && names[2] != names[3];
  }

  function Recommend(ps: seq<PredictionItem>): (r: seq<Recommendation>)
    ensures |r| == |ps|
    ensures forall i :: 0 <= i < |r| ==>
              && r[i].rank == i + 1
              && r[i].guitarId == ps[i].guitarId
              && r[i].guitarName == ps[i].guitarName
              && r[i].predictedRating == ps[i].predictedRating
              && r[i].category == Category(ps[i].predictedRating)
  {
    seq(|ps|, i requires 0 <= i < |ps| =>
      Recommendation(i + 1, ps[i].guitarId, ps[i].guitarName, ps[i].predictedRating, Category(ps[i].predictedRating)))
  }

  /** The ratings by user `u`, in stored order (the `findMany` query of the
      target's ratings). */
  function RatingsOf(rs: seq<Rating>, u: nat): (r: seq<Rating>)
    ensures |r| <= |rs|
    ensures forall x :: x in r <==> x in rs && x.userId == u
  {
    if |rs| == 0 then []
    else
      assert forall x :: x in rs <==> x == rs[0] || x in rs[1..];
      (if rs[0].userId == u then [rs[0]] else []) + RatingsOf(rs[1..], u)
  }

  /** `ratedItems`: the target's ratings with the guitar's name. */
  function RatedItems(db: Db, targetId: nat): (r: seq<RatedItem>)
    ensures |r| == |RatingsOf(db.ratings, targetId)|
    ensures forall i :: 0 <= i < |r| ==>
              var x := RatingsOf(db.ratings, targetId)[i];
              r[i] == RatedItem(x.guitarId, GuitarName(db.guitars, x.guitarId), x.averageRating)
  {
    var mine := RatingsOf(db.ratings, targetId);
    seq(|mine|, i requires 0 <= i < |mine| =>
      RatedItem(mine[i].guitarId, GuitarName(db.guitars, mine[i].guitarId), mine[i].averageRating))
  }

  /** `generateRecommendations(targetUserId, k, topN)`: the ranked
      predictions cut by `slice(0, topN)` (all of them when `topN` is -1,
      all but the last `-topN` for a smaller negative `topN`), with the
      target's own ratings. */
  function GenerateRecommendations(db: Db, targetId: nat, k: int, topN: int): (r: Result<Recommendations, string>)
    ensures r.Err? <==> PredictAllUnratedItems(db, targetId, k).Err?
    ensures r.Err? ==> r.error == "Target user not found"
    ensures r.Ok? ==>
              var all := PredictAllUnratedItems(db, targetId, k).value.predictions;
              && r.value.allPredictions == all
              && r.value.targetUserId == targetId && r.value.k == k && r.value.topN == topN
              && |r.value.recommendations| <= |all|
              && (topN == -1 ==> |r.value.recommendations| == |all|)
              && (0 <= topN ==> |r.value.recommendations| == Min(topN, |all|))
              && (topN < -1 ==> |r.value.recommendations| + Min(-topN, |all|) == |all|)
              && r.value.recommendations == Recommend(all[..|r.value.recommendations|])
    ensures r.Ok? ==> r.value.ratedItems == RatedItems(db, targetId)
  {
    match PredictAllUnratedItems(db, targetId, k)
    case Err(e) => Err(e)
    case Ok(res) =>
      var top := if topN == -1 then res.predictions else Slice(res.predictions, topN);
      assert top == res.predictions[..|top|];
      Ok(Recommendations(targetId, k, topN, Recommend(top), res.predictions, RatedItems(db, targetId)))
  }

  /** Ranks run 1, 2, ... and categories never rise down the list. */
  lemma RecommendationsOrdered(db: Db, targetId: nat, k: int, topN: int)
    requires GenerateRecommendations(db, targetId, k, topN).Ok?
    ensures var rs := GenerateRecommendations(db, targetId, k, topN).value.recommendations;
            && (forall i :: 0 <= i < |rs| ==> rs[i].rank == i + 1)
            && (forall i, j :: 0 <= i < j < |rs| ==>
                  rs[i].predictedRating >= rs[j].predictedRating
                  && CategoryLevel(rs[i].predictedRating) >= CategoryLevel(rs[j].predictedRating))
  {
    var all := PredictAllUnratedItems(db, targetId, k).value.predictions;
    var rs := GenerateRecommendations(db, targetId, k, topN).value.recommendations;
    forall i, j | 0 <= i < j < |rs|
      ensures rs[i].predictedRating >= rs[j].predictedRating
              && CategoryLevel(rs[i].predictedRating) >= CategoryLevel(rs[j].predictedRating)
    {
      assert rs[i].predictedRating == PredictedOf(all[i]);
      assert rs[j].predictedRating == PredictedOf(all[j]);
      CategoryMonotone(rs[j].predictedRating, rs[i].predictedRating);
    }
  }
}
