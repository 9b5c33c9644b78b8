/** `predictRating` (backend/src/services/collaborativeFiltering.js): the
    predicted score of one guitar for a target user, the similarity-weighted
    average of the scores the target's nearest neighbours gave that guitar. */
module Prediction {
  import opened Common
  import opened Arith
  import opened Rounding
  import opened Domain
  import opened Matrix
  import opened Similarity

  /** Why a prediction is `null` before any average is taken. */
  datatype NullReason = TargetUserNotFound | NoNeighborsFound | NoNeighborRatedGuitar

  function Message(r: NullReason): string
  {
    match r
    case TargetUserNotFound => "Target user not found"
    case NoNeighborsFound => "No neighbors found"
    case NoNeighborRatedGuitar => "No neighbors rated this guitar"
  }

  /** One entry of `details`: a neighbour's weight, score and their product. */
  datatype Contribution = Contribution(userId: nat, userName: string, similarity: real, rating: real, weighted: real)

  /** `{ guitarId, predictedRating: null, message }` or
      `{ guitarId, predictedRating, numerator, denominator, details }`; in the
      second form `predictedRating` is still `null` when the weights sum to 0. */
  datatype Prediction =
    | Unpredicted(guitarId: nat, reason: NullReason)
    | Computed(guitarId: nat, predictedRating: Option<real>, numerator: real, denominator: real,
               details: seq<Contribution>)

  function PredictedRating(p: Prediction): Option<real>
  {
    if p.Unpredicted? then None else p.predictedRating
  }

  /** `neighbors.find((n) => n.userId === id)`. */
  function FindNeighbor(ns: seq<SimilarityEntry>, id: nat): (r: Option<SimilarityEntry>)
    ensures r.None? <==> forall i :: 0 <= i < |ns| ==> ns[i].userId != id
    ensures r.Some? ==> r.value in ns && r.value.userId == id
  {
    if |ns| == 0 then None
    else if ns[0].userId == id then Some(ns[0])
    else
      var r := FindNeighbor(ns[1..], id);
      assert forall i :: 0 < i < |ns| ==> ns[i] == ns[1..][i - 1];
      r
  }

  /** The ratings of guitar `g` by the neighbours, in stored order (the
      `findMany` query of the neighbours' ratings). */
  function NeighborRatings(rs: seq<Rating>, ns: seq<SimilarityEntry>, g: nat): (r: seq<Rating>)
    ensures |r| <= |rs|
    ensures forall x :: x in r <==> x in rs && x.guitarId == g && FindNeighbor(ns, x.userId).Some?
  {
    if |rs| == 0 then []
    else
      assert forall x :: x in rs <==> x == rs[0] || x in rs[1..];
      (if rs[0].guitarId == g && FindNeighbor(ns, rs[0].userId).Some? then [rs[0]] else [])
      + NeighborRatings(rs[1..], ns, g)
  }

  function ContributionOf(n: SimilarityEntry, x: Rating): Contribution
  {
    Contribution(n.userId, n.userName, n.similarity, x.averageRating, Round4(n.similarity * x.averageRating))
  }

  /** The `details` list: one contribution per rating whose author is a
      neighbour, in rating order. */
  function Contributions(rs: seq<Rating>, ns: seq<SimilarityEntry>): (r: seq<Contribution>)
    ensures |r| <= |rs|
    ensures (forall x :: x in rs ==> FindNeighbor(ns, x.userId).Some?) ==> |r| == |rs|
  {
    if |rs| == 0 then []
    else
      var rest := Contributions(rs[1..], ns);
      match FindNeighbor(ns, rs[0].userId)
      case None => rest
      case Some(n) => [ContributionOf(n, rs[0])] + rest
  }

  /** Each contribution is built from one of the ratings and its author's
      neighbour entry. */
  lemma {:induction false} ContributionFrom(rs: seq<Rating>, ns: seq<SimilarityEntry>, c: Contribution)
    requires c in Contributions(rs, ns)
    ensures exists x :: x in rs && FindNeighbor(ns, x.userId).Some?
                        && c == ContributionOf(FindNeighbor(ns, x.userId).value, x)
  {
    var rest := Contributions(rs[1..], ns);
    if c !in rest {
      assert FindNeighbor(ns, rs[0].userId).Some?;
      assert c == ContributionOf(FindNeighbor(ns, rs[0].userId).value, rs[0]);
    } else {
      ContributionFrom(rs[1..], ns, c);
      var x :| x in rs[1..] && FindNeighbor(ns, x.userId).Some?
               && c == ContributionOf(FindNeighbor(ns, x.userId).value, x);
      assert x in rs;
    }
  }

  /** The sum of the products similarity × score. */
  function Numerator(cs: seq<Contribution>): real
  {
    if |cs| == 0 then 0.0 else cs[0].similarity * cs[0].rating + Numerator(cs[1..])
  }

  /** The sum of the similarities. */
  function Denominator(cs: seq<Contribution>): real
  {
    if |cs| == 0 then 0.0 else cs[0].similarity + Denominator(cs[1..])
  }

  lemma SumsCons(c: Contribution, rest: seq<Contribution>)
    ensures Numerator([c] + rest) == c.similarity * c.rating + Numerator(rest)
    ensures Denominator([c] + rest) == c.similarity + Denominator(rest)
  {
    assert ([c] + rest)[1..] == rest;
  }

  /** The running state of the weighting loop. */
  datatype Tally = Tally(numerator: real, denominator: real, details: seq<Contribution>)

  /** The tally after the contribution `c` is counted. */
  function Take(t: Tally, c: Contribution): Tally
  {
    Tally(t.numerator + c.similarity * c.rating, t.denominator + c.similarity, t.details + [c])
  }

  /** One iteration of the loop over the neighbours' ratings. */
  function Step(t: Tally, x: Rating, ns: seq<SimilarityEntry>): Tally
  {
    match FindNeighbor(ns, x.userId)
    case None => t
    case Some(n) => Take(t, ContributionOf(n, x))
  }

  /** The loop over the neighbours' ratings. */
  function Accumulate(t: Tally, rs: seq<Rating>, ns: seq<SimilarityEntry>): Tally
    decreases |rs|
  {
    if |rs| == 0 then t else Accumulate(Step(t, rs[0], ns), rs[1..], ns)
  }

  /** The loop: the two sums grow by exactly the products and weights of the
      contributions it lists. */
  lemma {:induction false} AccumulateTotals(t: Tally, rs: seq<Rating>, ns: seq<SimilarityEntry>)
    ensures Accumulate(t, rs, ns).details == t.details + Contributions(rs, ns)
    ensures Accumulate(t, rs, ns).numerator == t.numerator + Numerator(Contributions(rs, ns))
    ensures Accumulate(t, rs, ns).denominator == t.denominator + Denominator(Contributions(rs, ns))
    decreases |rs|
  {
    if |rs| > 0 {
      var t', rest := Step(t, rs[0], ns), Contributions(rs[1..], ns);
      assert Accumulate(t, rs, ns) == Accumulate(t', rs[1..], ns);
      AccumulateTotals(t', rs[1..], ns);
      StepContributes(t, rs, ns);
    }
  }

  /** One step moves the first contribution, if any, into the tally. */
  lemma StepContributes(t: Tally, rs: seq<Rating>, ns: seq<SimilarityEntry>)
    requires |rs| > 0
    ensures var t', rest := Step(t, rs[0], ns), Contributions(rs[1..], ns);
            && t'.details + rest == t.details + Contributions(rs, ns)
            && t'.numerator + Numerator(rest) == t.numerator + Numerator(Contributions(rs, ns))
            && t'.denominator + Denominator(rest) == t.denominator + Denominator(Contributions(rs, ns))
  {
    var rest := Contributions(rs[1..], ns);
    match FindNeighbor(ns, rs[0].userId)
    case None =>
      assert Step(t, rs[0], ns) == t && Contributions(rs, ns) == rest;
    case Some(n) =>
      var c := ContributionOf(n, rs[0]);
      assert Step(t, rs[0], ns) == Take(t, c);
      assert Contributions(rs, ns) == [c] + rest;
      TakeContributes(t, c, rest);
  }

  lemma TakeContributes(t: Tally, c: Contribution, rest: seq<Contribution>)
    ensures Take(t, c).details + rest == t.details + ([c] + rest)
    ensures Take(t, c).numerator + Numerator(rest) == t.numerator + Numerator([c] + rest)
    ensures Take(t, c).denominator + Denominator(rest) == t.denominator + Denominator([c] + rest)
  {
    SumsCons(c, rest);
  }

  /** `predictRating` given what `findNearestNeighbors` returned and the
      stored ratings. */
  function PredictFrom(nr: Option<NeighborsResult>, rs: seq<Rating>, g: nat): (p: Prediction)
    ensures p.guitarId == g
    ensures p == Unpredicted(g, TargetUserNotFound) <==> nr.None?
    ensures p == Unpredicted(g, NoNeighborsFound) <==> nr.Some? && nr.value.neighbors == []
    ensures p == Unpredicted(g, NoNeighborRatedGuitar)
            <==> nr.Some? && nr.value.neighbors != [] && NeighborRatings(rs, nr.value.neighbors, g) == []
    ensures p.Computed? ==>
              && p.details == Contributions(NeighborRatings(rs, nr.value.neighbors, g), nr.value.neighbors)
              && |p.details| >= 1
              && p.numerator == Round4(Numerator(p.details))
              && p.denominator == Round4(Denominator(p.details))
              && (p.predictedRating.Some? <==> Denominator(p.details) > 0.0)
              && (p.predictedRating.Some? ==>
                    p.predictedRating.value == Round2(Numerator(p.details) / Denominator(p.details)))
  {
    match nr
    case None => Unpredicted(g, TargetUserNotFound)
    case Some(res) =>
      var ns := res.neighbors;
      if |ns| == 0 then Unpredicted(g, NoNeighborsFound)
      else
        var ratings := NeighborRatings(rs, ns, g);
        if |ratings| == 0 then Unpredicted(g, NoNeighborRatedGuitar)
        else
          NeighborsContribute(rs, ns, g);
          Weigh(ratings, ns, g)
  }

  /** The computed prediction from the neighbours' ratings of `g`. */
  function Weigh(ratings: seq<Rating>, ns: seq<SimilarityEntry>, g: nat): (p: Prediction)
    ensures p.Computed? && p.guitarId == g
    ensures p.details == Contributions(ratings, ns)
    ensures p.numerator == Round4(Numerator(p.details))
    ensures p.denominator == Round4(Denominator(p.details))
    ensures p.predictedRating.Some? <==> Denominator(p.details) > 0.0
    ensures p.predictedRating.Some? ==>
              p.predictedRating.value == Round2(Numerator(p.details) / Denominator(p.details))
  {
    var t := Accumulate(Tally(0.0, 0.0, []), ratings, ns);
    AccumulateTotals(Tally(0.0, 0.0, []), ratings, ns);
    assert [] + Contributions(ratings, ns) == Contributions(ratings, ns);
    var predicted := if t.denominator > 0.0 then Some(Round2(t.numerator / t.denominator)) else None;
    Computed(g, predicted, Round4(t.numerator), Round4(t.denominator), t.details)
  }

  /** Every rating the neighbours gave `g` contributes. */
  lemma NeighborsContribute(rs: seq<Rating>, ns: seq<SimilarityEntry>, g: nat)
    ensures |Contributions(NeighborRatings(rs, ns, g), ns)| == |NeighborRatings(rs, ns, g)|
  {
  }

  /** `predictRating(targetUserId, guitarId, k)`. */
  function PredictRating(db: Db, targetId: nat, g: nat, k: int): (p: Prediction)
    ensures p.guitarId == g
    ensures p == Unpredicted(g, TargetUserNotFound) <==> CalculateUserSimilarity(db, targetId).None?
    ensures k == 0 && CalculateUserSimilarity(db, targetId).Some? ==> p == Unpredicted(g, NoNeighborsFound)
  {
    PredictFrom(FindNearestNeighbors(db, targetId, k), db.ratings, g)
  }

  // ---------------------------------------------------------------------
  // The prediction lies between the neighbours' scores

  /** With non-negative weights the weighted sum lies between `lo` and `hi`
      times the sum of the weights. */
  lemma {:induction false} WeightedWithin(cs: seq<Contribution>, lo: real, hi: real)
    requires forall i :: 0 <= i < |cs| ==> cs[i].similarity >= 0.0 && lo <= cs[i].rating <= hi
    ensures ScaledBetween(Numerator(cs), Denominator(cs), lo, hi)
  {
    if |cs| > 0 {
      var s, x := cs[0].similarity, cs[0].rating;
      WeightedWithin(cs[1..], lo, hi);
      ScaledBetweenStep(s, x, Numerator(cs[1..]), Denominator(cs[1..]), lo, hi);
    }
  }

  /** Adding one weighted score within the bounds keeps the sums within them. */
  lemma ScaledBetweenStep(s: real, x: real, n: real, d: real, lo: real, hi: real)
    requires s >= 0.0 && lo <= x <= hi
    requires ScaledBetween(n, d, lo, hi)
    ensures ScaledBetween(s * x + n, s + d, lo, hi)
  {
    MulLeft(lo, x, s);
    MulLeft(x, hi, s);
    assert lo * (s + d) == s * lo + lo * d;
    assert hi * (s + d) == s * hi + hi * d;
  }

  lemma QuotientWithin(n: real, d: real, lo: real, hi: real)
    requires d > 0.0
    requires lo * d <= n <= hi * d
    ensures lo <= n / d <= hi
  {
    DivMulCancel(n, d);
    DivideBoth(lo, n / d, d);
    DivideBoth(n / d, hi, d);
  }

  /** Every contribution to the prediction of `g` pairs a neighbour's
      similarity with a stored score of `g`. */
  lemma DetailsWithin(rs: seq<Rating>, ns: seq<SimilarityEntry>, g: nat, lo: real, hi: real)
    requires forall n :: n in ns ==> n.similarity >= 0.0
    requires forall x :: x in NeighborRatings(rs, ns, g) ==> lo <= x.averageRating <= hi
    ensures var cs := Contributions(NeighborRatings(rs, ns, g), ns);
            forall i :: 0 <= i < |cs| ==> cs[i].similarity >= 0.0 && lo <= cs[i].rating <= hi
  {
    var ratings := NeighborRatings(rs, ns, g);
    var cs := Contributions(ratings, ns);
    forall i | 0 <= i < |cs|
      ensures cs[i].similarity >= 0.0 && lo <= cs[i].rating <= hi
    {
      assert cs[i] in cs;
      ContributionFrom(ratings, ns, cs[i]);
      var x :| x in ratings && FindNeighbor(ns, x.userId).Some?
               && cs[i] == ContributionOf(FindNeighbor(ns, x.userId).value, x);
      assert FindNeighbor(ns, x.userId).value in ns;
    }
  }

  /** With non-negative similarities, a computed prediction lies between the
      lowest and highest score the neighbours gave the guitar, rounded. */
  lemma PredictionBetween(nr: Option<NeighborsResult>, rs: seq<Rating>, g: nat, lo: real, hi: real)
    requires nr.Some? ==> forall n :: n in nr.value.neighbors ==> n.similarity >= 0.0
    requires nr.Some? ==> forall x :: x in NeighborRatings(rs, nr.value.neighbors, g) ==> lo <= x.averageRating <= hi
    requires PredictedRating(PredictFrom(nr, rs, g)).Some?
    ensures Round2(lo) <= PredictedRating(PredictFrom(nr, rs, g)).value <= Round2(hi)
  {
    var p := PredictFrom(nr, rs, g);
    assert p.Computed?;
    var ns := nr.value.neighbors;
    assert p.details == Contributions(NeighborRatings(rs, ns, g), ns);
    assert p.predictedRating.value == Round2(Numerator(p.details) / Denominator(p.details));
    DetailsWithin(rs, ns, g, lo, hi);
    RoundedAverageWithin(p.details, lo, hi);
  }

  /** With non-negative similarities within [lo, hi], the rounded weighted
      mean lies between the rounded bounds. */
  lemma RoundedAverageWithin(cs: seq<Contribution>, lo: real, hi: real)
    requires forall i :: 0 <= i < |cs| ==> cs[i].similarity >= 0.0 && lo <= cs[i].rating <= hi
    requires Denominator(cs) > 0.0
    ensures Round2(lo) <= Round2(Numerator(cs) / Denominator(cs)) <= Round2(hi)
  {
    WeightedWithin(cs, lo, hi);
    RoundedQuotientWithin(Numerator(cs), Denominator(cs), lo, hi);
  }

  /** `n` lies between `lo` and `hi` times `d`. */
  predicate ScaledBetween(n: real, d: real, lo: real, hi: real)
  {
    lo * d <= n <= hi * d
  }

  lemma RoundedQuotientWithin(n: real, d: real, lo: real, hi: real)
    requires d > 0.0
    requires ScaledBetween(n, d, lo, hi)
    ensures Round2(lo) <= Round2(n / d) <= Round2(hi)
  {
    QuotientWithin(n, d, lo, hi);
    RoundToMonotone(lo, n / d, 100.0);
    RoundToMonotone(n / d, hi, 100.0);
  }

  /** Under the schema every prediction is a score in [1, 5]. */
  lemma PredictionInRange(db: Db, targetId: nat, g: nat, k: int)
    requires WellFormed(db)
    requires PredictedRating(PredictRating(db, targetId, g, k)).Some?
    ensures 1.0 <= PredictedRating(PredictRating(db, targetId, g, k)).value <= 5.0
  {
    var nr := FindNearestNeighbors(db, targetId, k);
    NeighborWeightsNonNegative(db, targetId, k);
    NeighborScoresInRange(db, nr.value.neighbors, g);
    PredictionBetween(nr, db.ratings, g, 1.0, 5.0);
    RoundToWhole(1, 100.0);
    RoundToWhole(5, 100.0);
  }

  /** The neighbours' similarities are never negative. */
  lemma NeighborWeightsNonNegative(db: Db, targetId: nat, k: int)
    requires WellFormed(db)
    requires FindNearestNeighbors(db, targetId, k).Some?
    ensures forall n :: n in FindNearestNeighbors(db, targetId, k).value.neighbors ==> n.similarity >= 0.0
  {
    var sims := CalculateUserSimilarity(db, targetId).value.similarities;
    var ns := FindNearestNeighbors(db, targetId, k).value.neighbors;
    assert ns == sims[..|ns|];
    forall n | n in ns
      ensures n.similarity >= 0.0
    {
      var i :| 0 <= i < |ns| && ns[i] == n;
      assert n == sims[i];
      SimilarityInUnitRange(db, targetId, n);
    }
  }

  /** Under the schema every stored composite is in [1, 5]. */
  lemma NeighborScoresInRange(db: Db, ns: seq<SimilarityEntry>, g: nat)
    requires WellFormed(db)
    ensures forall x :: x in NeighborRatings(db.ratings, ns, g) ==> 1.0 <= x.averageRating <= 5.0
  {
    forall x | x in NeighborRatings(db.ratings, ns, g)
      ensures 1.0 <= x.averageRating <= 5.0
    {
      var j :| 0 <= j < |db.ratings| && db.ratings[j] == x;
      CompositeInRange(x.scores);
    }
  }
}
