/** The rules `GuitarController` (backend/src/controllers/guitarController.js)
    applies around the database: price buckets, the per-guitar mean score,
    the field rules of creating and updating a guitar, and the list of
    guitars a user has not rated yet. */
module GuitarRules {
  import opened Common
  import opened Arith
  import opened Rounding
  import opened VectorMath
  import opened Domain

  // ---------------------------------------------------------------------
  // Price ranges

  /** 0 up to Rp 749.999, 1 up to Rp 999.999, 2 up to Rp 1.249.999, 3 above. */
  function PriceBucket(price: int): (b: nat)
    ensures b <= 3
    ensures b == 0 <==> price <= 749999
    ensures b == 1 <==> 750000 <= price <= 999999
    ensures b == 2 <==> 1000000 <= price <= 1249999
    ensures b == 3 <==> 1250000 <= price
  {
    if price <= 749999 then 0
    else if price <= 999999 then 1
    else if price <= 1249999 then 2
    else 3
  }

  function BucketLabel(b: nat): string
    requires b <= 3
  {
    ["<= Rp 749.999", "Rp 750.000 – 999.999", "Rp 1.000.000 – 1.249.999", ">= Rp 1.250.000"][b]
  }

  /** `determinePriceRange(price)` for a price that is already an integer. */
  function DeterminePriceRange(price: int): (r: string)
    ensures r == "<= Rp 749.999" <==> price <= 749999
    ensures r == "Rp 750.000 – 999.999" <==> 750000 <= price <= 999999
    ensures r == "Rp 1.000.000 – 1.249.999" <==> 1000000 <= price <= 1249999
    ensures r == ">= Rp 1.250.000" <==> 1250000 <= price
  {
    var b := PriceBucket(price);
    LabelsDistinct(b, 0);
    LabelsDistinct(b, 1);
    LabelsDistinct(b, 2);
    LabelsDistinct(b, 3);
    BucketLabel(b)
  }

  /** The four labels are distinct, so the label determines the bucket. */
  lemma LabelsDistinct(b1: nat, b2: nat)
    requires b1 <= 3 && b2 <= 3
    ensures BucketLabel(b1) == BucketLabel(b2) <==> b1 == b2
  {
    var labels := ["<= Rp 749.999", "Rp 750.000 – 999.999", "Rp 1.000.000 – 1.249.999", ">= Rp 1.250.000"];
    assert labels[0][0] != labels[1][0] && labels[0][0] != labels[2][0] && labels[1][0] == labels[2][0];
    assert labels[1][3] != labels[2][3];
    assert labels[3][0] != labels[0][0] && labels[3][0] != labels[1][0] && labels[3][0] != labels[2][0];
  }

  /** A higher price never falls in a lower bucket. */
  lemma PriceRangeMonotone(p: int, q: int)
    requires p <= q
    ensures PriceBucket(p) <= PriceBucket(q)
  {
  }

  /** Two prices get the same label exactly when they fall in the same bucket. */
  lemma SameRangeIff(p: int, q: int)
    ensures DeterminePriceRange(p) == DeterminePriceRange(q) <==> PriceBucket(p) == PriceBucket(q)
  {
    LabelsDistinct(PriceBucket(p), PriceBucket(q));
  }

  /** A stored guitar whose range label is the one its price gives. */
  predicate PriceRangeConsistent(g: Guitar)
  {
    g.priceRange == DeterminePriceRange(g.price)
  }

  // ---------------------------------------------------------------------
  // Per-guitar mean score

  datatype GuitarStats = GuitarStats(guitar: Guitar, averageRating: Option<real>, totalRatings: nat)

  /** The composites of the ratings of guitar `id`, in stored order. */
  function ScoresOf(rs: seq<Rating>, id: nat): (r: seq<real>)
    ensures |r| <= |rs|
    ensures forall v :: v in r ==> exists x :: x in rs && x.guitarId == id && x.averageRating == v
  {
    if |rs| == 0 then []
    else
      var rest := ScoresOf(rs[1..], id);
      assert forall x :: x in rs[1..] ==> x in rs;
      (if rs[0].guitarId == id then [rs[0].averageRating] else []) + rest
  }

  /** `avgRating ? Math.round(avgRating * 100) / 100 : null`: `null` when
      there is no score, and also when the mean is 0. */
  function MeanScore(scores: seq<real>): (r: Option<real>)
    ensures r.None? <==> |scores| == 0 || Sum(scores) / (|scores| as real) == 0.0
    ensures r.Some? ==> |scores| > 0 && r.value == Round2(Sum(scores) / (|scores| as real))
  {
    if |scores| == 0 then None
    else
      var mean := Sum(scores) / (|scores| as real);
      if mean == 0.0 then None else Some(Round2(mean))
  }

  /** The per-guitar figures of `getAllGuitars` and `getGuitarById`. */
  function StatsOf(db: Db, g: Guitar): (s: GuitarStats)
    ensures s.guitar == g
    ensures s.totalRatings == |ScoresOf(db.ratings, g.id)|
    ensures s.totalRatings == 0 ==> s.averageRating.None?
  {
    var scores := ScoresOf(db.ratings, g.id);
    GuitarStats(g, MeanScore(scores), |scores|)
  }

  /** With scores of at least 1 the mean is never 0, so it agrees with
      `average` of the math utilities and lies between the rounded bounds. */
  lemma MeanScoreAgrees(scores: seq<real>, lo: real, hi: real)
    requires |scores| > 0 && 0.0 < lo
    requires forall i :: 0 <= i < |scores| ==> lo <= scores[i] <= hi
    ensures MeanScore(scores) == Some(Average(scores))
    ensures Round2(lo) <= MeanScore(scores).value <= Round2(hi)
  {
    MeanWithin(scores, lo, hi);
    AverageWithin(scores, lo, hi);
  }

  /** Under the schema a rated guitar shows a mean in [1, 5]. */
  lemma StatsInRange(db: Db, g: Guitar)
    requires WellFormed(db)
    requires StatsOf(db, g).totalRatings > 0
    ensures StatsOf(db, g).averageRating.Some?
    ensures 1.0 <= StatsOf(db, g).averageRating.value <= 5.0
  {
    var scores := ScoresOf(db.ratings, g.id);
    forall i | 0 <= i < |scores|
      ensures 1.0 <= scores[i] <= 5.0
    {
      assert scores[i] in scores;
      var x :| x in db.ratings && x.guitarId == g.id && x.averageRating == scores[i];
      var j :| 0 <= j < |db.ratings| && db.ratings[j] == x;
      CompositeInRange(x.scores);
    }
    MeanScoreAgrees(scores, 1.0, 5.0);
    RoundToWhole(1, 100.0);
    RoundToWhole(5, 100.0);
  }

  /** The stored guitars listed in the order of their creation times, the
      `orderBy: { createdAt: "asc" }` of the guitar queries. The database
      keeps `db.guitars` in name order; `byCreation` holds the same guitars. */
  predicate CreationOrder(db: Db, byCreation: seq<Guitar>)
  {
    multiset(byCreation) == multiset(db.guitars)
  }

  /** `getAllGuitars` without its query filters: every guitar, oldest first,
      with its figures. */
  function AllGuitarStats(db: Db, byCreation: seq<Guitar>): (r: seq<GuitarStats>)
    requires CreationOrder(db, byCreation)
    ensures |r| == |db.guitars|
    ensures forall i :: 0 <= i < |r| ==>
              r[i].guitar == byCreation[i] && r[i].totalRatings == |ScoresOf(db.ratings, byCreation[i].id)|
    ensures forall g :: g in db.guitars <==> exists i :: 0 <= i < |r| && r[i].guitar == g
  {
    assert |byCreation| == |multiset(byCreation)| == |db.guitars|;
    var r := seq(|byCreation|, i requires 0 <= i < |byCreation| => StatsOf(db, byCreation[i]));
    assert forall g :: g in db.guitars <==> g in byCreation by {
      forall g ensures g in db.guitars <==> g in byCreation {
        assert g in db.guitars <==> multiset(db.guitars)[g] > 0;
        assert g in byCreation <==> multiset(byCreation)[g] > 0;
      }
    }
    r
  }

  /** The first guitar with id `id`. */
  function FindGuitar(gs: seq<Guitar>, id: nat): (r: Option<Guitar>)
    ensures r.None? <==> !HasGuitar(gs, id)
    ensures r.Some? ==> r.value in gs && r.value.id == id
  {
    if |gs| == 0 then None
    else if gs[0].id == id then Some(gs[0])
    else
      var r := FindGuitar(gs[1..], id);
      assert forall i :: 0 < i < |gs| ==> gs[i] == gs[1..][i - 1];
      r
  }

  /** `getGuitarById`: 404 "Gitar tidak ditemukan" for an unknown id. */
  function GetGuitarById(db: Db, id: nat): (r: Result<GuitarStats, string>)
    ensures r.Err? <==> !HasGuitar(db.guitars, id)
    ensures r.Err? ==> r.error == "Gitar tidak ditemukan"
    ensures r.Ok? ==> r.value.guitar in db.guitars && r.value.guitar.id == id
    ensures r.Ok? ==> r.value.totalRatings == |ScoresOf(db.ratings, id)|
  {
    match FindGuitar(db.guitars, id)
    case None => Err("Gitar tidak ditemukan")
    case Some(g) => Ok(StatsOf(db, g))
  }

  // ---------------------------------------------------------------------
  // Creating and updating a guitar

  /** The request body. A text field is `None` when absent; a price is the
      integer `parseInt` reads, `None` when absent. */
  datatype GuitarRequest = GuitarRequest(
    name: Option<string>,
    brand: Option<string>,
    guitarType: Option<string>,
    bodyType: Option<string>,
    strings: Option<string>,
    price: Option<int>,
    imageUrl: Option<string>)

  datatype GuitarError = MissingFields | DuplicateName | GuitarNotFound

  function GuitarErrorMessage(e: GuitarError): string
  {
    match e
    case MissingFields => "Semua field (kecuali gambar) wajib diisi"
    case DuplicateName => "Gitar dengan nama tersebut sudah ada"
    case GuitarNotFound => "Data tidak ditemukan"
  }

  /** JavaScript truthiness of an optional text: absent and `""` are false. */
  predicate Given(s: Option<string>)
  {
    s.Some? && s.value != ""
  }

  /** JavaScript truthiness of an optional number: absent and 0 are false. */
  predicate PriceGiven(p: Option<int>)
  {
    p.Some? && p.value != 0
  }

  /** `imageUrl !== "" ? imageUrl : null`: an empty URL is stored as `null`. */
  function StoredImage(url: Option<string>): (r: Option<string>)
    ensures r.Some? <==> Given(url)
    ensures r.Some? ==> r == url
  {
    if url == Some("") then None else url
  }

  /** Whether another guitar (not `except`) has a name `sameName` matches;
      `sameName` is the database's case-insensitive comparison. */
  predicate NameTaken(store: seq<Guitar>, name: string, except: Option<nat>, sameName: (string, string) -> bool)
  {
    exists i :: 0 <= i < |store| && sameName(store[i].name, name) && Some(store[i].id) != except
  }

  /** `createGuitar`: `newId` is the id the database assigns. */
  function CreateGuitar(store: seq<Guitar>, req: GuitarRequest, newId: nat, sameName: (string, string) -> bool)
    : (r: Result<Guitar, GuitarError>)
    ensures r == Err(MissingFields) <==>
              !(Given(req.name) && Given(req.brand) && Given(req.guitarType) && Given(req.bodyType)
                && Given(req.strings) && PriceGiven(req.price))
    ensures r == Err(DuplicateName) <==> !(r == Err(MissingFields)) && NameTaken(store, req.name.value, None, sameName)
    ensures r.Ok? ==>
              && r.value.id == newId
              && Some(r.value.name) == req.name && Some(r.value.brand) == req.brand
              && Some(r.value.guitarType) == req.guitarType && Some(r.value.bodyType) == req.bodyType
              && Some(r.value.strings) == req.strings && Some(r.value.price) == req.price
              && r.value.imageUrl == StoredImage(req.imageUrl)
              && PriceRangeConsistent(r.value)
  {
    if !(Given(req.name) && Given(req.brand) && Given(req.guitarType) && Given(req.bodyType)
         && Given(req.strings) && PriceGiven(req.price)) then
      Err(MissingFields)
    else if NameTaken(store, req.name.value, None, sameName) then
      Err(DuplicateName)
    else
      var price := req.price.value;
      Ok(Guitar(newId, req.name.value, req.brand.value, req.guitarType.value, req.bodyType.value,
                req.strings.value, price, DeterminePriceRange(price), StoredImage(req.imageUrl)))
  }

  /** `updateData` applied to one guitar: absent fields are kept, present
      ones (even `""`) are written; price and range change only for a
      truthy price; an absent image is kept and `""` clears it. */
  function Patch(g: Guitar, req: GuitarRequest): (r: Guitar)
    ensures r.id == g.id
    ensures PriceGiven(req.price) ==> r.price == req.price.value && r.priceRange == DeterminePriceRange(r.price)
    ensures !PriceGiven(req.price) ==> r.price == g.price && r.priceRange == g.priceRange
    ensures PriceRangeConsistent(g) ==> PriceRangeConsistent(r)
  {
    var patched := g.(
      name := if req.name.Some? then req.name.value else g.name,
      brand := if req.brand.Some? then req.brand.value else g.brand,
      guitarType := if req.guitarType.Some? then req.guitarType.value else g.guitarType,
      bodyType := if req.bodyType.Some? then req.bodyType.value else g.bodyType,
      strings := if req.strings.Some? then req.strings.value else g.strings,
      imageUrl := if req.imageUrl.Some? then StoredImage(req.imageUrl) else g.imageUrl);
    if PriceGiven(req.price) then
      patched.(price := req.price.value, priceRange := DeterminePriceRange(req.price.value))
    else patched
  }

  predicate HasId(store: seq<Guitar>, id: nat)
  {
    exists i :: 0 <= i < |store| && store[i].id == id
  }

  /** `updateGuitar` on the stored guitars: the duplicate-name check runs
      first, and only for a truthy name; then the guitar with the id is
      patched (the database's "not found" error when there is none). */
  function UpdateGuitar(store: seq<Guitar>, id: nat, req: GuitarRequest, sameName: (string, string) -> bool)
    : (r: Result<seq<Guitar>, GuitarError>)
    ensures r == Err(DuplicateName) <==> Given(req.name) && NameTaken(store, req.name.value, Some(id), sameName)
    ensures r == Err(GuitarNotFound) <==> !(r == Err(DuplicateName)) && !HasId(store, id)
    ensures r != Err(MissingFields)
    ensures r.Ok? ==> |r.value| == |store|
    ensures r.Ok? ==> forall i :: 0 <= i < |store| ==>
              r.value[i] == if store[i].id == id then Patch(store[i], req) else store[i]
  {
    if Given(req.name) && NameTaken(store, req.name.value, Some(id), sameName) then Err(DuplicateName)
    else if !HasId(store, id) then Err(GuitarNotFound)
    else Ok(seq(|store|, i requires 0 <= i < |store| => if store[i].id == id then Patch(store[i], req) else store[i]))
  }

  /** Creating and updating keep every guitar's range label in step with its price. */
  lemma UpdateKeepsRanges(store: seq<Guitar>, id: nat, req: GuitarRequest, sameName: (string, string) -> bool)
    requires forall i :: 0 <= i < |store| ==> PriceRangeConsistent(store[i])
    requires UpdateGuitar(store, id, req, sameName).Ok?
    ensures forall g :: g in UpdateGuitar(store, id, req, sameName).value ==> PriceRangeConsistent(g)
  {
    var r := UpdateGuitar(store, id, req, sameName).value;
    forall g | g in r
      ensures PriceRangeConsistent(g)
    {
      var i :| 0 <= i < |r| && r[i] == g;
    }
  }

  // ---------------------------------------------------------------------
  // Guitars a user has not rated

  /** The guitar ids user `u` rated. */
  function RatedIds(rs: seq<Rating>, u: int): (r: set<nat>)
    ensures forall g :: g in r <==> exists x :: x in rs && x.userId == u && x.guitarId == g
  {
    set x | x in rs && x.userId == u :: x.guitarId
  }

  /** `allGuitars.filter((g) => !ratedGuitarIds.has(g.id))`. */
  function WithoutIds(gs: seq<Guitar>, ids: set<nat>): (r: seq<Guitar>)
    ensures |r| <= |gs|
    ensures forall g :: g in r <==> g in gs && g.id !in ids
    ensures IsSubsequence(r, gs)
  {
    if |gs| == 0 then []
    else
      var rest := WithoutIds(gs[1..], ids);
      assert forall g :: g in gs <==> g == gs[0] || g in gs[1..];
      if gs[0].id !in ids then
        assert ([gs[0]] + rest)[1..] == rest;
        [gs[0]] + rest
      else rest
  }

  /** `getUnratedGuitarsByUser`; the path parameter as `parseInt` reads it,
      `None` for `NaN`. `NaN` and 0 are rejected. The guitars come oldest first. */
  function UnratedGuitarsOf(db: Db, byCreation: seq<Guitar>, userId: Option<int>): (r: Result<seq<Guitar>, string>)
    requires CreationOrder(db, byCreation)
    ensures r.Err? <==> userId.None? || userId.value == 0
    ensures r.Err? ==> r.error == "Invalid User ID"
    ensures r.Ok? ==> IsSubsequence(r.value, byCreation)
    ensures r.Ok? ==> forall g :: g in r.value <==>
              g in db.guitars && !exists x :: x in db.ratings && x.userId == userId.value && x.guitarId == g.id
  {
    if userId.None? || userId.value == 0 then Err("Invalid User ID")
    else
      assert forall g :: g in db.guitars <==> g in byCreation by {
        forall g ensures g in db.guitars <==> g in byCreation {
          assert g in db.guitars <==> multiset(db.guitars)[g] > 0;
          assert g in byCreation <==> multiset(byCreation)[g] > 0;
        }
      }
      Ok(WithoutIds(byCreation, RatedIds(db.ratings, userId.value)))
  }
}
