/** The stored entities: users, guitars and ratings, as an in-memory snapshot
    of the database tables the recommender reads. */
module Domain {
  import opened Common

  datatype Role = UserRole | AdminRole

  datatype User = User(id: nat, name: string, role: Role)

  datatype Guitar = Guitar(
    id: nat,
    name: string,
    brand: string,
    guitarType: string,
    bodyType: string,
    strings: string,
    price: int,
    priceRange: string,
    imageUrl: Option<string>)

  /** The five criteria a user scores, each meant to be 1..5: guitar type
      (`jenisGitar`), body material (`bahanBody`), string type (`jenisSenar`),
      brand (`merek`) and price (`harga`). */
  datatype SubScores = SubScores(guitarType: int, bodyMaterial: int, stringType: int, brand: int, price: int)

  /** A stored rating; `averageRating` is the composite of the five scores. */
  datatype Rating = Rating(userId: nat, guitarId: nat, scores: SubScores, averageRating: real)

  /** The snapshot. `users` and `guitars` are in the order the recommender's
      queries return them (ascending name). */
  datatype Db = Db(users: seq<User>, guitars: seq<Guitar>, ratings: seq<Rating>)

  function ScoreList(s: SubScores): seq<int>
  {
    [s.guitarType, s.bodyMaterial, s.stringType, s.brand, s.price]
  }

  function ScoreSum(s: SubScores): int
  {
    s.guitarType + s.bodyMaterial + s.stringType + s.brand + s.price
  }

  /** `averageRating = (sum of the five scores) / 5`. */
  function Composite(s: SubScores): real
  {
    (ScoreSum(s) as real) / 5.0
  }

  /** The validation of `createOrUpdateRating`: no score below 1 or above 5. */
  predicate ScoresValid(s: SubScores)
  {
    forall i :: 0 <= i < 5 ==> 1 <= ScoreList(s)[i] <= 5
  }

  predicate HasUser(db: Db, id: nat)
  {
    exists i :: 0 <= i < |db.users| && db.users[i].id == id
  }

  predicate HasGuitar(guitars: seq<Guitar>, id: nat)
  {
    exists i :: 0 <= i < |guitars| && guitars[i].id == id
  }

  predicate UniquePairs(ratings: seq<Rating>)
  {
    forall i, j :: 0 <= i < j < |ratings| ==>
      (ratings[i].userId, ratings[i].guitarId) != (ratings[j].userId, ratings[j].guitarId)
  }

  /** What the database schema and the rating controller guarantee: unique
      ids, one rating per (user, guitar), foreign keys that resolve, and
      composites of valid scores. */
  predicate WellFormed(db: Db)
  {
    && (forall i, j :: 0 <= i < j < |db.users| ==> db.users[i].id != db.users[j].id)
    && (forall i, j :: 0 <= i < j < |db.guitars| ==> db.guitars[i].id != db.guitars[j].id)
    && UniquePairs(db.ratings)
    && (forall i :: 0 <= i < |db.ratings| ==>
          HasUser(db, db.ratings[i].userId) && HasGuitar(db.guitars, db.ratings[i].guitarId))
    && (forall i :: 0 <= i < |db.ratings| ==>
          ScoresValid(db.ratings[i].scores)
          && db.ratings[i].averageRating == Composite(db.ratings[i].scores))
  }

  /** A valid score set has a composite in [1, 5]. */
  lemma CompositeInRange(s: SubScores)
    requires ScoresValid(s)
    ensures 1.0 <= Composite(s) <= 5.0
  {
    assert 1 <= ScoreList(s)[0] <= 5 && 1 <= ScoreList(s)[1] <= 5 && 1 <= ScoreList(s)[2] <= 5;
    assert 1 <= ScoreList(s)[3] <= 5 && 1 <= ScoreList(s)[4] <= 5;
  }

  /** `rating.user.name`: the name of the user with that id, if any. */
  function UserName(users: seq<User>, id: nat): (r: Option<string>)
    ensures r.Some? <==> exists i :: 0 <= i < |users| && users[i].id == id
  {
    if |users| == 0 then None
    else if users[0].id == id then Some(users[0].name)
    else
      var r := UserName(users[1..], id);
      assert forall i :: 0 < i < |users| ==> users[i] == users[1..][i - 1];
      r
  }

  /** `guitar.name` for a guitar id, if the guitar exists. */
  function GuitarName(guitars: seq<Guitar>, id: nat): (r: Option<string>)
    ensures r.Some? <==> HasGuitar(guitars, id)
  {
    if |guitars| == 0 then None
    else if guitars[0].id == id then Some(guitars[0].name)
    else
      var r := GuitarName(guitars[1..], id);
      assert forall i :: 0 < i < |guitars| ==> guitars[i] == guitars[1..][i - 1];
      r
  }
}
