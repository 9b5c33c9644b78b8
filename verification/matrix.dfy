/** `buildUserItemMatrix` (backend/src/services/collaborativeFiltering.js):
    one row per user of role "user", in the order of the user list; each row
    maps every guitar id to `null`, then to the composite score of the
    user's rating of that guitar. */
module Matrix {
  import opened Common
  import opened IntKeyed
  import opened Domain

  /** `{ id, name }` as the matrix result lists users and guitars. */
  datatype Ref = Ref(id: nat, name: string)

  /** `{ userId, userName, ratings }`; `ratings` maps guitar ids to a
      composite score or `null` (`None`). */
  datatype Row = Row(userId: nat, userName: string, ratings: seq<Entry<Option<real>>>)

  datatype UserItemMatrix = UserItemMatrix(users: seq<Ref>, guitars: seq<Ref>, rows: seq<Row>)

  /** The users of role "user", in order. */
  function ListedUsers(users: seq<User>): (r: seq<User>)
    ensures |r| <= |users|
    ensures forall u :: u in r <==> u in users && u.role == UserRole
    ensures IsSubsequence(r, users)
  {
    if |users| == 0 then []
    else
      var rest := ListedUsers(users[1..]);
      if users[0].role == UserRole then
        assert ([users[0]] + rest)[1..] == rest;
        [users[0]] + rest
      else rest
  }

  /** The composite of the last rating of guitar `g` by user `u`, if any:
      the value a cell ends up with after all ratings are written in order. */
  function RatingOf(rs: seq<Rating>, u: nat, g: nat): (r: Option<real>)
    ensures r.None? <==> forall i :: 0 <= i < |rs| ==> !(rs[i].userId == u && rs[i].guitarId == g)
    ensures r.Some? ==> exists i :: 0 <= i < |rs| && rs[i].userId == u && rs[i].guitarId == g
                                  && rs[i].averageRating == r.value
  {
    if |rs| == 0 then None
    else
      var last := rs[|rs| - 1];
      if last.userId == u && last.guitarId == g then Some(last.averageRating)
      else
        var r := RatingOf(rs[..|rs| - 1], u, g);
        assert forall i :: 0 <= i < |rs| - 1 ==> rs[..|rs| - 1][i] == rs[i];
        r
  }

  /** Every guitar's key set to `null`, in key order. */
  function EmptyRow(gs: seq<Guitar>): (r: seq<Entry<Option<real>>>)
    ensures Ascending(r)
  {
    if |gs| == 0 then []
    else Put(EmptyRow(gs[..|gs| - 1]), gs[|gs| - 1].id, None)
  }

  /** Writes the composite of every rating by user `u`, in order. */
  function FillRow(es: seq<Entry<Option<real>>>, u: nat, rs: seq<Rating>): (r: seq<Entry<Option<real>>>)
    requires Ascending(es)
    ensures Ascending(r)
  {
    if |rs| == 0 then es
    else
      var prev := FillRow(es, u, rs[..|rs| - 1]);
      var x := rs[|rs| - 1];
      if x.userId == u then Put(prev, x.guitarId, Some(x.averageRating)) else prev
  }

  function BuildRow(db: Db, u: User): Row
  {
    Row(u.id, u.name, FillRow(EmptyRow(db.guitars), u.id, db.ratings))
  }

  function BuildUserItemMatrix(db: Db): (m: UserItemMatrix)
    ensures |m.rows| == |ListedUsers(db.users)| == |m.users|
    ensures |m.guitars| == |db.guitars|
    ensures forall i :: 0 <= i < |m.rows| ==> Ascending(m.rows[i].ratings)
    ensures forall i :: 0 <= i < |m.rows| ==>
      m.rows[i].userId == m.users[i].id == ListedUsers(db.users)[i].id
      && m.rows[i].userName == m.users[i].name == ListedUsers(db.users)[i].name
  {
    var us := ListedUsers(db.users);
    UserItemMatrix(
      seq(|us|, i requires 0 <= i < |us| => Ref(us[i].id, us[i].name)),
      seq(|db.guitars|, i requires 0 <= i < |db.guitars| => Ref(db.guitars[i].id, db.guitars[i].name)),
      seq(|us|, i requires 0 <= i < |us| => BuildRow(db, us[i])))
  }

  /** `row.ratings[g]` read as a rating: `None` for `null`, and also for an
      absent key. */
  function Cell(row: Row, g: nat): Option<real>
  {
    match Get(row.ratings, g)
    case None => None
    case Some(c) => c
  }

  // ---------------------------------------------------------------------
  // What the cells hold

  lemma {:induction false} EmptyRowCell(gs: seq<Guitar>, g: nat)
    ensures Get(EmptyRow(gs), g) == if HasGuitar(gs, g) then Some(None) else None
  {
    if |gs| > 0 {
      var init, last := gs[..|gs| - 1], gs[|gs| - 1];
      EmptyRowCell(init, g);
      assert HasGuitar(gs, g) <==> HasGuitar(init, g) || last.id == g by {
        if HasGuitar(gs, g) {
          var i :| 0 <= i < |gs| && gs[i].id == g;
          if i < |gs| - 1 {
            assert init[i].id == g;
          }
        }
        if HasGuitar(init, g) {
          var i :| 0 <= i < |init| && init[i].id == g;
          assert gs[i].id == g;
        }
      }
      if last.id == g {
        GetPutSame(EmptyRow(init), g, None);
      } else {
        GetPutOther(EmptyRow(init), last.id, None, g);
      }
    }
  }

  lemma {:induction false} FillRowCell(es: seq<Entry<Option<real>>>, u: nat, rs: seq<Rating>, g: nat)
    requires Ascending(es)
    ensures Get(FillRow(es, u, rs), g)
            == if RatingOf(rs, u, g).Some? then Some(RatingOf(rs, u, g)) else Get(es, g)
  {
    if |rs| > 0 {
      var init, x := rs[..|rs| - 1], rs[|rs| - 1];
      FillRowCell(es, u, init, g);
      var prev := FillRow(es, u, init);
      if x.userId == u {
        if x.guitarId == g {
          GetPutSame(prev, g, Some(x.averageRating));
        } else {
          GetPutOther(prev, x.guitarId, Some(x.averageRating), g);
        }
      }
    }
  }

  /** A row's entry for guitar `g`: the user's composite for `g` if they
      rated it, `null` for any other listed guitar, absent otherwise. */
  lemma RowEntry(db: Db, u: User, g: nat)
    ensures Get(BuildRow(db, u).ratings, g)
            == if RatingOf(db.ratings, u.id, g).Some? then Some(RatingOf(db.ratings, u.id, g))
               else if HasGuitar(db.guitars, g) then Some(None)
               else None
  {
    FillRowCell(EmptyRow(db.guitars), u.id, db.ratings, g);
    EmptyRowCell(db.guitars, g);
  }

  /** Cell meaning: a cell is non-null exactly when the row's user rated the
      guitar, and then holds that rating's composite. */
  lemma MatrixCell(db: Db, i: nat, g: nat)
    requires i < |BuildUserItemMatrix(db).rows|
    ensures Cell(BuildUserItemMatrix(db).rows[i], g)
            == RatingOf(db.ratings, BuildUserItemMatrix(db).rows[i].userId, g)
  {
    RowEntry(db, ListedUsers(db.users)[i], g);
  }

  /** Under the foreign keys every row has a key for exactly the listed guitars. */
  lemma MatrixRowKeys(db: Db, i: nat, g: nat)
    requires WellFormed(db)
    requires i < |BuildUserItemMatrix(db).rows|
    ensures g in Keys(BuildUserItemMatrix(db).rows[i].ratings) <==> HasGuitar(db.guitars, g)
  {
    var u := ListedUsers(db.users)[i];
    RowEntry(db, u, g);
    if RatingOf(db.ratings, u.id, g).Some? {
      var j :| 0 <= j < |db.ratings| && db.ratings[j].userId == u.id && db.ratings[j].guitarId == g;
    }
  }

  /** Under the schema every non-null cell holds a composite in [1, 5]. */
  lemma CellInRange(db: Db, row: Row, g: nat)
    requires WellFormed(db)
    requires row in BuildUserItemMatrix(db).rows
    requires Cell(row, g).Some?
    ensures 1.0 <= Cell(row, g).value <= 5.0
  {
    var rows := BuildUserItemMatrix(db).rows;
    var i :| 0 <= i < |rows| && rows[i] == row;
    MatrixCell(db, i, g);
    var j :| 0 <= j < |db.ratings| && db.ratings[j].userId == row.userId && db.ratings[j].guitarId == g
             && db.ratings[j].averageRating == Cell(row, g).value;
    CompositeInRange(db.ratings[j].scores);
  }

  // ---------------------------------------------------------------------
  // Ratings by users without a row are ignored

  /** The ratings whose author is in `ids`, in order. */
  function RatingsBy(rs: seq<Rating>, ids: set<nat>): (r: seq<Rating>)
    ensures |r| <= |rs|
  {
    if |rs| == 0 then []
    else RatingsBy(rs[..|rs| - 1], ids) + (if rs[|rs| - 1].userId in ids then [rs[|rs| - 1]] else [])
  }

  function ListedIds(db: Db): set<nat>
  {
    set u | u in ListedUsers(db.users) :: u.id
  }

  lemma {:induction false} FillRowOnlyOwn(es: seq<Entry<Option<real>>>, u: nat, rs: seq<Rating>, ids: set<nat>)
    requires Ascending(es) && u in ids
    ensures FillRow(es, u, RatingsBy(rs, ids)) == FillRow(es, u, rs)
  {
    if |rs| > 0 {
      var init, x := rs[..|rs| - 1], rs[|rs| - 1];
      FillRowOnlyOwn(es, u, init, ids);
      var kept := RatingsBy(init, ids);
      if x.userId in ids {
        assert RatingsBy(rs, ids) == kept + [x];
        assert (kept + [x])[..|kept|] == kept;
      } else {
        assert RatingsBy(rs, ids) == kept;
      }
    }
  }

  /** Ratings by admins (or by anyone without a row) do not change the matrix. */
  lemma AdminRatingsIgnored(db: Db)
    ensures BuildUserItemMatrix(db.(ratings := RatingsBy(db.ratings, ListedIds(db))))
            == BuildUserItemMatrix(db)
  {
    var db' := db.(ratings := RatingsBy(db.ratings, ListedIds(db)));
    var us := ListedUsers(db.users);
    var m, m' := BuildUserItemMatrix(db), BuildUserItemMatrix(db');
    forall i | 0 <= i < |us|
      ensures m'.rows[i] == m.rows[i]
    {
      assert us[i] in us;
      FillRowOnlyOwn(EmptyRow(db.guitars), us[i].id, db.ratings, ListedIds(db));
    }
  }
}
