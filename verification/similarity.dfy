/** `calculateUserSimilarity` and `findNearestNeighbors`
    (backend/src/services/collaborativeFiltering.js): the cosine similarity of
    the target user with every other matrix row over the guitars both rated,
    sorted by similarity, and its first `k` entries. */
module Similarity {
  import opened Common
  import opened IntKeyed
  import opened Domain
  import opened Matrix
  import opened VectorMath
  import opened StableSort

  datatype TargetUser = TargetUser(userId: nat, userName: string, ratedGuitars: seq<nat>)

  datatype SimilarityEntry = SimilarityEntry(
    userId: nat,
    userName: string,
    similarity: real,
    commonGuitars: nat,
    targetVector: seq<real>,
    otherVector: seq<real>)

  datatype SimilarityResult = SimilarityResult(
    targetUser: TargetUser,
    similarities: seq<SimilarityEntry>,
    commonGuitars: seq<nat>)

  datatype NeighborsResult = NeighborsResult(
    targetUser: TargetUser,
    k: int,
    neighbors: seq<SimilarityEntry>,
    totalCandidates: nat)

  /** The sort key of the similarity list. */
  function SimilarityOf(e: SimilarityEntry): real
  {
    e.similarity
  }

  predicate RowsKeyed(rows: seq<Row>)
  {
    forall i :: 0 <= i < |rows| ==> Ascending(rows[i].ratings)
  }

  /** `matrix.find((m) => m.userId === id)`. */
  function FindRow(rows: seq<Row>, id: nat): (r: Option<Row>)
    ensures r.None? <==> forall i :: 0 <= i < |rows| ==> rows[i].userId != id
    ensures r.Some? ==> r.value.userId == id && r.value in rows
    ensures r.Some? ==> exists i :: 0 <= i < |rows| && rows[i] == r.value
                                  && forall j :: 0 <= j < i ==> rows[j].userId != id
  {
    if |rows| == 0 then None
    else if rows[0].userId == id then Some(rows[0])
    else
      var r := FindRow(rows[1..], id);
      assert forall i :: 0 < i < |rows| ==> rows[i] == rows[1..][i - 1];
      if r.Some? then
        var i :| 0 <= i < |rows[1..]| && rows[1..][i] == r.value
                 && forall j :: 0 <= j < i ==> rows[1..][j].userId != id;
        assert rows[i + 1] == r.value;
        r
      else r
  }

  /** The keys of the non-null cells, in key order (`targetRatedGuitars`). */
  function RatedGuitars(es: seq<Entry<Option<real>>>): (r: seq<nat>)
    ensures |r| <= |es|
    ensures forall g :: g in r <==> exists i :: 0 <= i < |es| && es[i].key == g && es[i].value.Some?
  {
    if |es| == 0 then []
    else
      var rest := RatedGuitars(es[1..]);
      assert forall i :: 0 < i < |es| ==> es[i] == es[1..][i - 1];
      (if es[0].value.Some? then [es[0].key] else []) + rest
  }

  /** The target's rated guitars that the other row also rated, in order. */
  function CommonGuitars(rated: seq<nat>, other: Row): (r: seq<nat>)
    ensures |r| <= |rated|
    ensures forall g :: g in r <==> g in rated && Cell(other, g).Some?
  {
    if |rated| == 0 then []
    else
      var rest := CommonGuitars(rated[1..], other);
      assert forall g :: g in rated <==> g == rated[0] || g in rated[1..];
      (if Cell(other, rated[0]).Some? then [rated[0]] else []) + rest
  }

  /** A row's cells for the given guitars (`targetVector`, `otherVector`). */
  function Vector(row: Row, gs: seq<nat>): (v: seq<real>)
    requires forall g :: g in gs ==> Cell(row, g).Some?
    ensures |v| == |gs|
    ensures forall i :: 0 <= i < |gs| ==> Some(v[i]) == Cell(row, gs[i])
  {
    seq(|gs|, i requires 0 <= i < |gs| => Cell(row, gs[i]).value)
  }

  /** The entry for the other row `o`, over the guitars both rated. */
  function EntryFor(target: Row, rated: seq<nat>, o: Row): (e: SimilarityEntry)
    requires forall g :: g in rated ==> Cell(target, g).Some?
  {
    var common := CommonGuitars(rated, o);
    var tv := Vector(target, common);
    var ov := Vector(o, common);
    SimilarityEntry(o.userId, o.userName, CosineSimilarity(tv, ov), |common|, tv, ov)
  }

  /** Whether the loop of `calculateUserSimilarity` produces an entry for `o`. */
  predicate Qualifies(target: Row, rated: seq<nat>, o: Row)
  {
    o.userId != target.userId && |CommonGuitars(rated, o)| > 0
  }

  /** The unsorted `similarities` list: one entry per qualifying row, in row order. */
  function Candidates(target: Row, rated: seq<nat>, rows: seq<Row>): (r: seq<SimilarityEntry>)
    requires forall g :: g in rated ==> Cell(target, g).Some?
    ensures |r| <= |rows|
    ensures forall e :: e in r <==> exists o :: o in rows && Qualifies(target, rated, o) && e == EntryFor(target, rated, o)
  {
    if |rows| == 0 then []
    else
      var rest := Candidates(target, rated, rows[1..]);
      assert forall o :: o in rows <==> o == rows[0] || o in rows[1..];
      if Qualifies(target, rated, rows[0]) then [EntryFor(target, rated, rows[0])] + rest else rest
  }

  /** `targetRatedGuitars` are exactly the guitars with a non-null cell. */
  lemma RatedGuitarsMeaning(row: Row)
    requires Ascending(row.ratings)
    ensures forall g :: g in RatedGuitars(row.ratings) <==> Cell(row, g).Some?
  {
    forall g
      ensures g in RatedGuitars(row.ratings) <==> Cell(row, g).Some?
    {
      if g in Keys(row.ratings) {
        var i :| 0 <= i < |row.ratings| && row.ratings[i].key == g;
        GetAt(row.ratings, i);
        if g in RatedGuitars(row.ratings) {
          var j :| 0 <= j < |row.ratings| && row.ratings[j].key == g && row.ratings[j].value.Some?;
          GetAt(row.ratings, j);
        }
      } else {
        forall i | 0 <= i < |row.ratings|
          ensures row.ratings[i].key != g
        {
          assert row.ratings[i].key in Keys(row.ratings);
        }
      }
    }
  }

  /** The similarity list for a target id, given the matrix rows. */
  function SimilaritiesIn(rows: seq<Row>, targetId: nat): (r: Option<SimilarityResult>)
    requires RowsKeyed(rows)
    ensures r.None? <==> forall i :: 0 <= i < |rows| ==> rows[i].userId != targetId
    ensures r.Some? ==> r.value.targetUser.userId == targetId
    ensures r.Some? ==> var target := FindRow(rows, targetId).value;
              r.value.targetUser.userName == target.userName
              && r.value.targetUser.ratedGuitars == RatedGuitars(target.ratings)
    ensures r.Some? ==> r.value.commonGuitars == r.value.targetUser.ratedGuitars
    ensures r.Some? && r.value.commonGuitars == [] ==> r.value.similarities == []
    ensures r.Some? ==> SortedDesc(r.value.similarities, SimilarityOf)
  {
    match FindRow(rows, targetId)
    case None => None
    case Some(target) =>
      var rated := RatedGuitars(target.ratings);
      if |rated| == 0 then Some(SimilarityResult(TargetUser(target.userId, target.userName, []), [], []))
      else
        RatedGuitarsMeaning(target);
        var sims := SortDesc(Candidates(target, rated, rows), SimilarityOf);
        Some(SimilarityResult(TargetUser(target.userId, target.userName, rated), sims, rated))
  }

  /** A target whose cells are all `null` gets an empty similarity list. */
  lemma UnratedTargetHasNoSimilarities(rows: seq<Row>, targetId: nat)
    requires RowsKeyed(rows)
    requires FindRow(rows, targetId).Some?
    requires forall g :: Cell(FindRow(rows, targetId).value, g).None?
    ensures SimilaritiesIn(rows, targetId).value.similarities == []
  {
    var target := FindRow(rows, targetId).value;
    var i :| 0 <= i < |rows| && rows[i] == target;
    RatedGuitarsMeaning(target);
    HeadListed(RatedGuitars(target.ratings));
  }

  lemma HeadListed(gs: seq<nat>)
    ensures |gs| > 0 ==> gs[0] in gs
  {
  }

  /** `calculateUserSimilarity(targetUserId)`: `None` is the source's `null`. */
  function CalculateUserSimilarity(db: Db, targetId: nat): (r: Option<SimilarityResult>)
    ensures r.None? <==> forall u :: u in db.users && u.role == UserRole ==> u.id != targetId
    ensures r.Some? ==> r.value.targetUser.userId == targetId
    ensures r.Some? ==> SortedDesc(r.value.similarities, SimilarityOf)
  {
    var rows := BuildUserItemMatrix(db).rows;
    ListedIds(db, targetId);
    SimilaritiesIn(rows, targetId)
  }

  /** A matrix row has the id exactly when a listed user does. */
  lemma ListedIds(db: Db, targetId: nat)
    ensures (exists i :: 0 <= i < |BuildUserItemMatrix(db).rows| && BuildUserItemMatrix(db).rows[i].userId == targetId)
            <==> exists u :: u in db.users && u.role == UserRole && u.id == targetId
  {
    var rows, us := BuildUserItemMatrix(db).rows, ListedUsers(db.users);
    if exists u :: u in db.users && u.role == UserRole && u.id == targetId {
      var u :| u in db.users && u.role == UserRole && u.id == targetId;
      assert u in us;
      var i :| 0 <= i < |us| && us[i] == u;
      assert rows[i].userId == targetId;
    }
    if exists i :: 0 <= i < |rows| && rows[i].userId == targetId {
      var i :| 0 <= i < |rows| && rows[i].userId == targetId;
      assert us[i] in us;
    }
  }

  /** The neighbour list cut from a similarity result:
      `similarities.slice(0, k)` and the number of candidates. */
  function Neighbors(res: SimilarityResult, k: int): (r: NeighborsResult)
    ensures r.targetUser == res.targetUser && r.k == k
    ensures r.totalCandidates == |res.similarities|
    ensures |r.neighbors| <= |res.similarities| && r.neighbors == res.similarities[..|r.neighbors|]
    ensures 0 <= k ==> |r.neighbors| == Min(k, |res.similarities|)
    ensures k < 0 ==> |r.neighbors| + Min(-k, |res.similarities|) == |res.similarities|
  {
    NeighborsResult(res.targetUser, k, Slice(res.similarities, k), |res.similarities|)
  }

  /** `findNearestNeighbors(targetUserId, k)`: `null` exactly when the
      similarity computation is `null`. */
  function FindNearestNeighbors(db: Db, targetId: nat, k: int): (r: Option<NeighborsResult>)
    ensures r.None? <==> CalculateUserSimilarity(db, targetId).None?
    ensures r.Some? ==> r.value == Neighbors(CalculateUserSimilarity(db, targetId).value, k)
  {
    match CalculateUserSimilarity(db, targetId)
    case None => None
    case Some(res) => Some(Neighbors(res, k))
  }

  // ---------------------------------------------------------------------
  // Properties of the similarity list

  /** The list of a found target is a stable sort of the qualifying rows'
      entries: entries of equal similarity stay in matrix order. */
  lemma SimilaritiesStable(rows: seq<Row>, targetId: nat, v: real)
    requires RowsKeyed(rows)
    requires SimilaritiesIn(rows, targetId).Some?
    ensures var target := FindRow(rows, targetId).value;
            var rated := RatedGuitars(target.ratings);
            (forall g :: g in rated ==> Cell(target, g).Some?)
            && WithKey(SimilaritiesIn(rows, targetId).value.similarities, SimilarityOf, v)
               == WithKey(if rated == [] then [] else Candidates(target, rated, rows), SimilarityOf, v)
  {
    var target := FindRow(rows, targetId).value;
    RatedGuitarsMeaning(target);
    var rated := RatedGuitars(target.ratings);
    if rated != [] {
      SortDescStable(Candidates(target, rated, rows), SimilarityOf, v);
    }
  }

  /** `e` is the entry the loop builds for row `o` against `target` over the
      guitar list `common`: the other user's id and name, the number of common
      guitars, the two users' cells for those guitars in the same order, and
      their cosine. */
  predicate EntryMatches(target: Row, common: seq<nat>, o: Row, e: SimilarityEntry)
  {
    && e.userId == o.userId && e.userName == o.userName
    && e.commonGuitars == |common| == |e.targetVector| == |e.otherVector|
    && (forall i :: 0 <= i < |common| ==>
          Some(e.targetVector[i]) == Cell(target, common[i]) && Some(e.otherVector[i]) == Cell(o, common[i]))
    && e.similarity == CosineSimilarity(e.targetVector, e.otherVector)
  }

  lemma EntryForMatches(target: Row, rated: seq<nat>, o: Row)
    requires forall g :: g in rated ==> Cell(target, g).Some?
    ensures EntryMatches(target, CommonGuitars(rated, o), o, EntryFor(target, rated, o))
  {
    var common := CommonGuitars(rated, o);
    assert forall i :: 0 <= i < |common| ==> common[i] in common;
  }

  /** Every similarity entry comes from another user's row sharing at least
      one rated guitar with the target, and is built from the guitars both
      rated. */
  lemma EntryShape(rows: seq<Row>, targetId: nat, e: SimilarityEntry)
    requires RowsKeyed(rows)
    requires SimilaritiesIn(rows, targetId).Some?
    requires e in SimilaritiesIn(rows, targetId).value.similarities
    ensures e.userId != targetId && e.commonGuitars >= 1
    ensures var target := FindRow(rows, targetId).value;
            var rated := SimilaritiesIn(rows, targetId).value.targetUser.ratedGuitars;
            exists o :: o in rows && EntryMatches(target, CommonGuitars(rated, o), o, e)
  {
    var target := FindRow(rows, targetId).value;
    RatedGuitarsMeaning(target);
    var rated := RatedGuitars(target.ratings);
    var cands := Candidates(target, rated, rows);
    assert e in multiset(SortDesc(cands, SimilarityOf));
    assert e in cands;
    var o :| o in rows && Qualifies(target, rated, o) && e == EntryFor(target, rated, o);
    EntryForMatches(target, rated, o);
  }

  /** Every other row sharing a rated guitar with the target gets an entry. */
  lemma EveryQualifyingRowListed(rows: seq<Row>, targetId: nat, o: Row)
    requires RowsKeyed(rows)
    requires SimilaritiesIn(rows, targetId).Some?
    requires o in rows
    ensures var target := FindRow(rows, targetId).value;
            var rated := RatedGuitars(target.ratings);
            (forall g :: g in rated ==> Cell(target, g).Some?)
            && (Qualifies(target, rated, o) ==>
                  EntryFor(target, rated, o) in SimilaritiesIn(rows, targetId).value.similarities)
  {
    var target := FindRow(rows, targetId).value;
    RatedGuitarsMeaning(target);
    var rated := RatedGuitars(target.ratings);
    if Qualifies(target, rated, o) {
      var cands := Candidates(target, rated, rows);
      assert EntryFor(target, rated, o) in cands;
      assert EntryFor(target, rated, o) in multiset(SortDesc(cands, SimilarityOf));
    }
  }

  /** Every neighbour is at least as similar as every candidate left out. */
  lemma NeighborsAreNearest(db: Db, targetId: nat, k: int)
    requires FindNearestNeighbors(db, targetId, k).Some?
    ensures var r := FindNearestNeighbors(db, targetId, k).value;
            var sims := CalculateUserSimilarity(db, targetId).value.similarities;
            forall i, j :: 0 <= i < |r.neighbors| <= j < |sims| ==>
              r.neighbors[i].similarity >= sims[j].similarity
  {
    var r := FindNearestNeighbors(db, targetId, k).value;
    var sims := CalculateUserSimilarity(db, targetId).value.similarities;
    assert SortedDesc(sims, SimilarityOf);
    assert r.neighbors == sims[..|r.neighbors|];
    forall i, j | 0 <= i < |r.neighbors| <= j < |sims|
      ensures r.neighbors[i].similarity >= sims[j].similarity
    {
      assert r.neighbors[i] == sims[i];
      assert SimilarityOf(sims[i]) >= SimilarityOf(sims[j]);
    }
  }

  /** With the schema's scores, which are all positive, every similarity lies in [0, 1]. */
  lemma SimilarityInUnitRange(db: Db, targetId: nat, e: SimilarityEntry)
    requires WellFormed(db)
    requires CalculateUserSimilarity(db, targetId).Some?
    requires e in CalculateUserSimilarity(db, targetId).value.similarities
    ensures 0.0 <= e.similarity <= 1.0
  {
    var rows := BuildUserItemMatrix(db).rows;
    EntryShape(rows, targetId, e);
    var target := FindRow(rows, targetId).value;
    var rated := SimilaritiesIn(rows, targetId).value.targetUser.ratedGuitars;
    var o :| o in rows && EntryMatches(target, CommonGuitars(rated, o), o, e);
    var common := CommonGuitars(rated, o);
    forall i | 0 <= i < |common|
      ensures e.targetVector[i] >= 0.0 && e.otherVector[i] >= 0.0
    {
      CellInRange(db, target, common[i]);
      CellInRange(db, o, common[i]);
    }
    CosineOfNonNegative(e.targetVector, e.otherVector);
  }
}
