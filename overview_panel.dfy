/**
 * The grid of question tiles: one tile per question, coloured by the first of
 * current, marked, attempted, visited that applies, with a star on marked
 * tiles other than the current one.
 */
module OverviewPanel {
  import opened Types
  import opened QuizContext

  datatype TileStatus = Current | Marked | Attempted | Visited | NotVisited

  /** Whether the session's lists support showing tile `i` with status `t`. */
  predicate Applies(t: TileStatus, i: int, s: QuizState) {
    match t
    case Current => i == s.currentIndex
    case Marked => i in s.markedForReview
    case Attempted => i in s.attempted
    case Visited => i in s.visited
    case NotVisited => true
  }

  /** Precedence of the statuses, highest first. */
  function Rank(t: TileStatus): nat {
    match t
    case Current => 0
    case Marked => 1
    case Attempted => 2
    case Visited => 3
    case NotVisited => 4
  }

  /** The colour class of tile `i`: the highest-ranking status that applies. */
  function Status(i: int, s: QuizState): (t: TileStatus)
    ensures Applies(t, i, s)
    ensures forall u :: Applies(u, i, s) ==> Rank(t) <= Rank(u)
  {
    if i == s.currentIndex then Current
    else if i in s.markedForReview then Marked
    else if i in s.attempted then Attempted
    else if i in s.visited then Visited
    else NotVisited
  }

  /** The precedence spelled out case by case. */
  lemma StatusCases(i: int, s: QuizState)
    ensures Status(i, s) == Current <==> i == s.currentIndex
    ensures i != s.currentIndex && i in s.markedForReview ==> Status(i, s) == Marked
    ensures i != s.currentIndex && i !in s.markedForReview && i in s.attempted ==> Status(i, s) == Attempted
    ensures Status(i, s) == NotVisited <==>
      i != s.currentIndex && i !in s.markedForReview && i !in s.attempted && i !in s.visited
  {
    var t := Status(i, s);
    assert Applies(Current, i, s) ==> Rank(t) <= 0;
    assert Applies(Marked, i, s) ==> Rank(t) <= 1;
    assert Applies(Attempted, i, s) ==> Rank(t) <= 2;
    assert Applies(Visited, i, s) ==> Rank(t) <= 3;
  }

  /** `isMarked && !active`. */
  predicate ShowStar(i: int, s: QuizState) {
    i in s.markedForReview && i != s.currentIndex
  }

  /** A tile: its label, colour, star, and the index its click passes to `goTo`. */
  datatype Tile = Tile(number: int, status: TileStatus, star: bool, target: int)

  function Tiles(s: QuizState): (ts: seq<Tile>)
    ensures |ts| == |s.questions|
  {
    seq(|s.questions|, i => Tile(i + 1, Status(i, s), ShowStar(i, s), i))
  }

  /**
   * One tile per question, labelled from 1, each clicking through to its own
   * question; the star shows exactly on the tiles coloured as marked.
   */
  lemma TilesSpec(s: QuizState)
    ensures forall i :: 0 <= i < |Tiles(s)| ==>
      && Tiles(s)[i].number == i + 1
      && Tiles(s)[i].target == i
      && Tiles(s)[i].status == Status(i, s)
      && (Tiles(s)[i].star <==> Tiles(s)[i].status == Marked)
  {
    forall i | 0 <= i < |Tiles(s)|
      ensures Tiles(s)[i].star <==> Tiles(s)[i].status == Marked
    {
      StatusCases(i, s);
    }
  }

  /** Clicking a tile, while time remains, makes its question the current one and visited. */
  lemma TileClickMoves(s: QuizState, i: int)
    requires 0 <= i < |s.questions| && !s.hasTimerExpired
    ensures var r := Moved(s, Tiles(s)[i].target);
      r.currentIndex == i && i in r.visited && Status(i, r) == Current
  {
  }
}
