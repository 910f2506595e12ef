/** The slash-command side: the shared vote table behind `vote` and `getvotes`, the
    streaming-service dispatch of `fetch_movies`, and the grid arithmetic of
    `create_movie_collage`. */
module Commands {
  import opened Wrappers
  import opened Text

  // ---------------------------------------------------------------------------
  // Votes

  /** `Data.votes`, a `HashMap<String, u32>`. */
  class VoteTable {
    var votes: map<string, nat>

    /** Every count fits in a `u32`. */
    predicate Valid()
      reads this
    {
      forall c :: c in votes ==> votes[c] < U32_LIMIT
    }

    /** The count of `c`, 0 when it has no entry. */
    function Count(c: string): nat
      reads this
    {
      if c in votes then votes[c] else 0
    }

    constructor()
      ensures Valid() && votes == map[]
    {
      votes := map[];
    }

    /** `vote`: `entry(choice).or_default()` then `+= 1`, a wrapping `u32` addition in a
        release build. Returns the new count and the reply; no other choice's entry
        changes. */
    method Vote(choice: string) returns (numVotes: nat, response: string)
      requires Valid()
      modifies this
      ensures Valid()
      ensures numVotes == (old(Count(choice)) + 1) % U32_LIMIT
      ensures votes == old(votes)[choice := numVotes]
      ensures response == "Successfully voted for " + choice + ". " + choice + " now has "
                          + NatToString(numVotes) + " votes!"
    {
      var current := if choice in votes then votes[choice] else 0;
      numVotes := (current + 1) % U32_LIMIT;
      votes := votes[choice := numVotes];
      response := "Successfully voted for " + choice + ". " + choice + " now has "
                  + NatToString(numVotes) + " votes!";
    }

    /** `getvotes` for one choice. */
    method VotesFor(choice: string) returns (response: string)
      ensures Count(choice) == 0 ==> response == "Nobody has voted for " + choice + " yet"
      ensures Count(choice) != 0 ==>
        response == NatToString(Count(choice)) + " people have voted for " + choice
    {
      var numVotes := if choice in votes then votes[choice] else 0;
      if numVotes == 0 {
        response := "Nobody has voted for " + choice + " yet";
      } else {
        response := NatToString(numVotes) + " people have voted for " + choice;
      }
    }

    /** `getvotes` without a choice: one line per entry in the map's iteration order,
        which for a `HashMap` is unspecified and so comes in as `order`, a listing of the
        keys each exactly once. */
    method AllVotes(order: seq<string>) returns (response: string)
      requires IsListing(order, votes)
      ensures votes == map[] ==> response == NobodyVoted
      ensures votes != map[] ==> response == VoteLines(order, votes)
    {
      response := "";
      var i := 0;
      while i < |order|
        invariant 0 <= i <= |order|
        invariant response == VoteLines(order[..i], votes)
      {
        assert order[..i + 1] == order[..i] + [order[i]];
        VoteLinesSnoc(order[..i], order[i], votes);
        response := response + VoteLine(order[i], votes[order[i]]);
        i := i + 1;
      }
      assert order[..i] == order;
      VoteLinesEmpty(order, votes);
      if response == "" {
        response := response + NobodyVoted;
      }
    }
  }

  const NobodyVoted: string := "Nobody has voted for anything yet :("

  /** `order` lists the keys of `m`, each once. */
  ghost predicate IsListing(order: seq<string>, m: map<string, nat>) {
    && |order| == |m.Keys|
    && (forall c :: c in m <==> c in order)
    && (forall i, j :: 0 <= i < j < |order| ==> order[i] != order[j])
  }

  function VoteLine(choice: string, n: nat): string {
    choice + ": " + NatToString(n) + " votes\n"
  }

  /** The lines for the choices in `order`. */
  function VoteLines(order: seq<string>, m: map<string, nat>): string
    requires forall c :: c in order ==> c in m
  {
    if order == [] then ""
    else VoteLines(order[..|order| - 1], m) + VoteLine(order[|order| - 1], m[order[|order| - 1]])
  }

  lemma VoteLinesSnoc(order: seq<string>, c: string, m: map<string, nat>)
    requires forall x :: x in order + [c] ==> x in m
    ensures VoteLines(order + [c], m) == VoteLines(order, m) + VoteLine(c, m[c])
  {
    assert (order + [c])[..|order|] == order;
  }

  /** The lines are empty only for an empty map, so the fallback text appears exactly
      when nobody has voted. */
  lemma VoteLinesEmpty(order: seq<string>, m: map<string, nat>)
    requires IsListing(order, m)
    ensures VoteLines(order, m) == "" <==> m == map[]
  {
    if order != [] {
      var last := order[|order| - 1];
      assert |VoteLine(last, m[last])| > 0;
      assert last in m;
    }
  }

  /** Every choice in the listing gets its own line, with the count stored for it. */
  lemma {:induction false} VoteLinesMention(order: seq<string>, m: map<string, nat>, k: nat)
    requires forall c :: c in order ==> c in m
    requires k < |order|
    ensures exists pre, post :: VoteLines(order, m) == pre + VoteLine(order[k], m[order[k]]) + post
  {
    var init := order[..|order| - 1];
    var last := VoteLine(order[|order| - 1], m[order[|order| - 1]]);
    if k == |order| - 1 {
      assert VoteLines(order, m) == VoteLines(init, m) + last + "";
    } else {
      assert init[k] == order[k];
      VoteLinesMention(init, m, k);
      var pre, post :| VoteLines(init, m) == pre + VoteLine(order[k], m[order[k]]) + post;
      assert VoteLines(order, m) == pre + VoteLine(order[k], m[order[k]]) + (post + last);
    }
  }

  // ---------------------------------------------------------------------------
  // Service dispatch

  datatype Service = Fasel | Netflix

  /** `fetch_movies`: the service name, lower-cased, picks the searcher. Rust's Unicode
      lower-casing agrees with the ASCII one on whether the result is `fasel` or
      `netflix`: the only non-ASCII characters that lower-case to ASCII letters are
      U+212A (to `k`, in neither word) and U+0130 (to `i` plus a combining dot, one
      character too many). */
  function Dispatch(service: string): (r: Result<Service, string>)
    ensures r == Success(Fasel) <==> ToLowerAscii(service) == "fasel"
    ensures r == Success(Netflix) <==> ToLowerAscii(service) == "netflix"
    ensures r.Failure? ==> r.error == "Streaming service not supported"
  {
    var name := ToLowerAscii(service);
    if name == "fasel" then Success(Fasel)
    else if name == "netflix" then Success(Netflix)
    else Failure("Streaming service not supported")
  }

  /** The dispatch ignores case: a name and its lower-cased form pick the same searcher. */
  lemma DispatchIgnoresCase(service: string)
    ensures Dispatch(ToLowerAscii(service)) == Dispatch(service)
  {
    ToLowerAsciiIdempotent(service);
  }

  // ---------------------------------------------------------------------------
  // Collage grid

  const ImageWidth: nat := 250
  const ImageHeight: nat := 350
  const Padding: nat := 20
  const FrameThickness: nat := 10

  /** The horizontal and vertical distances between cells. */
  const CellWidth: nat := ImageWidth + Padding + FrameThickness * 2
  const CellHeight: nat := ImageHeight + Padding + FrameThickness * 2

  /** `ceil(n / cols)` */
  function Rows(n: nat, cols: nat): (rows: nat)
    requires cols > 0
    ensures rows * cols >= n
    ensures rows > 0 ==> (rows - 1) * cols < n
  {
    (n + cols - 1) / cols
  }

  /** `ceil(sqrt(n))`: the least `c` with `c * c >= n`. */
  function Columns(n: nat): (c: nat)
    ensures c * c >= n
    ensures c > 0 ==> (c - 1) * (c - 1) < n
  {
    ColumnsFrom(n, 0)
  }

  function ColumnsFrom(n: nat, c: nat): (r: nat)
    requires c == 0 || (c - 1) * (c - 1) < n
    ensures r * r >= n && (r > 0 ==> (r - 1) * (r - 1) < n)
    decreases n - c
  {
    if c * c >= n then c
    else
      assert c <= c * c;
      ColumnsFrom(n, c + 1)
  }

  datatype Pos = Pos(x: nat, y: nat)

  /** The top-left corner of cell `index`. */
  function Cell(index: nat, cols: nat): Pos
    requires cols > 0
  {
    Pos((index % cols) * CellWidth, (index / cols) * CellHeight)
  }

  /** The corner of every cell, in order, computed as the drawing loop does. */
  method CellPositions(n: nat, cols: nat) returns (positions: seq<Pos>)
    requires cols > 0
    ensures |positions| == n
    ensures forall i :: 0 <= i < n ==> positions[i] == Cell(i, cols)
  {
    positions := [];
    var index := 0;
    while index < n
      invariant 0 <= index <= n && |positions| == index
      invariant forall i :: 0 <= i < index ==> positions[i] == Cell(i, cols)
    {
      var xPos := (index % cols) * CellWidth;
      var yPos := (index / cols) * CellHeight;
      positions := positions + [Pos(xPos, yPos)];
      index := index + 1;
    }
  }

  /** With `rows * cols >= n`, every image of at most 250 by 350 pixels drawn at its cell
      corner plus the frame offset lies inside the canvas of `cols * 290` by
      `rows * 390`. */
  lemma CellInsideCanvas(index: nat, n: nat, cols: nat, rows: nat)
    requires cols > 0 && index < n && rows * cols >= n
    ensures Cell(index, cols).x + FrameThickness + ImageWidth <= cols * CellWidth
    ensures Cell(index, cols).y + FrameThickness + ImageHeight <= rows * CellHeight
  {
    var col, row := index % cols, index / cols;
    assert index == row * cols + col;
    assert col + 1 <= cols;
    assert (col + 1) * CellWidth <= cols * CellWidth;
    assert index < rows * cols;
    assert row < rows;
    assert (row + 1) * CellHeight <= rows * CellHeight;
  }

  /** The collage as `create_movie_collage` lays it out: `ceil(sqrt n)` columns and
      `ceil(n / cols)` rows hold every cell. */
  lemma CollageFits(index: nat, n: nat)
    requires index < n
    ensures Columns(n) > 0
    ensures Cell(index, Columns(n)).x + FrameThickness + ImageWidth <= Columns(n) * CellWidth
    ensures Cell(index, Columns(n)).y + FrameThickness + ImageHeight
            <= Rows(n, Columns(n)) * CellHeight
  {
    CellInsideCanvas(index, n, Columns(n), Rows(n, Columns(n)));
  }

  /** Distinct cells do not overlap: their corners are a full cell apart in at least one
      direction. */
  lemma CellsDisjoint(i: nat, j: nat, cols: nat)
    requires cols > 0 && i != j
    ensures var a, b := Cell(i, cols), Cell(j, cols);
      a.x + CellWidth <= b.x || b.x + CellWidth <= a.x
      || a.y + CellHeight <= b.y || b.y + CellHeight <= a.y
  {
    var ci, ri, cj, rj := i % cols, i / cols, j % cols, j / cols;
    assert i == ri * cols + ci && j == rj * cols + cj;
    if ci == cj {
      assert ri != rj;
      if ri < rj {
        assert (ri + 1) * CellHeight <= rj * CellHeight;
      } else {
        assert (rj + 1) * CellHeight <= ri * CellHeight;
      }
    } else if ci < cj {
      assert (ci + 1) * CellWidth <= cj * CellWidth;
    } else {
      assert (cj + 1) * CellWidth <= ci * CellWidth;
    }
  }
}
