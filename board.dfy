/** The 15x15 board: premium markers and placed letters in one grid of
    characters, word extraction, cross-checks, anchors and the trial placement
    used by move generation (src/board.rs). */
module Board {
  import opened Utils
  import opened Dictionary

  // ------------------------------------------------------------------ Squares

  /** The characters that mark an empty square: triple word, double word,
      triple letter, double letter, centre, plain. Anything else is a letter. */
  const Markers: string := "#^+-*."

  predicate IsLetterChar(c: char) {
    c != '#' && c != '^' && c != '+' && c != '-' && c != '*' && c != '.'
  }

  /** A snapshot of the board, square `p` at index `ToInt(p)`. */
  type Squares = g: seq<char> | |g| == 225 witness seq(225, k => '.')

  function Cell(g: Squares, p: Position): char
    requires OnBoard(p)
  {
    g[ToInt(p)]
  }

  predicate IsLetterAt(g: Squares, p: Position)
    requires OnBoard(p)
  {
    IsLetterChar(Cell(g, p))
  }

  /** The square with row-major index `k`, as `positions()` lists it. */
  function Pos(k: nat): (p: Position)
    requires k < 225
    ensures OnBoard(p) && ToInt(p) == k
  {
    Position(k / 15, k % 15)
  }

  lemma {:induction false} PosToInt(p: Position)
    requires OnBoard(p)
    ensures Pos(ToInt(p)) == p
  {
    ToIntInjective(Pos(ToInt(p)), p);
  }

  /** `q` lies on the `n` squares that start at `p` and run along `d`. */
  predicate OnRay(q: Position, p: Position, d: Direction, n: nat) {
    Coord(q, Flip(d)) == Coord(p, Flip(d)) && Coord(p, d) <= Coord(q, d) < Coord(p, d) + n
  }

  /** `g` with the first `n` letters of `w` written from `p` along `d`, one
      square at a time as `play_word` writes them. */
  function Paint(g: Squares, p: Position, d: Direction, w: string, n: nat): Squares
    requires OnBoard(p) && n <= |w| && Coord(p, d) + n <= Size
  {
    if n == 0 then g
    else Paint(g, p, d, w, n - 1)[ToInt(Shift(p, d, n - 1)) := w[n - 1]]
  }

  /** Painting puts the i-th letter on the i-th square of the ray and leaves
      every square off the ray as it was. */
  lemma {:induction false} PaintSpec(g: Squares, p: Position, d: Direction, w: string, n: nat)
    requires OnBoard(p) && n <= |w| && Coord(p, d) + n <= Size
    ensures forall i :: 0 <= i < n ==> Cell(Paint(g, p, d, w, n), Shift(p, d, i)) == w[i]
    ensures forall q :: OnBoard(q) && !OnRay(q, p, d, n) ==> Cell(Paint(g, p, d, w, n), q) == Cell(g, q)
  {
    if n > 0 {
      var last := Shift(p, d, n - 1);
      PaintSpec(g, p, d, w, n - 1);
      forall q | OnBoard(q) && q != last
        ensures ToInt(q) != ToInt(last)
      {
        if ToInt(q) == ToInt(last) {
          ToIntInjective(q, last);
        }
      }
    }
  }

  /** A square beyond the painted stretch still holds what it held. */
  lemma {:induction false} PaintBeyond(g: Squares, p: Position, d: Direction, w: string, n: nat)
    requires OnBoard(p) && n <= |w| && Coord(p, d) + n < Size
    ensures Cell(Paint(g, p, d, w, n), Shift(p, d, n)) == Cell(g, Shift(p, d, n))
  {
    PaintSpec(g, p, d, w, n);
    assert !OnRay(Shift(p, d, n), p, d, n);
  }

  /** How many of the `n` squares from `p` along `d` a non-forced `play_word`
      writes before it meets a letter; all `n` when forced. */
  function Fit(g: Squares, p: Position, d: Direction, n: nat, force: bool): (r: nat)
    requires OnBoard(p) && Coord(p, d) + n <= Size
    ensures r <= n
  {
    if n == 0 then 0
    else
      var r := Fit(g, p, d, n - 1, force);
      if r < n - 1 then r
      else if !force && IsLetterAt(g, Shift(p, d, n - 1)) then n - 1
      else n
  }

  /** Fit is the index of the first square holding a letter (when not
      forced), or `n` when there is none. */
  lemma {:induction false} FitFirstLetter(g: Squares, p: Position, d: Direction, n: nat, force: bool)
    requires OnBoard(p) && Coord(p, d) + n <= Size
    ensures var r := Fit(g, p, d, n, force);
      (forall i :: 0 <= i < r ==> force || !IsLetterAt(g, Shift(p, d, i))) &&
      (r < n ==> !force && IsLetterAt(g, Shift(p, d, r)))
  {
    if n > 0 {
      FitFirstLetter(g, p, d, n - 1, force);
    }
  }

  /** Once a letter stops the write at `i`, a longer word stops there too. */
  lemma {:induction false} FitStops(g: Squares, p: Position, d: Direction, i: nat, n: nat, force: bool)
    requires OnBoard(p) && i < n && Coord(p, d) + n <= Size
    requires Fit(g, p, d, i, force) == i && !force && IsLetterAt(g, Shift(p, d, i))
    ensures Fit(g, p, d, n, force) == i
  {
    if n > i + 1 {
      FitStops(g, p, d, i, n - 1, force);
    }
  }

  /** One more empty square (or a forced write) extends the fit by one. */
  lemma {:induction false} FitStep(g: Squares, p: Position, d: Direction, i: nat, force: bool)
    requires OnBoard(p) && Coord(p, d) + i < Size
    requires Fit(g, p, d, i, force) == i && (force || !IsLetterAt(g, Shift(p, d, i)))
    ensures Fit(g, p, d, i + 1, force) == i + 1
  {
  }

  /** A forced write never stops early. */
  lemma {:induction false} FitForced(g: Squares, p: Position, d: Direction, n: nat)
    requires OnBoard(p) && Coord(p, d) + n <= Size
    ensures Fit(g, p, d, n, true) == n
  {
    if n > 0 {
      FitForced(g, p, d, n - 1);
    }
  }

  /** The board after `play_word(p, word, d, force)`: the letters up to the
      edge, or up to the first square holding a letter when not forced. */
  function Played(g: Squares, p: Position, word: string, d: Direction, force: bool): Squares
    requires OnBoard(p)
  {
    var room := Min(|word|, Size - Coord(p, d));
    Paint(g, p, d, word, Fit(g, p, d, room, force))
  }

  /** Whether `play_word` answers true: the whole word was written and the
      square after its last letter is still on the board. */
  predicate PlayedAll(g: Squares, p: Position, word: string, d: Direction, force: bool)
    requires OnBoard(p)
  {
    |word| < Size - Coord(p, d) && Fit(g, p, d, |word|, force) == |word|
  }

  /** `play_word` met a letter at the i-th square: what it wrote so far. */
  lemma {:induction false} PlayedBlocked(g: Squares, p: Position, word: string, d: Direction, force: bool, i: nat)
    requires OnBoard(p) && i < |word| && Coord(p, d) + i < Size
    requires Fit(g, p, d, i, force) == i && !force && IsLetterAt(g, Shift(p, d, i))
    ensures Played(g, p, word, d, force) == Paint(g, p, d, word, i)
    ensures !PlayedAll(g, p, word, d, force)
  {
    FitStops(g, p, d, i, Min(|word|, Size - Coord(p, d)), force);
    if |word| < Size - Coord(p, d) {
      FitStops(g, p, d, i, |word|, force);
    }
  }

  /** `play_word` wrote its i-th letter on the last square of the line. */
  lemma {:induction false} PlayedEdge(g: Squares, p: Position, word: string, d: Direction, force: bool, i: nat)
    requires OnBoard(p) && i < |word| && Coord(p, d) + i == Size - 1
    requires Fit(g, p, d, i + 1, force) == i + 1
    ensures Played(g, p, word, d, force) == Paint(g, p, d, word, i + 1)
    ensures !PlayedAll(g, p, word, d, force)
  {
  }

  /** `play_word` wrote the whole word and stayed on the board. */
  lemma {:induction false} PlayedDone(g: Squares, p: Position, word: string, d: Direction, force: bool)
    requires OnBoard(p) && Coord(p, d) + |word| < Size
    requires Fit(g, p, d, |word|, force) == |word|
    ensures Played(g, p, word, d, force) == Paint(g, p, d, word, |word|)
    ensures PlayedAll(g, p, word, d, force)
  {
  }

  /** The 15 rows of `Board::default`. */
  const Layout: seq<string> := [
    "#..-...#...-..#",
    ".^...+...+...^.",
    "..^...-.-...^..",
    "-..^...-...^..-",
    "....^.....^....",
    ".+...+...+...+.",
    "..-...-.-...-..",
    "#..-...*...-..#",
    "..-...-.-...-..",
    ".+...+...+...+.",
    "....^.....^....",
    "-..^...-...^..-",
    "..^...-.-...^..",
    ".^...+...+...^.",
    "#..-...#...-..#"
  ]

  /** The default board as a snapshot. */
  function LayoutSquares(): (g: Squares)
  {
    seq(225, k requires 0 <= k < 225 => Layout[k / 15][k % 15])
  }

  // -------------------------------------------------------------------- Board

  /** The run of letters that starts at `p` and goes along `d` up to the first
      square that is not a letter or the board's edge. */
  function RunFrom(g: Squares, p: Position, d: Direction): (r: string)
    requires OnBoard(p)
    ensures Coord(p, d) + |r| <= Size
    decreases Size - Coord(p, d)
  {
    if !IsLetterAt(g, p) then []
    else if Coord(p, d) == Size - 1 then [Cell(g, p)]
    else [Cell(g, p)] + RunFrom(g, Shift(p, d, 1), d)
  }

  /** One step of `RunFrom` from a letter. */
  lemma RunFromStep(g: Squares, q: Position, d: Direction)
    requires OnBoard(q) && IsLetterAt(g, q)
    ensures Coord(q, d) < Size - 1 ==> RunFrom(g, q, d) == [Cell(g, q)] + RunFrom(g, Shift(q, d, 1), d)
    ensures Coord(q, d) == Size - 1 ==> RunFrom(g, q, d) == [Cell(g, q)]
  {
  }

  /** `RunFrom` reads the squares it passes, and all of them are letters. */
  lemma {:induction false} RunFromCells(g: Squares, p: Position, d: Direction)
    requires OnBoard(p)
    ensures var r := RunFrom(g, p, d);
      forall i :: 0 <= i < |r| ==> IsLetterAt(g, Shift(p, d, i)) && r[i] == Cell(g, Shift(p, d, i))
    decreases Size - Coord(p, d)
  {
    if IsLetterAt(g, p) && Coord(p, d) < Size - 1 {
      var q := Shift(p, d, 1);
      RunFromCells(g, q, d);
      var r, rest := RunFrom(g, p, d), RunFrom(g, q, d);
      assert r == [Cell(g, p)] + rest;
      assert Shift(p, d, 0) == p;
      forall i | 1 <= i < |r|
        ensures IsLetterAt(g, Shift(p, d, i)) && r[i] == Cell(g, Shift(p, d, i))
      {
        assert r[i] == rest[i - 1];
        assert Shift(q, d, i - 1) == Shift(p, d, i);
      }
    }
  }

  /** `RunFrom` stops only at a non-letter or at the edge. */
  lemma {:induction false} RunFromEnd(g: Squares, p: Position, d: Direction)
    requires OnBoard(p)
    ensures Coord(p, d) + |RunFrom(g, p, d)| < Size ==> !IsLetterAt(g, Shift(p, d, |RunFrom(g, p, d)|))
    decreases Size - Coord(p, d)
  {
    if IsLetterAt(g, p) && Coord(p, d) < Size - 1 {
      var q := Shift(p, d, 1);
      RunFromEnd(g, q, d);
      assert Shift(q, d, |RunFrom(g, q, d)|) == Shift(p, d, |RunFrom(g, p, d)|);
    } else {
      assert Shift(p, d, 0) == p;
    }
  }

  /** The marker set is exactly the six characters `is_letter` excludes. */
  lemma LetterCharMeans(c: char)
    ensures IsLetterChar(c) <==> c !in Markers
  {
  }

  /** A letter with no letter just before it along `d`: where a word starts. */
  predicate IsRunStart(g: Squares, p: Position, d: Direction)
    requires OnBoard(p)
  {
    IsLetterAt(g, p) && (Coord(p, d) == 0 || !IsLetterAt(g, Shift(p, d, -1)))
  }

  /** The first square of the run along `d` that holds `q` (`q` itself when it
      is not a letter). */
  function RunStart(g: Squares, q: Position, d: Direction): (r: Position)
    requires OnBoard(q)
    ensures OnBoard(r) && Coord(r, Flip(d)) == Coord(q, Flip(d)) && Coord(r, d) <= Coord(q, d)
    ensures IsLetterAt(g, q) ==> IsRunStart(g, r, d)
    ensures !IsRunStart(g, q, d) || r == q
    decreases Coord(q, d)
  {
    if IsLetterAt(g, q) && Coord(q, d) > 0 && IsLetterAt(g, Shift(q, d, -1))
    then RunStart(g, Shift(q, d, -1), d)
    else q
  }

  /** The squares covered by the run from a run start are exactly the letters
      whose run starts there. */
  lemma {:induction false} RunMembers(g: Squares, p: Position, d: Direction, q: Position)
    requires OnBoard(p) && OnBoard(q) && IsRunStart(g, p, d)
    ensures OnRay(q, p, d, |RunFrom(g, p, d)|) <==> IsLetterAt(g, q) && RunStart(g, q, d) == p
    decreases Coord(q, d)
  {
    var n := |RunFrom(g, p, d)|;
    if Coord(q, Flip(d)) != Coord(p, Flip(d)) || Coord(q, d) < Coord(p, d) {
      assert RunStart(g, q, d) != p;
    } else if Coord(q, d) == Coord(p, d) {
      assert q == p;
      assert n > 0;
    } else {
      var b := Shift(q, d, -1);
      var i := Coord(q, d) - Coord(p, d);
      RunMembers(g, p, d, b);
      RunFromCells(g, p, d);
      assert Shift(p, d, i) == q && Shift(p, d, i - 1) == b;
      if i < n {
        assert IsLetterAt(g, q) && IsLetterAt(g, b);
        assert RunStart(g, q, d) == RunStart(g, b, d);
      } else if IsLetterAt(g, q) && IsLetterAt(g, b) {
        assert RunStart(g, q, d) == RunStart(g, b, d);
        if RunStart(g, b, d) == p {
          assert i == n;
          RunFromEnd(g, p, d);
          assert false;
        }
      } else if IsLetterAt(g, q) {
        assert RunStart(g, q, d) == q;
      }
    }
  }

  /** The run start of a square comes no later in row-major order, and strictly
      earlier unless the square starts its own run. */
  lemma {:induction false} RunStartIndex(g: Squares, q: Position, d: Direction)
    requires OnBoard(q)
    ensures ToInt(RunStart(g, q, d)) <= ToInt(q)
    ensures ToInt(RunStart(g, q, d)) == ToInt(q) <==> RunStart(g, q, d) == q
  {
    var r := RunStart(g, q, d);
    if ToInt(r) == ToInt(q) {
      ToIntInjective(r, q);
    }
  }

  /** The word, if any, that `get_words` records for square `p` and direction `d`. */
  function WordAt(g: Squares, p: Position, d: Direction): seq<string>
    requires OnBoard(p)
  {
    if IsRunStart(g, p, d) && ByteLength(RunFrom(g, p, d)) > 1 then [RunFrom(g, p, d)] else []
  }

  /** The words recorded for square `p` in the first `n` directions. */
  function WordsAt(g: Squares, p: Position, n: nat): seq<string>
    requires OnBoard(p) && n <= |Directions|
  {
    if n == 0 then [] else WordsAt(g, p, n - 1) + WordAt(g, p, Directions[n - 1])
  }

  /** The words recorded for the first `k` squares in row-major order. */
  function WordsBelow(g: Squares, k: nat): seq<string>
    requires k <= 225
  {
    if k == 0 then [] else WordsBelow(g, k - 1) + WordsAt(g, Pos(k - 1), |Directions|)
  }

  /** One more direction at square `k` appends its word, if any. */
  lemma WordsAtNext(g: Squares, k: nat, n: nat)
    requires k < 225 && n < |Directions|
    ensures WordsBelow(g, k) + WordsAt(g, Pos(k), n + 1) ==
      (WordsBelow(g, k) + WordsAt(g, Pos(k), n)) + WordAt(g, Pos(k), Directions[n])
  {
  }

  /** Every word on the board: each maximal run of letters longer than one byte, across
      and down, in the row-major order of their first squares. */
  function Words(g: Squares): seq<string> {
    WordsBelow(g, 225)
  }

  /** `w` is the maximal run of letters, longer than one byte, that starts at `p` along `d`. */
  predicate IsWordRun(g: Squares, p: Position, d: Direction, w: string) {
    OnBoard(p) && IsRunStart(g, p, d) && RunFrom(g, p, d) == w && ByteLength(w) > 1
  }

  /** `w` is a maximal run of letters longer than one byte somewhere on the board. */
  ghost predicate IsWordOf(g: Squares, w: string) {
    exists p, d :: IsWordRun(g, p, d, w)
  }

  /** `w` is a maximal run of letters longer than one byte starting among the first `k` squares. */
  ghost predicate IsWordBelow(g: Squares, k: nat, w: string) {
    exists p, d :: IsWordRun(g, p, d, w) && ToInt(p) < k
  }

  lemma {:induction false} WordsAtExact(g: Squares, p: Position, w: string)
    requires OnBoard(p)
    ensures w in WordsAt(g, p, |Directions|) <==> IsWordRun(g, p, Across, w) || IsWordRun(g, p, Down, w)
  {
    assert WordsAt(g, p, 1) == [] + WordAt(g, p, Across) == WordAt(g, p, Across);
    assert WordsAt(g, p, |Directions|) == WordAt(g, p, Across) + WordAt(g, p, Down);
  }

  lemma {:induction false} WordsBelowExact(g: Squares, k: nat, w: string)
    requires k <= 225
    ensures w in WordsBelow(g, k) <==> IsWordBelow(g, k, w)
  {
    if k > 0 {
      WordsBelowExact(g, k - 1, w);
      var p := Pos(k - 1);
      WordsAtExact(g, p, w);
      assert w in WordsBelow(g, k) <==> w in WordsBelow(g, k - 1) || w in WordsAt(g, p, |Directions|);
      if IsWordBelow(g, k, w) {
        var q, d :| IsWordRun(g, q, d, w) && ToInt(q) < k;
        if ToInt(q) == k - 1 {
          ToIntInjective(p, q);
          assert d == Across || d == Down;
        } else {
          assert IsWordBelow(g, k - 1, w);
        }
      }
      if IsWordBelow(g, k - 1, w) {
        var q, d :| IsWordRun(g, q, d, w) && ToInt(q) < k - 1;
        assert IsWordBelow(g, k, w);
      }
      if IsWordRun(g, p, Across, w) {
        assert IsWordBelow(g, k, w);
      }
      if IsWordRun(g, p, Down, w) {
        assert IsWordBelow(g, k, w);
      }
    }
  }

  /** `get_words` finds exactly the maximal runs of letters longer than one byte. */
  lemma {:induction false} WordsExact(g: Squares, w: string)
    ensures w in Words(g) <==> IsWordOf(g, w)
  {
    WordsBelowExact(g, 225, w);
    if IsWordOf(g, w) {
      var p, d :| IsWordRun(g, p, d, w);
      assert IsWordBelow(g, 225, w);
    }
  }

  /** On a board of one-byte characters, such as the tile letters A..Z and
      the markers, a word is a maximal run of two or more letters. */
  lemma OneByteWordRun(g: Squares, p: Position, d: Direction, w: string)
    requires forall k :: 0 <= k < 225 ==> g[k] as int < 0x80
    ensures IsWordRun(g, p, d, w) <==> OnBoard(p) && IsRunStart(g, p, d) && RunFrom(g, p, d) == w && |w| > 1
  {
    if OnBoard(p) && RunFrom(g, p, d) == w {
      RunFromCells(g, p, d);
      ByteLengthAscii(w);
    }
  }

  /** `Board::valid`: every word on the board is in the dictionary. */
  ghost predicate BoardValid(dict: Dictionary, g: Squares) {
    forall w :: w in Words(g) ==> CheckWord(dict, w)
  }

  /** A board is valid exactly when every maximal run of letters longer than one byte,
      across or down, is a dictionary word. */
  lemma {:induction false} BoardValidMeans(dict: Dictionary, g: Squares)
    ensures BoardValid(dict, g) <==>
      forall p, d :: OnBoard(p) && IsRunStart(g, p, d) && ByteLength(RunFrom(g, p, d)) > 1 ==> CheckWord(dict, RunFrom(g, p, d))
  {
    if BoardValid(dict, g) {
      forall p, d | OnBoard(p) && IsRunStart(g, p, d) && ByteLength(RunFrom(g, p, d)) > 1
        ensures CheckWord(dict, RunFrom(g, p, d))
      {
        assert IsWordRun(g, p, d, RunFrom(g, p, d));
        WordsExact(g, RunFrom(g, p, d));
      }
    } else {
      var w :| w in Words(g) && !CheckWord(dict, w);
      WordsExact(g, w);
      var p, d :| IsWordRun(g, p, d, w);
    }
  }

  /** `get_words`'s mark for square `q` in direction number `e`, once the scan
      has handled every (square, direction) pair before (`k`, `n`): set exactly
      when `q` is a letter whose run along that direction starts at a handled
      square. */
  ghost predicate Swept(g: Squares, q: Position, e: nat, k: nat, n: nat)
    requires OnBoard(q) && e < |Directions|
  {
    IsLetterAt(g, q) &&
    var s := ToInt(RunStart(g, q, Directions[e]));
    s < k || (s == k && e < n)
  }

  /** Handling a square that starts no run along `Directions[n]` marks nothing. */
  lemma {:induction false} SweptSkip(g: Squares, p: Position, n: nat)
    requires OnBoard(p) && n < |Directions| && !IsRunStart(g, p, Directions[n])
    ensures forall q, e: nat :: OnBoard(q) && e < |Directions| ==>
      (Swept(g, q, e, ToInt(p), n + 1) <==> Swept(g, q, e, ToInt(p), n))
  {
    forall q, e: nat | OnBoard(q) && e < |Directions| && IsLetterAt(g, q) && e == n
      ensures ToInt(RunStart(g, q, Directions[e])) != ToInt(p)
    {
      var r := RunStart(g, q, Directions[e]);
      if ToInt(r) == ToInt(p) {
        ToIntInjective(r, p);
      }
    }
  }

  /** The marks in row `n` while the walk from `p` has covered `m` squares. */
  ghost predicate Walked(g: Squares, q: Position, p: Position, n: nat, m: nat)
    requires OnBoard(q) && n < |Directions|
  {
    Swept(g, q, n, ToInt(p), n) || OnRay(q, p, Directions[n], m)
  }

  /** Covering one more square adds exactly that square to the marks. */
  lemma {:induction false} WalkedStep(g: Squares, p: Position, n: nat, m: nat)
    requires OnBoard(p) && n < |Directions| && Coord(p, Directions[n]) + m < Size
    ensures OnBoard(Shift(p, Directions[n], m))
    ensures forall q :: OnBoard(q) ==>
      (Walked(g, q, p, n, m + 1) <==> Walked(g, q, p, n, m) || q == Shift(p, Directions[n], m))
  {
    var d := Directions[n];
    forall q | OnBoard(q)
      ensures OnRay(q, p, d, m + 1) <==> OnRay(q, p, d, m) || q == Shift(p, d, m)
    {
      if OnRay(q, p, d, m + 1) && !OnRay(q, p, d, m) {
        assert d == Across || d == Down;
      }
    }
  }

  /** Reading one more letter of a run keeps `RunFrom` split between what
      was read and what is left. */
  lemma {:induction false} RunFromGrow(g: Squares, p: Position, d: Direction, word: string, q: Position)
    requires OnBoard(p) && OnBoard(q) && IsLetterAt(g, q)
    requires RunFrom(g, p, d) == word + RunFrom(g, q, d)
    ensures Coord(q, d) < Size - 1 ==> RunFrom(g, p, d) == (word + [Cell(g, q)]) + RunFrom(g, Shift(q, d, 1), d)
    ensures Coord(q, d) == Size - 1 ==> RunFrom(g, p, d) == word + [Cell(g, q)]
  {
    RunFromStep(g, q, d);
    if Coord(q, d) < Size - 1 {
      assert word + ([Cell(g, q)] + RunFrom(g, Shift(q, d, 1), d)) == (word + [Cell(g, q)]) + RunFrom(g, Shift(q, d, 1), d);
    }
  }

  /** Handling a run start marks exactly the squares of its run in its own
      row; the other row is unaffected. */
  lemma {:induction false} SweptRun(g: Squares, p: Position, n: nat)
    requires OnBoard(p) && n < |Directions| && IsRunStart(g, p, Directions[n])
    ensures forall q :: OnBoard(q) ==>
      (Swept(g, q, n, ToInt(p), n + 1) <==> Walked(g, q, p, n, |RunFrom(g, p, Directions[n])|))
    ensures forall q, e: nat :: OnBoard(q) && e < |Directions| && e != n ==>
      (Swept(g, q, e, ToInt(p), n + 1) <==> Swept(g, q, e, ToInt(p), n))
  {
    var d := Directions[n];
    forall q | OnBoard(q)
      ensures Swept(g, q, n, ToInt(p), n + 1) <==> Walked(g, q, p, n, |RunFrom(g, p, d)|)
    {
      RunMembers(g, p, d, q);
      var r := RunStart(g, q, d);
      if ToInt(r) == ToInt(p) {
        ToIntInjective(r, p);
      }
    }
  }

  // ------------------------------------------------------------------ Anchors

  /** Some letter among the first `k` squares in row-major order is adjacent to `q`. */
  ghost predicate LetterNeighbourBelow(g: Squares, q: Position, k: nat) {
    exists p :: OnBoard(p) && ToInt(p) < k && IsLetterAt(g, p) && Adjacent(p, q)
  }

  /** An anchor: an empty square orthogonally next to a letter. */
  ghost predicate IsAnchor(g: Squares, q: Position) {
    OnBoard(q) && !IsLetterAt(g, q) && LetterNeighbourBelow(g, q, 225)
  }

  lemma {:induction false} LetterNeighbourNext(g: Squares, q: Position, k: nat)
    requires k < 225
    ensures LetterNeighbourBelow(g, q, k + 1) <==>
      LetterNeighbourBelow(g, q, k) || (IsLetterAt(g, Pos(k)) && Adjacent(Pos(k), q))
  {
    if LetterNeighbourBelow(g, q, k + 1) && !LetterNeighbourBelow(g, q, k) {
      var p :| OnBoard(p) && ToInt(p) < k + 1 && IsLetterAt(g, p) && Adjacent(p, q);
      ToIntInjective(p, Pos(k));
    }
  }

  /** The anchors are exactly the empty squares with a letter beside them. */
  lemma {:induction false} AnchorMeans(g: Squares, q: Position)
    ensures IsAnchor(g, q) <==>
      OnBoard(q) && !IsLetterAt(g, q) && exists p :: OnBoard(p) && IsLetterAt(g, p) && Adjacent(p, q)
  {
    if OnBoard(q) && exists p :: OnBoard(p) && IsLetterAt(g, p) && Adjacent(p, q) {
      var p :| OnBoard(p) && IsLetterAt(g, p) && Adjacent(p, q);
      assert ToInt(p) < 225;
    }
  }

  // ------------------------------------------------------------- Cross-checks

  /** Some square orthogonally next to `p` holds a letter. */
  ghost predicate HasLetterNeighbour(g: Squares, p: Position) {
    exists q :: OnBoard(q) && Adjacent(p, q) && IsLetterAt(g, q)
  }

  /** What `valid_at` answers for square `p`: for each letter A..Z, whether it
      may be put there. A letter square admits none; a square with no letter
      beside it admits all; otherwise a letter is admitted exactly when the
      whole board, with that letter on `p`, is valid. */
  ghost function CrossCheck(dict: Dictionary, g: Squares, p: Position): (r: seq<bool>)
    requires OnBoard(p)
    ensures |r| == 26
  {
    if IsLetterAt(g, p) then seq(26, i => false)
    else if !HasLetterNeighbour(g, p) then seq(26, i => true)
    else seq(26, i requires 0 <= i < 26 => BoardValid(dict, g[ToInt(p) := Alph[i]]))
  }

  /** A letter the cross-check admits next to other letters leaves every
      maximal run of letters longer than one byte on the board a dictionary word. */
  lemma {:induction false} CrossCheckWords(dict: Dictionary, g: Squares, p: Position, i: nat)
    requires OnBoard(p) && !IsLetterAt(g, p) && HasLetterNeighbour(g, p) && i < 26
    ensures var h: Squares := g[ToInt(p) := Alph[i]];
      CrossCheck(dict, g, p)[i] <==>
      forall q, d :: OnBoard(q) && IsRunStart(h, q, d) && ByteLength(RunFrom(h, q, d)) > 1 ==> CheckWord(dict, RunFrom(h, q, d))
  {
    BoardValidMeans(dict, g[ToInt(p) := Alph[i]]);
  }

  /** The letters `chars` lists for a cross-check: never any on a letter
      square, every one on a square with no letter beside it. */
  lemma {:induction false} CrossCheckChars(dict: Dictionary, g: Squares, p: Position, c: char)
    requires OnBoard(p)
    ensures IsLetterAt(g, p) ==> c !in Chars(CrossCheck(dict, g, p))
    ensures !IsLetterAt(g, p) && !HasLetterNeighbour(g, p) ==> (c in Chars(CrossCheck(dict, g, p)) <==> IsCapital(c))
  {
  }

  // ------------------------------------------------------------------- Place

  /** The letters met walking backwards from `q` along `d` (nearest first),
      up to the first non-letter or the edge. */
  function BackRun(g: Squares, q: Position, d: Direction): (r: string)
    requires OnBoard(q)
    ensures |r| <= Coord(q, d) + 1
    decreases Coord(q, d)
  {
    if !IsLetterAt(g, q) then []
    else if Coord(q, d) == 0 then [Cell(g, q)]
    else [Cell(g, q)] + BackRun(g, Shift(q, d, -1), d)
  }

  /** The letters just before `p` along `d`, in board order. */
  function Before(g: Squares, p: Position, d: Direction): (r: string)
    requires OnBoard(p)
    ensures |r| <= Coord(p, d)
  {
    if Coord(p, d) == 0 then [] else Reverse(BackRun(g, Shift(p, d, -1), d))
  }

  /** The outcome of `place`'s middle loop: the board with the part's letters
      written, the letters read from the start square onwards, and the square
      where the loop stopped. */
  datatype Filled = Filled(board: Squares, letters: string, stop: Position)

  function Lead(s: string, f: Option<Filled>): (r: Option<Filled>)
    ensures r.Some? <==> f.Some?
  {
    if f.None? then None else Some(f.value.(letters := s + f.value.letters))
  }

  /** `place`'s middle loop from square `q` with `part[i..]` still to lay: an
      empty square takes the next letter if its cross-check lists it (else
      the placement fails), a letter square is read as it is, and the walk
      fails when a read square has no successor. */
  function Fill(g: Squares, q: Position, d: Direction, part: string, i: nat, cross: seq<seq<char>>): (r: Option<Filled>)
    requires OnBoard(q) && i <= |part| && |cross| == 225
    ensures r.Some? ==> OnBoard(r.value.stop) && Coord(r.value.stop, Flip(d)) == Coord(q, Flip(d))
    ensures r.Some? ==> Coord(r.value.stop, d) == Coord(q, d) + |r.value.letters|
    ensures r.Some? ==> (r.value.letters == [] <==> i == |part|)
    decreases Size - Coord(q, d)
  {
    if i == |part| then Some(Filled(g, [], q))
    else if !IsLetterAt(g, q) && part[i] !in cross[ToInt(q)] then None
    else if Coord(q, d) == Size - 1 then None
    else if IsLetterAt(g, q) then Lead([Cell(g, q)], Fill(g, Shift(q, d, 1), d, part, i, cross))
    else Lead([part[i]], Fill(g[ToInt(q) := part[i]], Shift(q, d, 1), d, part, i + 1, cross))
  }

  /** What `place` answers: nothing on a letter square or when the middle
      loop fails; otherwise the letters before `p`, those read by the middle
      loop and the run after it form the word, offered as a move at `p` if
      the dictionary has it. */
  function PlaceSpec(dict: Dictionary, g: Squares, p: Position, d: Direction, part: string, cross: seq<seq<char>>): Option<Move>
    requires OnBoard(p) && |cross| == 225
  {
    if IsLetterAt(g, p) then None
    else
      var f := Fill(g, p, d, part, 0, cross);
      if f.None? then None
      else
        var w := Before(g, p, d) + f.value.letters + RunFrom(f.value.board, f.value.stop, d);
        if CheckWord(dict, w) then Some(MoveWith(w, p, d)) else None
  }

  lemma BackRunStep(g: Squares, q: Position, d: Direction)
    requires OnBoard(q) && IsLetterAt(g, q)
    ensures Coord(q, d) > 0 ==> BackRun(g, q, d) == [Cell(g, q)] + BackRun(g, Shift(q, d, -1), d)
    ensures Coord(q, d) == 0 ==> BackRun(g, q, d) == [Cell(g, q)]
  {
  }

  /** Reading one more letter backwards keeps `BackRun` split between what
      was read and what is left. */
  lemma {:induction false} BackRunGrow(g: Squares, p: Position, d: Direction, left: string, q: Position)
    requires OnBoard(p) && OnBoard(q) && IsLetterAt(g, q)
    requires BackRun(g, p, d) == left + BackRun(g, q, d)
    ensures Coord(q, d) > 0 ==> BackRun(g, p, d) == (left + [Cell(g, q)]) + BackRun(g, Shift(q, d, -1), d)
    ensures Coord(q, d) == 0 ==> BackRun(g, p, d) == left + [Cell(g, q)]
  {
    BackRunStep(g, q, d);
    if Coord(q, d) > 0 {
      assert left + ([Cell(g, q)] + BackRun(g, Shift(q, d, -1), d)) == (left + [Cell(g, q)]) + BackRun(g, Shift(q, d, -1), d);
    }
  }

  /** One turn of `place`'s middle loop. */
  lemma FillStep(g: Squares, q: Position, d: Direction, part: string, i: nat, cross: seq<seq<char>>)
    requires OnBoard(q) && i < |part| && |cross| == 225
    requires IsLetterAt(g, q) || part[i] in cross[ToInt(q)]
    ensures var h := if IsLetterAt(g, q) then g else g[ToInt(q) := part[i]];
      var j := if IsLetterAt(g, q) then i else i + 1;
      Fill(g, q, d, part, i, cross) ==
        if Coord(q, d) == Size - 1 then None
        else Lead([Cell(h, q)], Fill(h, Shift(q, d, 1), d, part, j, cross))
  {
  }

  lemma LeadEmpty(f: Option<Filled>)
    ensures Lead([], f) == f
  {
    if f.Some? {
      assert [] + f.value.letters == f.value.letters;
    }
  }

  lemma {:induction false} LeadLead(s: string, t: string, f: Option<Filled>)
    ensures Lead(s, Lead(t, f)) == Lead(s + t, f)
  {
    if f.Some? {
      assert s + (t + f.value.letters) == (s + t) + f.value.letters;
    }
  }

  /** A run read forwards from `s` continues with whatever run follows it. */
  lemma {:induction false} RunFromConcat(h: Squares, s: Position, d: Direction, w: string, q: Position)
    requires OnBoard(s) && OnBoard(q) && Coord(q, Flip(d)) == Coord(s, Flip(d)) && Coord(s, d) + |w| == Coord(q, d)
    requires forall j :: 0 <= j < |w| ==> IsLetterAt(h, Shift(s, d, j)) && w[j] == Cell(h, Shift(s, d, j))
    ensures RunFrom(h, s, d) == w + RunFrom(h, q, d)
    decreases |w|
  {
    if w == [] {
      assert s == q;
    } else {
      LettersAfterFirst(h, s, d, w, q);
      RunFromConcat(h, Shift(s, d, 1), d, w[1..], q);
      RunFromPrepend(h, s, d, w, RunFrom(h, q, d));
    }
  }

  /** A letter on `s` goes in front of the run read from the next square. */
  lemma RunFromPrepend(h: Squares, s: Position, d: Direction, w: string, tail: string)
    requires OnBoard(s) && Coord(s, d) < Size - 1 && w != [] && IsLetterAt(h, s) && w[0] == Cell(h, s)
    requires RunFrom(h, Shift(s, d, 1), d) == w[1..] + tail
    ensures RunFrom(h, s, d) == w + tail
  {
    RunFromStep(h, s, d);
    assert w == [w[0]] + w[1..];
  }

  /** Letters read from `s` are, past the first, letters read from the next
      square. */
  lemma LettersAfterFirst(h: Squares, s: Position, d: Direction, w: string, q: Position)
    requires OnBoard(s) && OnBoard(q) && Coord(q, Flip(d)) == Coord(s, Flip(d)) && Coord(s, d) + |w| == Coord(q, d) && w != []
    requires forall j :: 0 <= j < |w| ==> IsLetterAt(h, Shift(s, d, j)) && w[j] == Cell(h, Shift(s, d, j))
    ensures Coord(s, d) < Size - 1 && IsLetterAt(h, s) && w[0] == Cell(h, s)
    ensures forall j :: 0 <= j < |w| - 1 ==> IsLetterAt(h, Shift(Shift(s, d, 1), d, j)) && w[1..][j] == Cell(h, Shift(Shift(s, d, 1), d, j))
  {
    assert Shift(s, d, 0) == s;
    var s1 := Shift(s, d, 1);
    forall j | 0 <= j < |w| - 1
      ensures IsLetterAt(h, Shift(s1, d, j)) && w[1..][j] == Cell(h, Shift(s1, d, j))
    {
      assert Shift(s1, d, j) == Shift(s, d, j + 1);
    }
  }

  /** The square `j` steps before `q` along `d`. */
  function Behind(q: Position, d: Direction, j: nat): Position
    requires j <= Coord(q, d)
  {
    Shift(q, d, -(j as int))
  }

  /** `BackRun` reads the squares it passes backwards, all letters, and stops
      only at a non-letter or at the edge. */
  lemma {:induction false} BackRunCells(g: Squares, q: Position, d: Direction)
    requires OnBoard(q)
    ensures var r := BackRun(g, q, d);
      (forall j: nat :: j < |r| ==> IsLetterAt(g, Behind(q, d, j)) && r[j] == Cell(g, Behind(q, d, j))) &&
      (|r| <= Coord(q, d) ==> !IsLetterAt(g, Behind(q, d, |r|)))
    decreases Coord(q, d)
  {
    assert Behind(q, d, 0) == q;
    if IsLetterAt(g, q) && Coord(q, d) > 0 {
      var b := Shift(q, d, -1);
      BackRunCells(g, b, d);
      BackRunStep(g, q, d);
      BackRunCellsStep(g, q, d, BackRun(g, b, d));
    }
  }

  /** The step of `BackRunCells`: a letter on `q` goes in front of what is
      read backwards from the square before it. */
  lemma BackRunCellsStep(g: Squares, q: Position, d: Direction, rest: string)
    requires OnBoard(q) && Coord(q, d) > 0 && IsLetterAt(g, q) && |rest| <= Coord(q, d)
    requires forall j: nat :: j < |rest| ==> IsLetterAt(g, Behind(Shift(q, d, -1), d, j)) && rest[j] == Cell(g, Behind(Shift(q, d, -1), d, j))
    requires |rest| < Coord(q, d) ==> !IsLetterAt(g, Behind(Shift(q, d, -1), d, |rest|))
    ensures var r := [Cell(g, q)] + rest;
      (forall j: nat :: j < |r| ==> IsLetterAt(g, Behind(q, d, j)) && r[j] == Cell(g, Behind(q, d, j))) &&
      (|r| <= Coord(q, d) ==> !IsLetterAt(g, Behind(q, d, |r|)))
  {
    var b := Shift(q, d, -1);
    var r := [Cell(g, q)] + rest;
    assert Behind(q, d, 0) == q;
    forall j: nat | 1 <= j < |r|
      ensures IsLetterAt(g, Behind(q, d, j)) && r[j] == Cell(g, Behind(q, d, j))
    {
      assert r[j] == rest[j - 1];
      assert Behind(b, d, j - 1) == Behind(q, d, j);
    }
    if |r| <= Coord(q, d) {
      assert Behind(b, d, |rest|) == Behind(q, d, |r|);
    }
  }

  /** `Before` is the run of letters that ends just before `p`, in board
      order, and no letter precedes it. */
  lemma {:induction false} BeforeCells(g: Squares, p: Position, d: Direction)
    requires OnBoard(p)
    ensures var b := Before(g, p, d);
      (forall k: nat :: 1 <= k <= |b| ==> IsLetterAt(g, Behind(p, d, k)) && b[|b| - k] == Cell(g, Behind(p, d, k))) &&
      (|b| < Coord(p, d) ==> !IsLetterAt(g, Behind(p, d, |b| + 1)))
  {
    if Coord(p, d) > 0 {
      var q := Shift(p, d, -1);
      BackRunCells(g, q, d);
      BeforeCellsStep(g, p, d, BackRun(g, q, d));
    }
  }

  /** What is read backwards from the square before `p`, reversed, lies
      behind `p` in board order. */
  lemma BeforeCellsStep(g: Squares, p: Position, d: Direction, r: string)
    requires OnBoard(p) && Coord(p, d) > 0 && |r| <= Coord(p, d)
    requires forall j: nat :: j < |r| ==> IsLetterAt(g, Behind(Shift(p, d, -1), d, j)) && r[j] == Cell(g, Behind(Shift(p, d, -1), d, j))
    requires |r| < Coord(p, d) ==> !IsLetterAt(g, Behind(Shift(p, d, -1), d, |r|))
    ensures var b := Reverse(r);
      (forall k: nat :: 1 <= k <= |b| ==> IsLetterAt(g, Behind(p, d, k)) && b[|b| - k] == Cell(g, Behind(p, d, k))) &&
      (|b| < Coord(p, d) ==> !IsLetterAt(g, Behind(p, d, |b| + 1)))
  {
    var q := Shift(p, d, -1);
    var b := Reverse(r);
    forall k: nat | 1 <= k <= |b|
      ensures IsLetterAt(g, Behind(p, d, k)) && b[|b| - k] == Cell(g, Behind(p, d, k))
    {
      assert b[|b| - k] == r[k - 1];
      assert Behind(q, d, k - 1) == Behind(p, d, k);
    }
    if |b| < Coord(p, d) {
      assert Behind(q, d, |r|) == Behind(p, d, |b| + 1);
    }
  }

  /** The filled board differs from the old one only on squares of the
      stretch `place` read from `q` that held no letter. */
  lemma {:induction false} FillFrame(g: Squares, q: Position, d: Direction, part: string, i: nat, cross: seq<seq<char>>, s: Position)
    requires OnBoard(q) && i <= |part| && |cross| == 225 && Fill(g, q, d, part, i, cross).Some?
    requires OnBoard(s) && (!OnRay(s, q, d, |Fill(g, q, d, part, i, cross).value.letters|) || IsLetterAt(g, s))
    ensures Cell(Fill(g, q, d, part, i, cross).value.board, s) == Cell(g, s)
    decreases Size - Coord(q, d)
  {
    if i < |part| {
      var h := if IsLetterAt(g, q) then g else g[ToInt(q) := part[i]];
      var k := if IsLetterAt(g, q) then i else i + 1;
      var q1 := Shift(q, d, 1);
      FillStep(g, q, d, part, i, cross);
      var f, rest := Fill(g, q, d, part, i, cross).value, Fill(h, q1, d, part, k, cross).value;
      assert |f.letters| == 1 + |rest.letters| && f.board == rest.board;
      if s != q && ToInt(s) == ToInt(q) {
        ToIntInjective(s, q);
      }
      assert Cell(h, s) == Cell(g, s);
      if OnRay(s, q1, d, |rest.letters|) {
        assert OnRay(s, q, d, |f.letters|);
      }
      FillFrame(h, q1, d, part, k, cross, s);
    }
  }

  /** The letters `place` reads from `q` onwards are the letters of the
      filled board along that stretch: the `j`-th of them lies `j` squares
      past `q`. */
  lemma {:induction false} FillLetters(g: Squares, q: Position, d: Direction, part: string, i: nat, cross: seq<seq<char>>, f: Filled, j: nat)
    requires OnBoard(q) && i <= |part| && |cross| == 225 && Fill(g, q, d, part, i, cross) == Some(f)
    requires forall k :: 0 <= k < |part| ==> IsLetterChar(part[k])
    requires j < |f.letters|
    ensures IsLetterAt(f.board, Shift(q, d, j)) && f.letters[j] == Cell(f.board, Shift(q, d, j))
    decreases j
  {
    if j == 0 {
      FillHead(g, q, d, part, i, cross, f);
    } else {
      var h, k, rest := FillTail(g, q, d, part, i, cross, f);
      FillLetters(h, Shift(q, d, 1), d, part, k, cross, rest, j - 1);
      LetterOneBack(f.letters, f.board, rest.letters, q, d, j);
    }
  }

  /** A letter read `j - 1` squares past the square after `q` is read `j`
      squares past `q`, one place later in the reading. */
  lemma LetterOneBack(w: string, b: Squares, rest: string, q: Position, d: Direction, j: nat)
    requires OnBoard(q) && 0 < j < |w| && w[1..] == rest && Coord(q, d) + j < Size
    requires IsLetterAt(b, Shift(Shift(q, d, 1), d, j - 1)) && rest[j - 1] == Cell(b, Shift(Shift(q, d, 1), d, j - 1))
    ensures IsLetterAt(b, Shift(q, d, j)) && w[j] == Cell(b, Shift(q, d, j))
  {
    assert Shift(Shift(q, d, 1), d, j - 1) == Shift(q, d, j);
  }

  /** A walk of `place` that read something read its first square and then
      walked on from the next one. */
  lemma FillTail(g: Squares, q: Position, d: Direction, part: string, i: nat, cross: seq<seq<char>>, f: Filled)
      returns (h: Squares, k: nat, rest: Filled)
    requires OnBoard(q) && i <= |part| && |cross| == 225 && Fill(g, q, d, part, i, cross) == Some(f) && f.letters != []
    ensures i < |part| && Coord(q, d) < Size - 1 && k <= |part|
    ensures h == (if IsLetterAt(g, q) then g else g[ToInt(q) := part[i]])
    ensures k == (if IsLetterAt(g, q) then i else i + 1)
    ensures Fill(h, Shift(q, d, 1), d, part, k, cross) == Some(rest)
    ensures f.letters == [Cell(h, q)] + rest.letters && f.board == rest.board
  {
    FillStep(g, q, d, part, i, cross);
    h := if IsLetterAt(g, q) then g else g[ToInt(q) := part[i]];
    k := if IsLetterAt(g, q) then i else i + 1;
    rest := Fill(h, Shift(q, d, 1), d, part, k, cross).value;
  }

  /** The first letter `place` reads from `q` is the one on `q` once filled. */
  lemma FillHead(g: Squares, q: Position, d: Direction, part: string, i: nat, cross: seq<seq<char>>, f: Filled)
    requires OnBoard(q) && i <= |part| && |cross| == 225 && Fill(g, q, d, part, i, cross) == Some(f)
    requires forall k :: 0 <= k < |part| ==> IsLetterChar(part[k])
    requires 0 < |f.letters|
    ensures IsLetterAt(f.board, q) && f.letters[0] == Cell(f.board, q)
  {
    var h := if IsLetterAt(g, q) then g else g[ToInt(q) := part[i]];
    var k := if IsLetterAt(g, q) then i else i + 1;
    var q1 := Shift(q, d, 1);
    FillStep(g, q, d, part, i, cross);
    var rest := Fill(h, q1, d, part, k, cross).value;
    assert f.letters[0] == Cell(h, q) && f.board == rest.board;
    assert !OnRay(q, q1, d, |rest.letters|);
    assert IsLetterAt(h, q);
    FillFrame(h, q1, d, part, k, cross, q);
  }

  /** Every square `place` filled on the stretch it read from `q` holds a
      letter that square's cross-check admits. */
  lemma {:induction false} FillAdmits(g: Squares, q: Position, d: Direction, part: string, i: nat, cross: seq<seq<char>>, s: Position)
    requires OnBoard(q) && i <= |part| && |cross| == 225 && Fill(g, q, d, part, i, cross).Some?
    requires OnBoard(s) && OnRay(s, q, d, |Fill(g, q, d, part, i, cross).value.letters|) && !IsLetterAt(g, s)
    ensures Cell(Fill(g, q, d, part, i, cross).value.board, s) in cross[ToInt(s)]
    decreases Size - Coord(q, d)
  {
    var h := if IsLetterAt(g, q) then g else g[ToInt(q) := part[i]];
    var k := if IsLetterAt(g, q) then i else i + 1;
    var q1 := Shift(q, d, 1);
    FillStep(g, q, d, part, i, cross);
    var f, rest := Fill(g, q, d, part, i, cross).value, Fill(h, q1, d, part, k, cross).value;
    assert |f.letters| == 1 + |rest.letters| && f.board == rest.board;
    if s == q {
      assert !OnRay(q, q1, d, |rest.letters|);
      FillFrame(h, q1, d, part, k, cross, q);
    } else {
      if ToInt(s) == ToInt(q) {
        ToIntInjective(s, q);
      }
      assert Cell(h, s) == Cell(g, s);
      FillAdmits(h, q1, d, part, k, cross, s);
    }
  }

  /** The letters on the `n` squares from `q` along `d` of board `h` that were
      empty on board `g`, in board order. */
  function Laid(g: Squares, h: Squares, q: Position, d: Direction, n: nat): (r: string)
    requires OnBoard(q) && Coord(q, d) + n <= Size
    ensures |r| <= n
    decreases n
  {
    if n == 0 then []
    else
      var here := if IsLetterAt(g, q) then [] else [Cell(h, q)];
      if n == 1 then here else here + Laid(g, h, Shift(q, d, 1), d, n - 1)
  }

  lemma LaidStep(g: Squares, h: Squares, q: Position, d: Direction, n: nat)
    requires OnBoard(q) && Coord(q, d) + n <= Size && n > 1
    ensures Laid(g, h, q, d, n) == (if IsLetterAt(g, q) then [] else [Cell(h, q)]) + Laid(g, h, Shift(q, d, 1), d, n - 1)
  {
  }

  /** `Laid` looks only at the squares it passes. */
  lemma {:induction false} LaidFrame(g: Squares, g': Squares, h: Squares, q: Position, d: Direction, n: nat)
    requires OnBoard(q) && Coord(q, d) + n <= Size
    requires forall s :: OnBoard(s) && OnRay(s, q, d, n) ==> IsLetterAt(g, s) == IsLetterAt(g', s)
    ensures Laid(g, h, q, d, n) == Laid(g', h, q, d, n)
    decreases n
  {
    if n > 1 {
      var q1 := Shift(q, d, 1);
      assert OnRay(q, q, d, n);
      forall s | OnBoard(s) && OnRay(s, q1, d, n - 1)
        ensures IsLetterAt(g, s) == IsLetterAt(g', s)
      {
        assert OnRay(s, q, d, n);
      }
      LaidFrame(g, g', h, q1, d, n - 1);
    } else if n == 1 {
      assert OnRay(q, q, d, n);
    }
  }

  /** The squares `place` filled on the stretch it read from `q` spell the
      rest of the part, `part[i..]`, in order. */
  lemma {:induction false} FillLays(g: Squares, q: Position, d: Direction, part: string, i: nat, cross: seq<seq<char>>)
    requires OnBoard(q) && i <= |part| && |cross| == 225 && Fill(g, q, d, part, i, cross).Some?
    ensures var f := Fill(g, q, d, part, i, cross).value;
      Laid(g, f.board, q, d, |f.letters|) == part[i..]
    decreases Size - Coord(q, d)
  {
    if i < |part| {
      var q1 := Shift(q, d, 1);
      var f := Fill(g, q, d, part, i, cross).value;
      FillStep(g, q, d, part, i, cross);
      if IsLetterAt(g, q) {
        var rest := Fill(g, q1, d, part, i, cross).value;
        assert |f.letters| == 1 + |rest.letters| && f.board == rest.board;
        FillLays(g, q1, d, part, i, cross);
        LaidStep(g, f.board, q, d, |f.letters|);
      } else {
        FillLays(g[ToInt(q) := part[i]], q1, d, part, i + 1, cross);
        LaysEmptyStep(g, q, d, part, i, cross);
      }
    }
  }

  /** The step of `FillLays` at an empty square. */
  lemma LaysEmptyStep(g: Squares, q: Position, d: Direction, part: string, i: nat, cross: seq<seq<char>>)
    requires OnBoard(q) && i < |part| && |cross| == 225 && Fill(g, q, d, part, i, cross).Some?
    requires !IsLetterAt(g, q) && Coord(q, d) < Size - 1
    requires var h := g[ToInt(q) := part[i]];
      var rest := Fill(h, Shift(q, d, 1), d, part, i + 1, cross);
      rest.Some? && Laid(h, rest.value.board, Shift(q, d, 1), d, |rest.value.letters|) == part[i + 1..]
    ensures var f := Fill(g, q, d, part, i, cross).value;
      Laid(g, f.board, q, d, |f.letters|) == part[i..]
  {
    var q1 := Shift(q, d, 1);
    var f := Fill(g, q, d, part, i, cross).value;
    FillStep(g, q, d, part, i, cross);
    var h := g[ToInt(q) := part[i]];
    var rest := Fill(h, q1, d, part, i + 1, cross).value;
    assert |f.letters| == 1 + |rest.letters| && f.board == rest.board;
    assert !OnRay(q, q1, d, |rest.letters|);
    FillFrame(h, q1, d, part, i + 1, cross, q);
    assert part[i..] == [part[i]] + part[i + 1..];
    if rest.letters != [] {
      LaidPastWrite(g, q, d, part[i], f.board, |rest.letters|);
      LaidStep(g, f.board, q, d, |f.letters|);
    }
  }

  /** Writing square `q` does not change what `Laid` reads on the squares
      after it. */
  lemma LaidPastWrite(g: Squares, q: Position, d: Direction, c: char, b: Squares, n: nat)
    requires OnBoard(q) && Coord(q, d) < Size - 1 && Coord(q, d) + 1 + n <= Size
    ensures Laid(g, b, Shift(q, d, 1), d, n) == Laid(g[ToInt(q) := c], b, Shift(q, d, 1), d, n)
  {
    var q1 := Shift(q, d, 1);
    var h := g[ToInt(q) := c];
    forall s | OnBoard(s) && OnRay(s, q1, d, n)
      ensures IsLetterAt(g, s) == IsLetterAt(h, s)
    {
      if ToInt(s) == ToInt(q) {
        ToIntInjective(s, q);
      }
    }
    LaidFrame(g, h, b, q1, d, n);
  }

  /** What a move `place` offers means: it sits at `p` along `d`, its word is
      in the dictionary, and it is the whole run of letters through `p` on
      the filled board, starting at a run start `|Before|` squares behind
      `p`. The filled squares spell the part in order, each admitted by its
      cross-check, and no letter is read on the last square of the line. */
  lemma PlaceMeaning(dict: Dictionary, g: Squares, p: Position, d: Direction, part: string, cross: seq<seq<char>>)
    requires OnBoard(p) && |cross| == 225 && PlaceSpec(dict, g, p, d, part, cross).Some?
    requires forall k :: 0 <= k < |part| ==> IsLetterChar(part[k])
    ensures var m := PlaceSpec(dict, g, p, d, part, cross).value;
      var f := Fill(g, p, d, part, 0, cross).value;
      var b := Before(g, p, d);
      var start := Behind(p, d, |b|);
      m.position == p && m.direction == d && CheckWord(dict, m.word) &&
      m.word == RunFrom(f.board, start, d) && IsRunStart(f.board, start, d) &&
      Laid(g, f.board, p, d, |f.letters|) == part &&
      (forall s :: OnBoard(s) && OnRay(s, p, d, |f.letters|) && !IsLetterAt(g, s) ==> Cell(f.board, s) in cross[ToInt(s)]) &&
      Coord(p, d) + |f.letters| < Size
  {
    var m := PlaceSpec(dict, g, p, d, part, cross).value;
    var f := Fill(g, p, d, part, 0, cross).value;
    var b := Before(g, p, d);
    var start := Behind(p, d, |b|);
    FillLays(g, p, d, part, 0, cross);
    assert part[0..] == part;
    forall s | OnBoard(s) && OnRay(s, p, d, |f.letters|) && !IsLetterAt(g, s)
      ensures Cell(f.board, s) in cross[ToInt(s)]
    {
      FillAdmits(g, p, d, part, 0, cross, s);
    }
    PlaceRun(dict, g, p, d, part, cross);
  }

  /** One square of the stretch `place` reads before `p`: a letter left
      untouched by the middle loop. */
  lemma StretchBefore(g: Squares, p: Position, d: Direction, part: string, cross: seq<seq<char>>, f: Filled, b: string, j: nat)
    requires OnBoard(p) && |cross| == 225 && Fill(g, p, d, part, 0, cross) == Some(f) && b == Before(g, p, d)
    requires j < |b|
    ensures var s := Shift(p, d, j - |b|);
      IsLetterAt(f.board, s) && b[j] == Cell(f.board, s)
  {
    var s := Behind(p, d, |b| - j);
    BeforeCells(g, p, d);
    assert IsLetterAt(g, s) && b[j] == Cell(g, s);
    assert !OnRay(s, p, d, |f.letters|);
    FillFrame(g, p, d, part, 0, cross, s);
  }

  /** One square of the stretch `place` reads, from the run start behind
      `p` to where its middle loop stopped. */
  lemma StretchCell(g: Squares, p: Position, d: Direction, part: string, cross: seq<seq<char>>, f: Filled, b: string, j: nat)
    requires OnBoard(p) && |cross| == 225 && Fill(g, p, d, part, 0, cross) == Some(f) && b == Before(g, p, d)
    requires forall k :: 0 <= k < |part| ==> IsLetterChar(part[k])
    requires j < |b| + |f.letters|
    ensures var s := Shift(p, d, j - |b|);
      IsLetterAt(f.board, s) && (b + f.letters)[j] == Cell(f.board, s)
  {
    if j < |b| {
      StretchBefore(g, p, d, part, cross, f, b, j);
    } else {
      FillLetters(g, p, d, part, 0, cross, f, j - |b|);
    }
  }

  /** On the filled board the letters before `p`, those the middle loop read
      and the run after it make one run, starting `|Before|` squares behind
      `p`. */
  lemma Stretch(g: Squares, p: Position, d: Direction, part: string, cross: seq<seq<char>>)
    requires OnBoard(p) && |cross| == 225 && Fill(g, p, d, part, 0, cross).Some?
    requires forall k :: 0 <= k < |part| ==> IsLetterChar(part[k])
    ensures var f := Fill(g, p, d, part, 0, cross).value;
      var b := Before(g, p, d);
      var start := Behind(p, d, |b|);
      RunFrom(f.board, start, d) == b + f.letters + RunFrom(f.board, f.stop, d) &&
      (Coord(start, d) > 0 ==> !IsLetterAt(f.board, Shift(start, d, -1)))
  {
    var f := Fill(g, p, d, part, 0, cross).value;
    var b := Before(g, p, d);
    var start := Behind(p, d, |b|);
    var w := b + f.letters;
    forall j: nat | j < |w|
      ensures IsLetterAt(f.board, Shift(start, d, j)) && w[j] == Cell(f.board, Shift(start, d, j))
    {
      StretchCell(g, p, d, part, cross, f, b, j);
      assert Shift(start, d, j) == Shift(p, d, j - |b|);
    }
    RunFromConcat(f.board, start, d, w, f.stop);
    if Coord(start, d) > 0 {
      var s := Behind(p, d, |b| + 1);
      BeforeCells(g, p, d);
      assert Shift(start, d, -1) == s;
      assert !OnRay(s, p, d, |f.letters|);
      FillFrame(g, p, d, part, 0, cross, s);
    }
  }

  /** The run half of `PlaceMeaning`. */
  lemma PlaceRun(dict: Dictionary, g: Squares, p: Position, d: Direction, part: string, cross: seq<seq<char>>)
    requires OnBoard(p) && |cross| == 225 && PlaceSpec(dict, g, p, d, part, cross).Some?
    requires forall k :: 0 <= k < |part| ==> IsLetterChar(part[k])
    ensures var m := PlaceSpec(dict, g, p, d, part, cross).value;
      var f := Fill(g, p, d, part, 0, cross).value;
      var start := Behind(p, d, |Before(g, p, d)|);
      m.word == RunFrom(f.board, start, d) && IsRunStart(f.board, start, d)
  {
    var m := PlaceSpec(dict, g, p, d, part, cross).value;
    var f := Fill(g, p, d, part, 0, cross).value;
    var start := Behind(p, d, |Before(g, p, d)|);
    Stretch(g, p, d, part, cross);
    assert |m.word| >= 2;
    assert IsLetterAt(f.board, start);
  }

  /** The cross-check table `generate_all_moves` builds: for each square,
      in `to_int` order, the letters its cross-check admits. */
  ghost function CrossTable(dict: Dictionary, g: Squares): (r: seq<seq<char>>)
    ensures |r| == 225
    ensures forall k :: 0 <= k < 225 ==> r[k] == Chars(CrossCheck(dict, g, Pos(k)))
  {
    seq(225, k requires 0 <= k < 225 => Chars(CrossCheck(dict, g, Pos(k))))
  }

  /** `place` from the square `dist` squares along `d` from anchor `a` (when
      that square exists) offers move `m`. */
  predicate PlacedAt(dict: Dictionary, g: Squares, cross: seq<seq<char>>, a: Position, d: Direction, part: string, dist: int, m: Move)
    requires OnBoard(a) && |cross| == 225 && dist <= 0
  {
    Coord(a, d) + dist >= 0 && PlaceSpec(dict, g, Shift(a, d, dist), d, part, cross) == Some(m)
  }

  /** What one turn of the innermost loop of `generate_all_moves` adds, for
      an anchor, a direction, a part and a `dist`. */
  type Emit = (Position, Direction, string, int) -> seq<Move>

  /** The innermost turn on board `g`: `add` finds the square `dist` squares
      along `d` from the anchor, and `place` on a copy of the board offers a
      move or nothing. */
  function Emitter(dict: Dictionary, g: Squares, cross: seq<seq<char>>): Emit {
    (a: Position, d: Direction, part: string, dist: int) =>
      if OnBoard(a) && |cross| == 225 && dist <= 0 && Coord(a, d) + dist >= 0 then
        var o := PlaceSpec(dict, g, Shift(a, d, dist), d, part, cross);
        if o.Some? then [o.value] else []
      else []
  }

  lemma EmitterMeans(dict: Dictionary, g: Squares, cross: seq<seq<char>>, a: Position, d: Direction, part: string, dist: int, m: Move)
    requires OnBoard(a) && |cross| == 225 && dist <= 0
    ensures m in Emitter(dict, g, cross)(a, d, part, dist) <==> PlacedAt(dict, g, cross, a, d, part, dist, m)
  {
  }

  /** The moves of the first `j` turns of the `dist` loop for anchor `a`,
      direction `d` and one part; `dist` runs from `1 - |part|` up to 0. */
  function DistMoves(at: Emit, a: Position, d: Direction, part: string, j: nat): seq<Move>
    requires j <= |part|
  {
    if j == 0 then [] else DistMoves(at, a, d, part, j - 1) + at(a, d, part, j - |part|)
  }

  /** The moves of the first `k` parts for anchor `a` and direction `d`. */
  function PartMoves(at: Emit, a: Position, d: Direction, parts: seq<string>, k: nat): seq<Move>
    requires k <= |parts|
  {
    if k == 0 then [] else PartMoves(at, a, d, parts, k - 1) + DistMoves(at, a, d, parts[k - 1], |parts[k - 1]|)
  }

  /** The moves of the first `n` directions for anchor `a`. */
  function DirMoves(at: Emit, a: Position, parts: seq<string>, n: nat): seq<Move>
    requires n <= |Directions|
  {
    if n == 0 then [] else DirMoves(at, a, parts, n - 1) + PartMoves(at, a, Directions[n - 1], parts, |parts|)
  }

  /** The moves of the first `n` anchors of `anchors`. */
  function AnchorMoves(at: Emit, anchors: seq<Position>, parts: seq<string>, n: nat): seq<Move>
    requires n <= |anchors|
  {
    if n == 0 then [] else AnchorMoves(at, anchors, parts, n - 1) + DirMoves(at, anchors[n - 1], parts, |Directions|)
  }

  lemma {:induction false} DistMovesMeans(at: Emit, a: Position, d: Direction, part: string, j: nat, m: Move)
    requires j <= |part|
    ensures m in DistMoves(at, a, d, part, j) <==> exists dist :: 1 - |part| <= dist < 1 - |part| + j && m in at(a, d, part, dist)
  {
    if j > 0 {
      DistMovesMeans(at, a, d, part, j - 1, m);
    }
  }

  lemma {:induction false} PartMovesMeans(at: Emit, a: Position, d: Direction, parts: seq<string>, k: nat, m: Move)
    requires k <= |parts|
    ensures m in PartMoves(at, a, d, parts, k) <==>
      exists i, dist :: 0 <= i < k && 1 - |parts[i]| <= dist <= 0 && m in at(a, d, parts[i], dist)
  {
    if k > 0 {
      PartMovesMeans(at, a, d, parts, k - 1, m);
      DistMovesMeans(at, a, d, parts[k - 1], |parts[k - 1]|, m);
    }
  }

  lemma {:induction false} DirMovesMeans(at: Emit, a: Position, parts: seq<string>, n: nat, m: Move)
    requires n <= |Directions|
    ensures m in DirMoves(at, a, parts, n) <==>
      exists e, i, dist :: 0 <= e < n && 0 <= i < |parts| && 1 - |parts[i]| <= dist <= 0 && m in at(a, Directions[e], parts[i], dist)
  {
    if n > 0 {
      DirMovesMeans(at, a, parts, n - 1, m);
      PartMovesMeans(at, a, Directions[n - 1], parts, |parts|, m);
    }
  }

  lemma {:induction false} AnchorMovesMeans(at: Emit, anchors: seq<Position>, parts: seq<string>, n: nat, m: Move)
    requires n <= |anchors|
    ensures m in AnchorMoves(at, anchors, parts, n) <==>
      exists t, e, i, dist :: 0 <= t < n && 0 <= e < |Directions| && 0 <= i < |parts| && 1 - |parts[i]| <= dist <= 0 &&
        m in at(anchors[t], Directions[e], parts[i], dist)
  {
    if n > 0 {
      AnchorMovesMeans(at, anchors, parts, n - 1, m);
      DirMovesMeans(at, anchors[n - 1], parts, |Directions|, m);
    }
  }

  /** A move `generate_all_moves` can produce on board `g` from parts
      `parts`: `place` offers it from a square at most `|part| - 1` squares
      before an anchor, in either direction, with the cross-check table of
      `g`. */
  ghost predicate Generated(dict: Dictionary, g: Squares, parts: seq<string>, m: Move) {
    exists a, e, i, dist :: IsAnchor(g, a) && 0 <= e < |Directions| && 0 <= i < |parts| && 1 - |parts[i]| <= dist <= 0 &&
      PlacedAt(dict, g, CrossTable(dict, g), a, Directions[e], parts[i], dist, m)
  }

  /** The default board holds no letter, only square markers; its centre is
      the start square `*`. */
  lemma DefaultHasNoLetters(p: Position)
    requires OnBoard(p)
    ensures !IsLetterAt(LayoutSquares(), p)
    ensures Cell(LayoutSquares(), Position(7, 7)) == '*'
  {
    LayoutCell(p);
    LayoutCell(Position(7, 7));
    LayoutRowMarks(p.row);
    LetterCharMeans(Layout[p.row][p.col]);
  }

  lemma LayoutCell(p: Position)
    requires OnBoard(p)
    ensures Cell(LayoutSquares(), p) == Layout[p.row][p.col]
  {
    PosToInt(p);
  }

  lemma LayoutRowMarks(r: nat)
    requires r < Size
    ensures |Layout[r]| == Size && forall c :: 0 <= c < Size ==> Layout[r][c] in Markers
  {
    var s := Layout[r];
    forall c | 0 <= c < |s|
      ensures s[c] in Markers
    {
      assert s[c] in "#.-^+*";
    }
  }

  /** So on the default board `generate_all_moves` finds no anchor and offers
      no move. */
  lemma DefaultGeneratesNothing(dict: Dictionary, parts: seq<string>, m: Move)
    ensures !Generated(dict, LayoutSquares(), parts, m)
  {
    var g := LayoutSquares();
    forall a | IsAnchor(g, a)
      ensures false
    {
      var p :| OnBoard(p) && ToInt(p) < 225 && IsLetterAt(g, p) && Adjacent(p, a);
      DefaultHasNoLetters(p);
    }
  }

  /** Over any listing of the anchors, the moves generated are exactly the
      `Generated` ones. */
  lemma AnchorMovesGenerated(dict: Dictionary, g: Squares, anchors: seq<Position>, parts: seq<string>, m: Move)
    requires forall q :: q in anchors <==> IsAnchor(g, q)
    ensures m in AnchorMoves(Emitter(dict, g, CrossTable(dict, g)), anchors, parts, |anchors|) <==> Generated(dict, g, parts, m)
  {
    var cross := CrossTable(dict, g);
    var at := Emitter(dict, g, cross);
    AnchorMovesMeans(at, anchors, parts, |anchors|, m);
    if m in AnchorMoves(at, anchors, parts, |anchors|) {
      var t, e, i, dist :| 0 <= t < |anchors| && 0 <= e < |Directions| && 0 <= i < |parts| && 1 - |parts[i]| <= dist <= 0 &&
        m in at(anchors[t], Directions[e], parts[i], dist);
      assert anchors[t] in anchors;
      EmitterMeans(dict, g, cross, anchors[t], Directions[e], parts[i], dist, m);
    }
    if Generated(dict, g, parts, m) {
      var a, e, i, dist :| IsAnchor(g, a) && 0 <= e < |Directions| && 0 <= i < |parts| && 1 - |parts[i]| <= dist <= 0 &&
        PlacedAt(dict, g, cross, a, Directions[e], parts[i], dist, m);
      var t :| 0 <= t < |anchors| && anchors[t] == a;
      EmitterMeans(dict, g, cross, a, Directions[e], parts[i], dist, m);
    }
  }

  /** Handling a square along `Directions[n]` leaves the marks of the other
      direction as they were. */
  lemma SweptOthers(g: Squares, p: Position, n: nat)
    requires OnBoard(p) && n < |Directions|
    ensures forall q, e: nat :: OnBoard(q) && e < |Directions| && e != n ==>
      (Swept(g, q, e, ToInt(p), n + 1) <==> Swept(g, q, e, ToInt(p), n))
  {
    if IsRunStart(g, p, Directions[n]) {
      SweptRun(g, p, n);
    } else {
      SweptSkip(g, p, n);
    }
  }

  class Board {
    var state: array2<char>
    /** The grid's contents, square `p` at index `ToInt(p)`. */
    ghost var cells: Squares

    ghost predicate Valid()
      reads this, state
    {
      state.Length0 == Size && state.Length1 == Size &&
      forall p {:trigger state[p.row, p.col]} :: OnBoard(p) ==> state[p.row, p.col] == Cell(cells, p)
    }

    /** `Board::default`: the premium-square layout with no letters. */
    constructor Default()
      ensures Valid() && cells == LayoutSquares()
    {
      state := new char[15, 15]((r, c) requires 0 <= r < 15 && 0 <= c < 15 => Layout[r][c]);
      cells := LayoutSquares();
      new;
      forall p | OnBoard(p)
        ensures state[p.row, p.col] == Cell(cells, p)
      {
        PosToInt(p);
      }
    }

    /** A board over the given grid (used by `clone`). */
    constructor Of(s: array2<char>, ghost g: Squares)
      requires s.Length0 == Size && s.Length1 == Size
      requires forall p :: OnBoard(p) ==> s[p.row, p.col] == Cell(g, p)
      ensures state == s && cells == g && Valid()
    {
      state := s;
      cells := g;
    }

    /** `Board::clone`: an independent copy of the grid. */
    method Clone() returns (b: Board)
      requires Valid()
      ensures fresh(b) && fresh(b.state) && b.Valid()
      ensures b.cells == cells
    {
      var s := state;
      var copy := new char[15, 15]((r, c) requires 0 <= r < 15 && 0 <= c < 15 reads s => s[r, c]);
      b := new Board.Of(copy, cells);
    }

    /** `Board::at_position`. */
    function AtPosition(p: Position): (c: char)
      reads this, state
      requires Valid() && OnBoard(p)
      ensures c == Cell(cells, p)
    {
      state[p.row, p.col]
    }

    /** `Board::is_letter`: the square holds something other than a marker. */
    function IsLetter(p: Position): (r: bool)
      reads this, state
      requires Valid() && OnBoard(p)
      ensures r <==> IsLetterAt(cells, p)
    {
      AtPosition(p) !in Markers
    }

    /** `Board::set`: one square changes, nothing else. */
    method Set(p: Position, c: char)
      requires Valid() && OnBoard(p)
      modifies this, state
      ensures Valid() && state == old(state)
      ensures cells == old(cells)[ToInt(p) := c]
    {
      state[p.row, p.col] := c;
      cells := cells[ToInt(p) := c];
      forall q | OnBoard(q)
        ensures state[q.row, q.col] == Cell(cells, q)
      {
        if q != p {
          if ToInt(p) == ToInt(q) {
            ToIntInjective(p, q);
          }
          assert state[q.row, q.col] == old(state[q.row, q.col]);
        }
      }
    }

    /** Marking the next square of the run adds exactly that square to the
        marks. */
    static method Mark(ghost g: Squares, p: Position, n: nat, m: nat, row: array<bool>)
      requires OnBoard(p) && n < |Directions| && Coord(p, Directions[n]) + m < Size && row.Length == 225
      requires forall q {:trigger row[ToInt(q)]} :: OnBoard(q) ==> (row[ToInt(q)] <==> Walked(g, q, p, n, m))
      modifies row
      ensures forall q {:trigger row[ToInt(q)]} :: OnBoard(q) ==> (row[ToInt(q)] <==> Walked(g, q, p, n, m + 1))
    {
      var at := Shift(p, Directions[n], m);
      row[ToInt(at)] := true;
      WalkedStep(g, p, n, m);
      forall q | OnBoard(q)
        ensures row[ToInt(q)] <==> Walked(g, q, p, n, m + 1)
      {
        if ToInt(q) == ToInt(at) {
          ToIntInjective(q, at);
        }
      }
    }

    /** The walk of `get_words` from a run start: collect the run's letters and
        mark its squares in `row`, the marks for direction number `n`. */
    method ReadRun(p: Position, n: nat, row: array<bool>) returns (word: string)
      requires Valid() && OnBoard(p) && n < |Directions| && IsRunStart(cells, p, Directions[n])
      requires row.Length == 225
      requires forall q {:trigger row[ToInt(q)]} :: OnBoard(q) ==>
        (row[ToInt(q)] <==> Swept(cells, q, n, ToInt(p), n))
      modifies row
      ensures word == RunFrom(cells, p, Directions[n])
      ensures forall q {:trigger row[ToInt(q)]} :: OnBoard(q) ==>
        (row[ToInt(q)] <==> Swept(cells, q, n, ToInt(p), n + 1))
    {
      var d := Directions[n];
      var curr := p;
      ghost var g := cells;
      word := [];
      while IsLetter(curr)
        invariant OnBoard(curr) && Coord(p, d) + |word| < Size && curr == Shift(p, d, |word|)
        invariant RunFrom(g, p, d) == word + RunFrom(g, curr, d)
        invariant forall q {:trigger row[ToInt(q)]} :: OnBoard(q) ==>
          (row[ToInt(q)] <==> Walked(g, q, p, n, |word|))
        decreases Size - Coord(curr, d)
      {
        RunFromGrow(g, p, d, word, curr);
        Mark(g, p, n, |word|, row);
        word := word + [AtPosition(curr)];
        var ok;
        ok, curr := Tick(curr, d);
        if !ok {
          break;
        }
      }
      assert word == RunFrom(g, p, d);
      SweptRun(g, p, n);
    }

    /** One direction at one square of `get_words`: unless the square is
        already marked for that direction or holds no letter, read the run
        that starts there and record it if it is longer than one byte. */
    method VisitSquare(p: Position, k: nat, n: nat, row: array<bool>) returns (found: seq<string>)
      requires Valid() && k < 225 && p == Pos(k) && n < |Directions| && row.Length == 225
      requires forall q {:trigger row[ToInt(q)]} :: OnBoard(q) ==> (row[ToInt(q)] <==> Swept(cells, q, n, k, n))
      modifies row
      ensures found == WordAt(cells, p, Directions[n])
      ensures forall q {:trigger row[ToInt(q)]} :: OnBoard(q) ==> (row[ToInt(q)] <==> Swept(cells, q, n, k, n + 1))
    {
      RunStartIndex(cells, p, Directions[n]);
      if !row[ToInt(p)] && IsLetter(p) {
        var word := ReadRun(p, n, row);
        SweptRun(cells, p, n);
        found := if ByteLength(word) > 1 then [word] else [];
      } else {
        SweptSkip(cells, p, n);
        found := [];
      }
    }

    /** `Board::get_words`: every word on the board, scanning squares in
        row-major order and, for each, across before down. */
    method GetWords() returns (result: seq<string>)
      requires Valid()
      ensures result == Words(cells)
    {
      ghost var g := cells;
      result := [];
      var across := new bool[225](_ => false);
      var down := new bool[225](_ => false);
      var marked := [across, down];
      var ps := Positions();
      for k := 0 to 225
        invariant forall q {:trigger across[ToInt(q)]} :: OnBoard(q) ==> (across[ToInt(q)] <==> Swept(g, q, 0, k, 0))
        invariant forall q {:trigger down[ToInt(q)]} :: OnBoard(q) ==> (down[ToInt(q)] <==> Swept(g, q, 1, k, 0))
        invariant result == WordsBelow(g, k)
      {
        var p := ps[k];
        assert p == Pos(k) by {
          ToIntInjective(p, Pos(k));
        }
        for n := 0 to |Directions|
          invariant forall q {:trigger across[ToInt(q)]} :: OnBoard(q) ==> (across[ToInt(q)] <==> Swept(g, q, 0, k, n))
          invariant forall q {:trigger down[ToInt(q)]} :: OnBoard(q) ==> (down[ToInt(q)] <==> Swept(g, q, 1, k, n))
          invariant result == WordsBelow(g, k) + WordsAt(g, p, n)
        {
          WordsAtNext(g, k, n);
          SweptOthers(g, p, n);
          var found := VisitSquare(p, k, n, marked[n]);
          result := result + found;
        }
      }
    }

    /** `Board::valid`: all words on the board are in the dictionary. */
    method IsValid(dict: Dictionary) returns (r: bool)
      requires Valid()
      ensures r <==> BoardValid(dict, cells)
    {
      var words := GetWords();
      for i := 0 to |words|
        invariant forall j :: 0 <= j < i ==> CheckWord(dict, words[j])
      {
        if !CheckWord(dict, words[i]) {
          return false;
        }
      }
      return true;
    }

    /** `Board::anchors`: for every letter in row-major order, its neighbours
        that are not letters (a square next to several letters is listed once
        per letter). */
    method Anchors() returns (result: seq<Position>)
      requires Valid()
      ensures forall q :: q in result <==> IsAnchor(cells, q)
    {
      ghost var g := cells;
      result := [];
      var ps := Positions();
      for k := 0 to 225
        invariant forall q :: q in result <==> OnBoard(q) && !IsLetterAt(g, q) && LetterNeighbourBelow(g, q, k)
      {
        var p := ps[k];
        assert p == Pos(k) by {
          ToIntInjective(p, Pos(k));
        }
        forall q {
          LetterNeighbourNext(g, q, k);
        }
        if !IsLetter(p) {
          continue;
        }
        var ns := Neighbors(p);
        for i := 0 to |ns|
          invariant forall q :: q in result <==>
            OnBoard(q) && !IsLetterAt(g, q) && (LetterNeighbourBelow(g, q, k) || q in ns[..i])
        {
          assert ns[..i + 1] == ns[..i] + [ns[i]];
          if !IsLetter(ns[i]) {
            result := result + [ns[i]];
          }
        }
        assert ns[..|ns|] == ns;
      }
    }

    /** `Board::valid_at`: the cross-check of square `p`, found by trying
        each letter A..Z on it, asking `valid`, and putting the old character
        back. */
    method ValidAt(p: Position, dict: Dictionary) returns (cross: seq<bool>)
      requires Valid() && OnBoard(p)
      modifies this, state
      ensures Valid() && state == old(state) && cells == old(cells)
      ensures cross == CrossCheck(dict, old(cells), p)
    {
      ghost var g := cells;
      if IsLetter(p) {
        return seq(26, i => false);
      }
      var any := LetterBeside(p);
      if !any {
        return seq(26, i => true);
      }
      var c := new bool[26](i => false);
      for i := 0 to 26
        invariant Valid() && state == old(state) && cells == g
        invariant forall j :: 0 <= j < i ==> c[j] == BoardValid(dict, g[ToInt(p) := Alph[j]])
      {
        c[i] := TryLetter(p, Alph[i], dict);
      }
      cross := c[..];
    }

    /** The neighbour scan of `valid_at`: whether a square beside `p` holds
        a letter. */
    method LetterBeside(p: Position) returns (any: bool)
      requires Valid() && OnBoard(p)
      ensures any <==> HasLetterNeighbour(cells, p)
    {
      var ns := Neighbors(p);
      any := false;
      for j := 0 to |ns|
        invariant any <==> exists m :: 0 <= m < j && IsLetterAt(cells, ns[m])
      {
        if IsLetter(ns[j]) {
          any := true;
        }
      }
    }

    /** One step of `valid_at`'s loop: put `l` on `p`, ask `valid`, and put
        the old character back. */
    method TryLetter(p: Position, l: char, dict: Dictionary) returns (ok: bool)
      requires Valid() && OnBoard(p)
      modifies this, state
      ensures Valid() && state == old(state) && cells == old(cells)
      ensures ok == BoardValid(dict, old(cells)[ToInt(p) := l])
    {
      ghost var g := cells;
      var previous := AtPosition(p);
      Set(p, l);
      ok := IsValid(dict);
      Set(p, previous);
      assert cells == g;
    }

    /** The first loop of `Board::place`: the letters just before `p`,
        collected walking backwards and then reversed. */
    method ReadBefore(p: Position, d: Direction) returns (before: string)
      requires Valid() && OnBoard(p)
      ensures before == Before(cells, p, d)
    {
      ghost var g := cells;
      var left := [];
      var ok, curr := TickOpp(p, d);
      if ok {
        ghost var first := curr;
        while IsLetter(curr)
          invariant OnBoard(curr) && BackRun(g, first, d) == left + BackRun(g, curr, d)
          decreases Coord(curr, d)
        {
          BackRunGrow(g, first, d, left, curr);
          left := left + [AtPosition(curr)];
          var more;
          more, curr := TickOpp(curr, d);
          if !more {
            break;
          }
        }
        assert left == BackRun(g, Shift(p, d, -1), d);
      }
      before := Reverse(left);
    }

    /** The middle loop of `Board::place`: lay `part` from `p` along `d`,
        skipping squares that already hold letters. */
    method FillPart(p: Position, d: Direction, part: string, cross: seq<seq<char>>)
        returns (ok: bool, letters: string, stop: Position)
      requires Valid() && OnBoard(p) && |cross| == 225
      modifies this, state
      ensures Valid() && state == old(state)
      ensures ok <==> Fill(old(cells), p, d, part, 0, cross).Some?
      ensures ok ==> Fill(old(cells), p, d, part, 0, cross) == Some(Filled(cells, letters, stop))
    {
      ghost var g := cells;
      var curr := p;
      var i := 0;
      letters := [];
      LeadEmpty(Fill(g, p, d, part, 0, cross));
      while i < |part|
        invariant Valid() && state == old(state)
        invariant OnBoard(curr) && i <= |part|
        invariant Fill(g, p, d, part, 0, cross) == Lead(letters, Fill(cells, curr, d, part, i, cross))
        decreases Size - Coord(curr, d)
      {
        ghost var h, at, j := cells, curr, i;
        if !IsLetter(curr) {
          if part[i] in cross[ToInt(curr)] {
            Set(curr, part[i]);
          } else {
            return false, letters, curr;
          }
          i := i + 1;
        }
        FillStep(h, at, d, part, j, cross);
        var c := AtPosition(curr);
        ghost var before := letters;
        letters := letters + [c];
        var more;
        more, curr := Tick(curr, d);
        if !more {
          return false, letters, curr;
        }
        LeadLead(before, [c], Fill(cells, curr, d, part, i, cross));
      }
      assert letters + [] == letters;
      return true, letters, curr;
    }

    /** The last loop of `Board::place`: the run of letters from `q`. */
    method ReadFrom(q: Position, d: Direction) returns (after: string)
      requires Valid() && OnBoard(q)
      ensures after == RunFrom(cells, q, d)
    {
      ghost var g := cells;
      var curr := q;
      after := [];
      while IsLetter(curr)
        invariant OnBoard(curr) && RunFrom(g, q, d) == after + RunFrom(g, curr, d)
        decreases Size - Coord(curr, d)
      {
        RunFromGrow(g, q, d, after, curr);
        after := after + [AtPosition(curr)];
        var more;
        more, curr := Tick(curr, d);
        if !more {
          break;
        }
      }
    }

    /** Every move of `generate_all_moves` is one `place` offers on a copy
        of the board, from a square at most `|part| - 1` squares before an
        anchor, for a part of the rack; and every such move is listed.
        `parts` is what the rack's parts generator yields. */
    method GenerateAllMoves(parts: seq<string>, dict: Dictionary) returns (result: seq<Move>)
      requires Valid()
      modifies this, state
      ensures Valid() && state == old(state) && cells == old(cells)
      ensures forall m :: m in result <==> Generated(dict, cells, parts, m)
    {
      ghost var g := cells;
      var cross := CrossChecks(dict);
      var anchors := Anchors();
      result := [];
      for t := 0 to |anchors|
        invariant Valid() && state == old(state) && cells == g
        invariant result == AnchorMoves(Emitter(dict, g, cross), anchors, parts, t)
      {
        assert IsAnchor(g, anchors[t]);
        var ms := PlaceDirections(anchors[t], parts, dict, cross);
        result := result + ms;
      }
      forall m
        ensures m in result <==> Generated(dict, g, parts, m)
      {
        AnchorMovesGenerated(dict, g, anchors, parts, m);
      }
    }

    /** The cross-check table of `generate_all_moves`: for each square, the
        letters `valid_at` admits there. */
    method CrossChecks(dict: Dictionary) returns (cross: seq<seq<char>>)
      requires Valid()
      modifies this, state
      ensures Valid() && state == old(state) && cells == old(cells)
      ensures cross == CrossTable(dict, cells)
    {
      ghost var g := cells;
      var table := new seq<char>[225](_ => []);
      var ps := Positions();
      for k := 0 to |ps|
        invariant Valid() && state == old(state) && cells == g
        invariant table[..k] == CrossTable(dict, g)[..k]
      {
        ToIntInjective(ps[k], Pos(k));
        CrossCheckInto(ps[k], k, dict, table);
      }
      assert table[..] == table[..225];
      cross := table[..];
    }

    /** One turn of the cross-check loop: the letters `valid_at` admits on
        square `p`, number `k`, stored at `to_int(p)`. */
    method CrossCheckInto(p: Position, k: nat, dict: Dictionary, table: array<seq<char>>)
      requires Valid() && k < 225 && p == Pos(k) && table.Length == 225
      requires table[..k] == CrossTable(dict, cells)[..k]
      modifies this, state, table
      ensures Valid() && state == old(state) && cells == old(cells)
      ensures table[..k + 1] == CrossTable(dict, cells)[..k + 1]
    {
      var flags := ValidAt(p, dict);
      ghost var done := table[..k];
      table[ToInt(p)] := Chars(flags);
      assert table[..k + 1] == done + [CrossTable(dict, cells)[k]];
    }

    /** The direction loop of `generate_all_moves` for one anchor. */
    method PlaceDirections(a: Position, parts: seq<string>, dict: Dictionary, cross: seq<seq<char>>) returns (moves: seq<Move>)
      requires Valid() && OnBoard(a) && |cross| == 225
      ensures moves == DirMoves(Emitter(dict, cells, cross), a, parts, |Directions|)
    {
      moves := [];
      for e := 0 to |Directions|
        invariant moves == DirMoves(Emitter(dict, cells, cross), a, parts, e)
      {
        var ms := PlaceParts(a, Directions[e], parts, dict, cross);
        moves := moves + ms;
      }
    }

    /** The part loop of `generate_all_moves` for one anchor and direction. */
    method PlaceParts(a: Position, d: Direction, parts: seq<string>, dict: Dictionary, cross: seq<seq<char>>) returns (moves: seq<Move>)
      requires Valid() && OnBoard(a) && |cross| == 225
      ensures moves == PartMoves(Emitter(dict, cells, cross), a, d, parts, |parts|)
    {
      moves := [];
      for k := 0 to |parts|
        invariant moves == PartMoves(Emitter(dict, cells, cross), a, d, parts, k)
      {
        var ms := PlaceDists(a, d, parts[k], dict, cross);
        moves := moves + ms;
      }
    }

    /** The `dist` loop of `generate_all_moves`: `place` on a copy of the
        board from each square up to `|part| - 1` squares before `a`. */
    method PlaceDists(a: Position, d: Direction, part: string, dict: Dictionary, cross: seq<seq<char>>) returns (moves: seq<Move>)
      requires Valid() && OnBoard(a) && |cross| == 225
      ensures moves == DistMoves(Emitter(dict, cells, cross), a, d, part, |part|)
    {
      moves := [];
      var dist := 1 - |part|;
      while dist < 1
        invariant 1 - |part| <= dist <= 1 && Valid()
        invariant moves == DistMoves(Emitter(dict, cells, cross), a, d, part, dist - 1 + |part|)
      {
        var ms := PlaceOnCopy(a, d, part, dist, dict, cross);
        moves := moves + ms;
        dist := dist + 1;
      }
    }

    /** One turn of the `dist` loop: `add` finds the square, and `place` on a
        copy of the board offers a move or nothing. */
    method PlaceOnCopy(a: Position, d: Direction, part: string, dist: int, dict: Dictionary, cross: seq<seq<char>>)
        returns (ms: seq<Move>)
      requires Valid() && OnBoard(a) && |cross| == 225 && dist <= 0
      ensures ms == Emitter(dict, cells, cross)(a, d, part, dist)
    {
      ms := [];
      var pos := Add(a, dist, d);
      if pos.Some? {
        var copy := Clone();
        var r := copy.Place(pos.value, d, part, dict, cross);
        if r.Some? {
          ms := [r.value];
        }
      }
    }

    /** `Board::place`: try laying `part` from `p` along `d`; the move, if the
        resulting line through `p` is a dictionary word. */
    method Place(p: Position, d: Direction, part: string, dict: Dictionary, cross: seq<seq<char>>)
        returns (r: Option<Move>)
      requires Valid() && OnBoard(p) && |cross| == 225
      modifies this, state
      ensures Valid() && state == old(state)
      ensures r == PlaceSpec(dict, old(cells), p, d, part, cross)
      ensures r.Some? ==> cells == Fill(old(cells), p, d, part, 0, cross).value.board
    {
      if IsLetter(p) {
        return None;
      }
      var before := ReadBefore(p, d);
      var ok, letters, stop := FillPart(p, d, part, cross);
      if !ok {
        return None;
      }
      var after := ReadFrom(stop, d);
      var word := before + letters + after;
      if !CheckWord(dict, word) {
        return None;
      }
      return Some(MoveWith(word, p, d));
    }

    /** `Board::play_word`: write `word` from `p` along `dir`. Unless `force`,
        stop (answering false) at the first square that already holds a
        letter; also answer false as soon as a written square has no
        successor, which includes writing the last letter on row or column 14. */
    method PlayWord(p: Position, word: string, dir: Direction, force: bool) returns (ok: bool)
      requires Valid() && OnBoard(p)
      modifies this, state
      ensures Valid() && state == old(state)
      ensures cells == Played(old(cells), p, word, dir, force)
      ensures ok <==> PlayedAll(old(cells), p, word, dir, force)
    {
      ghost var g := cells;
      var current := p;
      for i := 0 to |word|
        invariant Valid() && state == old(state)
        invariant Coord(p, dir) + i < Size && current == Shift(p, dir, i)
        invariant Fit(g, p, dir, i, force) == i
        invariant cells == Paint(g, p, dir, word, i)
      {
        PaintBeyond(g, p, dir, word, i);
        if force {
          Set(current, word[i]);
        } else {
          if AtPosition(current) in Markers {
            Set(current, word[i]);
          } else {
            PlayedBlocked(g, p, word, dir, force, i);
            return false;
          }
        }
        FitStep(g, p, dir, i, force);
        var ticked;
        ticked, current := Tick(current, dir);
        if !ticked {
          PlayedEdge(g, p, word, dir, force, i);
          return false;
        }
      }
      PlayedDone(g, p, word, dir, force);
      return true;
    }

    /** `Board::place_move`: a forced `play_word` of the move. */
    method PlaceMove(m: Move) returns (ok: bool)
      requires Valid() && OnBoard(m.position)
      modifies this, state
      ensures Valid() && state == old(state)
      ensures cells == Paint(old(cells), m.position, m.direction, m.word, TileCount(m))
      ensures ok <==> |m.word| < Size - Coord(m.position, m.direction)
    {
      ok := PlayWord(m.position, m.word, m.direction, true);
      FitForced(old(cells), m.position, m.direction, Min(|m.word|, Size - Coord(m.position, m.direction)));
      if |m.word| < Size - Coord(m.position, m.direction) {
        FitForced(old(cells), m.position, m.direction, |m.word|);
      }
    }
  }

  /** After `place_move` every (square, letter) pair `IterMove` yields for the
      move is on the board, and every other square is as before. */
  lemma {:induction false} PlaceMoveWritesTiles(g: Squares, m: Move)
    requires OnBoard(m.position)
    ensures var h := Paint(g, m.position, m.direction, m.word, TileCount(m));
      (forall t :: t in MoveTiles(m) ==> OnBoard(t.0) && Cell(h, t.0) == t.1) &&
      (forall q :: OnBoard(q) && !OnRay(q, m.position, m.direction, TileCount(m)) ==> Cell(h, q) == Cell(g, q))
  {
    var h := Paint(g, m.position, m.direction, m.word, TileCount(m));
    MoveTilesOnBoard(m);
    PaintSpec(g, m.position, m.direction, m.word, TileCount(m));
    forall t | t in MoveTiles(m)
      ensures OnBoard(t.0) && Cell(h, t.0) == t.1
    {
      var i :| 0 <= i < |MoveTiles(m)| && MoveTiles(m)[i] == t;
      assert Cell(h, Shift(m.position, m.direction, i)) == m.word[i];
    }
  }
}
