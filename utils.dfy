/** Grid geometry, letter-set conversions, vector helpers and the Move value
    shared by the board, the lexicon and the tile bag (src/utils.rs). */
module Utils {

  datatype Option<T> = None | Some(value: T)

  /** The 27 tile symbols in the engine's order: A to Z, then the blank `?`. */
  const Alph: string := "ABCDEFGHIJKLMNOPQRSTUVWXYZ?"

  /** Side length of the square board. */
  const Size: nat := 15

  /** Alph[i] is the i-th capital letter for i < 26 and the blank at 26. */
  lemma AlphCodes()
    ensures |Alph| == 27 && Alph[26] == '?'
    ensures forall i :: 0 <= i < 26 ==> Alph[i] as int == 'A' as int + i
  {
  }

  predicate IsCapital(c: char) {
    'A' <= c <= 'Z'
  }

  /** Position of a capital letter in Alph. */
  function LetterIndex(c: char): (i: nat)
    requires IsCapital(c)
    ensures i < 26 && Alph[i] == c
  {
    AlphCodes();
    c as int - 'A' as int
  }

  // ---------------------------------------------------------------- Direction

  datatype Direction = Across | Down

  /** The two directions in the order `Direction::iter` yields them. */
  const Directions: seq<Direction> := [Across, Down]

  function Flip(d: Direction): (r: Direction)
    ensures r != d
  {
    match d
    case Across => Down
    case Down => Across
  }

  lemma {:induction false} FlipInvolution(d: Direction)
    ensures Flip(Flip(d)) == d && Flip(d) != d
  {
    match d
    case Across =>
    case Down =>
  }

  /** `Direction::to_int`: Across is 1, Down is 0. */
  function DirectionToInt(d: Direction): (r: nat)
    ensures r < 2
    ensures r == 1 <==> d == Across
  {
    match d
    case Across => 1
    case Down => 0
  }

  lemma DirectionToIntFlip(d: Direction)
    ensures DirectionToInt(Flip(d)) == 1 - DirectionToInt(d)
    ensures forall e :: DirectionToInt(e) == DirectionToInt(d) ==> e == d
  {
  }

  // ----------------------------------------------------------------- Position

  /** A square; `row` and `col` are `usize` in the source and are not bounded by the type. */
  datatype Position = Position(row: nat, col: nat)

  predicate OnBoard(p: Position) {
    p.row < Size && p.col < Size
  }

  /** The coordinate that moving along `d` changes. */
  function Coord(p: Position, d: Direction): nat {
    if d == Across then p.col else p.row
  }

  /** `p` moved `k` squares along `d` (backwards when k < 0). */
  function Shift(p: Position, d: Direction, k: int): (q: Position)
    requires Coord(p, d) + k >= 0
    ensures Coord(q, d) == Coord(p, d) + k
    ensures Coord(q, Flip(d)) == Coord(p, Flip(d))
  {
    if d == Across then Position(p.row, p.col + k) else Position(p.row + k, p.col)
  }

  /** The square after `p` along `d`, if any: what a successful `tick` reaches. */
  function Next(p: Position, d: Direction): Option<Position> {
    if Coord(p, d) < Size - 1 then Some(Shift(p, d, 1)) else None
  }

  /** The square before `p` along `d`, if any: what a successful `tick_opp` reaches. */
  function Prev(p: Position, d: Direction): Option<Position> {
    if 0 < Coord(p, d) then Some(Shift(p, d, -1)) else None
  }

  /** Stepping forward then back, or back then forward, returns to the start. */
  lemma StepRoundTrip(p: Position, d: Direction)
    ensures Next(p, d).Some? ==> Prev(Next(p, d).value, d) == Some(p)
    ensures Prev(p, d).Some? && Coord(p, d) < Size ==> Next(Prev(p, d).value, d) == Some(p)
  {
  }

  /** `Position::tick`: advance one square along `d`, failing at coordinate 14. */
  method Tick(p: Position, d: Direction) returns (ok: bool, q: Position)
    ensures ok <==> Coord(p, d) < 14
    ensures ok ==> Coord(q, d) == Coord(p, d) + 1 && Coord(q, Flip(d)) == Coord(p, Flip(d))
    ensures !ok ==> q == p
    ensures ok ==> Next(p, d) == Some(q)
  {
    q := p;
    match d {
      case Across =>
        if p.col < 14 {
          q := q.(col := p.col + 1);
        } else {
          return false, q;
        }
      case Down =>
        if p.row < 14 {
          q := q.(row := p.row + 1);
        } else {
          return false, q;
        }
    }
    ok := true;
  }

  /** `Position::tick_opp`: step back one square along `d`, failing at coordinate 0. */
  method TickOpp(p: Position, d: Direction) returns (ok: bool, q: Position)
    ensures ok <==> 0 < Coord(p, d)
    ensures ok ==> Coord(q, d) + 1 == Coord(p, d) && Coord(q, Flip(d)) == Coord(p, Flip(d))
    ensures !ok ==> q == p
    ensures ok ==> Prev(p, d) == Some(q)
  {
    q := p;
    match d {
      case Across =>
        if 0 < p.col {
          q := q.(col := p.col - 1);
        } else {
          return false, q;
        }
      case Down =>
        if 0 < p.row {
          q := q.(row := p.row - 1);
        } else {
          return false, q;
        }
    }
    ok := true;
  }

  /** `Position::tick_n`: `n` ticks on a copy of `p`; `None` as soon as one fails. */
  method TickN(p: Position, d: Direction, n: nat) returns (r: Option<Position>)
    ensures r.Some? <==> n == 0 || Coord(p, d) + n <= 14
    ensures r.Some? ==> r.value == Shift(p, d, n)
  {
    var q := p;
    for i := 0 to n
      invariant q == Shift(p, d, i)
      invariant i == 0 || Coord(p, d) + i <= 14
    {
      var ok;
      ok, q := Tick(q, d);
      if !ok {
        return None;
      }
    }
    return Some(q);
  }

  /** `Position::add` (kept in the source only as a comment): `n` ticks forward,
      or `-n` ticks backward when `n` is negative. */
  method Add(p: Position, n: int, d: Direction) returns (r: Option<Position>)
    ensures n < 0 ==> (r.Some? <==> Coord(p, d) + n >= 0)
    ensures n >= 0 ==> (r.Some? <==> n == 0 || Coord(p, d) + n <= 14)
    ensures r.Some? ==> Coord(p, d) + n >= 0 && r.value == Shift(p, d, n)
  {
    var q := p;
    if n < 0 {
      for i := 0 to -n
        invariant i <= Coord(p, d)
        invariant q == Shift(p, d, -i)
      {
        var ok;
        ok, q := TickOpp(q, d);
        if !ok {
          return None;
        }
      }
    } else {
      for i := 0 to n
        invariant q == Shift(p, d, i)
        invariant i == 0 || Coord(p, d) + i <= 14
      {
        var ok;
        ok, q := Tick(q, d);
        if !ok {
          return None;
        }
      }
    }
    return Some(q);
  }

  /** Orthogonal adjacency of two squares. */
  predicate Adjacent(p: Position, q: Position) {
    (p.row == q.row && (p.col == q.col + 1 || q.col == p.col + 1)) ||
    (p.col == q.col && (p.row == q.row + 1 || q.row == p.row + 1))
  }

  predicate IsCorner(p: Position) {
    (p.row == 0 || p.row == 14) && (p.col == 0 || p.col == 14)
  }

  predicate IsInterior(p: Position) {
    0 < p.row < 14 && 0 < p.col < 14
  }

  /** Where a neighbour of `p` comes in the order `neighbors` pushes them:
      right, below, left, above. */
  function NeighbourRank(p: Position, q: Position): nat {
    if q.row == p.row && q.col == p.col + 1 then 0
    else if q.col == p.col && q.row == p.row + 1 then 1
    else if q.row == p.row && q.col + 1 == p.col then 2
    else 3
  }

  /** `Position::neighbors`: right, below, left, above, each only when on the board. */
  method Neighbors(p: Position) returns (r: seq<Position>)
    requires OnBoard(p)
    ensures forall q :: q in r <==> OnBoard(q) && Adjacent(p, q)
    ensures forall i, j :: 0 <= i < j < |r| ==> r[i] != r[j]
    ensures |r| == 2 <==> IsCorner(p)
    ensures |r| == 3 <==> !IsCorner(p) && !IsInterior(p)
    ensures |r| == 4 <==> IsInterior(p)
    ensures forall i, j :: 0 <= i < j < |r| ==> NeighbourRank(p, r[i]) < NeighbourRank(p, r[j])
  {
    r := [];
    if p.col < 14 {
      r := r + [Position(p.row, p.col + 1)];
    }
    if p.row < 14 {
      r := r + [Position(p.row + 1, p.col)];
    }
    if p.col > 0 {
      r := r + [Position(p.row, p.col - 1)];
    }
    if p.row > 0 {
      r := r + [Position(p.row - 1, p.col)];
    }
  }

  /** `Position::to_int`: the row-major index of a square. */
  function ToInt(p: Position): (k: nat)
    ensures OnBoard(p) ==> k < Size * Size
  {
    p.row * 15 + p.col
  }

  lemma ToIntInjective(p: Position, q: Position)
    requires OnBoard(p) && OnBoard(q) && ToInt(p) == ToInt(q)
    ensures p == q
  {
  }

  /** `positions()`: all 225 squares, row by row. */
  function Positions(): (r: seq<Position>)
    ensures |r| == Size * Size
    ensures forall k :: 0 <= k < |r| ==> OnBoard(r[k]) && ToInt(r[k]) == k
  {
    seq(225, k requires 0 <= k < 225 => Position(k / 15, k % 15))
  }

  /** Every square occurs in `positions()`, at its own index. */
  lemma PositionsComplete(p: Position)
    requires OnBoard(p)
    ensures Positions()[ToInt(p)] == p
  {
    ToIntInjective(Positions()[ToInt(p)], p);
  }

  // ------------------------------------------------------- coordinate strings

  function DigitChar(d: nat): char
    requires d < 10
  {
    ('0' as int + d) as char
  }

  /** Decimal text of a number, as Rust's `to_string` writes it. */
  function Decimal(n: nat): (s: string)
    ensures |s| > 0
    decreases n
  {
    if n < 10 then [DigitChar(n)] else Decimal(n / 10) + [DigitChar(n % 10)]
  }

  predicate IsDigit(c: char) {
    '0' <= c <= '9'
  }

  /** The value of a string of decimal digits. */
  function ParseDecimal(s: string): nat
    requires forall i :: 0 <= i < |s| ==> IsDigit(s[i])
  {
    if s == [] then 0
    else
      var last := s[|s| - 1];
      assert IsDigit(last);
      ParseDecimal(s[..|s| - 1]) * 10 + (last as int - '0' as int)
  }

  lemma {:induction false} DecimalRoundTrip(n: nat)
    ensures forall i :: 0 <= i < |Decimal(n)| ==> IsDigit(Decimal(n)[i])
    ensures ParseDecimal(Decimal(n)) == n
    decreases n
  {
    if n >= 10 {
      DecimalRoundTrip(n / 10);
      var s := Decimal(n);
      assert s[..|s| - 1] == Decimal(n / 10);
    }
  }

  /** `Position::to_str`: "8H" (row number, column letter) across, "H8" down.
      The column letter is looked up in Alph, which panics past its 27 symbols. */
  function PositionText(p: Position, d: Direction): (r: string)
    requires p.col < |Alph|
    ensures |r| >= 2
    ensures d == Across ==> r[|r| - 1] == Alph[p.col] && r[..|r| - 1] == Decimal(p.row + 1)
    ensures d == Down ==> r[0] == Alph[p.col] && r[1..] == Decimal(p.row + 1)
  {
    match d
    case Across => Decimal(p.row + 1) + [Alph[p.col]]
    case Down => [Alph[p.col]] + Decimal(p.row + 1)
  }

  /** Reads a coordinate back: the reference the text above is checked against. */
  function ParsePositionText(s: string, d: Direction): Option<Position> {
    if |s| < 2 then None
    else
      var letter := if d == Across then s[|s| - 1] else s[0];
      var digits := if d == Across then s[..|s| - 1] else s[1..];
      if !IsCapital(letter) || !(forall i :: 0 <= i < |digits| ==> IsDigit(digits[i])) then None
      else
        var row := ParseDecimal(digits);
        if row == 0 then None else Some(Position(row - 1, LetterIndex(letter)))
  }

  /** The coordinate text of a square identifies the square. */
  lemma PositionTextRoundTrip(p: Position, d: Direction)
    requires OnBoard(p)
    ensures ParsePositionText(PositionText(p, d), d) == Some(p)
  {
    AlphCodes();
    DecimalRoundTrip(p.row + 1);
    var s := PositionText(p, d);
    match d {
      case Across =>
        assert s[..|s| - 1] == Decimal(p.row + 1);
      case Down =>
        assert s[1..] == Decimal(p.row + 1);
    }
  }

  // ------------------------------------------------ letter sets and counting

  /** `chars`: the letters of Alph whose flag is set, in alphabet order
      (zipping 27 symbols with 26 flags drops the blank). */
  function Chars(flags: seq<bool>): (r: seq<char>)
    requires |flags| == 26
    ensures forall c :: c in r <==> IsCapital(c) && flags[LetterIndex(c)]
    ensures forall a, b :: 0 <= a < b < |r| ==> r[a] < r[b]
  {
    CharsFrom(flags, 0)
  }

  function CharsFrom(flags: seq<bool>, i: nat): (r: seq<char>)
    requires |flags| == 26 && i <= 26
    ensures forall c :: c in r <==> IsCapital(c) && i <= LetterIndex(c) && flags[LetterIndex(c)]
    ensures forall a, b :: 0 <= a < b < |r| ==> r[a] < r[b]
    ensures forall a :: 0 <= a < |r| ==> Alph[i] <= r[a]
    decreases 26 - i
  {
    AlphCodes();
    if i == 26 then []
    else
      var rest := CharsFrom(flags, i + 1);
      assert LetterIndex(Alph[i]) == i;
      if flags[i] then [Alph[i]] + rest else rest
  }

  /** `ItemCountable::count`: occurrences of `x` in `s`. */
  function Count<T(==)>(s: seq<T>, x: T): (n: nat)
    ensures n == multiset(s)[x]
  {
    if s == [] then 0
    else
      assert s == [s[0]] + s[1..];
      (if s[0] == x then 1 else 0) + Count(s[1..], x)
  }

  /** `to_word`: the 27-entry count vector of a rack, indexed like Alph. */
  function ToWord(rack: seq<char>): (v: seq<nat>)
    ensures |v| == |Alph|
    ensures forall i :: 0 <= i < |Alph| ==> v[i] == multiset(rack)[Alph[i]]
  {
    seq(27, i requires 0 <= i < 27 => Count(rack, Alph[i]))
  }

  predicate OverAlph(s: seq<char>) {
    forall i :: 0 <= i < |s| ==> s[i] in Alph
  }

  /** For racks made of tile symbols, equal count vectors mean the same tiles. */
  lemma ToWordFaithful(a: seq<char>, b: seq<char>)
    requires OverAlph(a) && OverAlph(b)
    ensures ToWord(a) == ToWord(b) <==> multiset(a) == multiset(b)
  {
    if ToWord(a) == ToWord(b) {
      forall c
        ensures multiset(a)[c] == multiset(b)[c]
      {
        if c in Alph {
          var i :| 0 <= i < |Alph| && Alph[i] == c;
          assert ToWord(a)[i] == ToWord(b)[i];
        } else {
          assert c !in multiset(a) && c !in multiset(b);
        }
      }
    }
  }

  // ------------------------------------------------------- vector removal

  /** The index `Iterator::position` finds: the first occurrence of `x`. */
  function IndexOf<T(==)>(s: seq<T>, x: T): (k: nat)
    requires x in s
    ensures k < |s| && s[k] == x && x !in s[..k]
  {
    if s[0] == x then 0
    else
      var k := IndexOf(s[1..], x);
      assert s[..k + 1] == [s[0]] + s[1..][..k];
      k + 1
  }

  /** `ItemRemovable::_remove_item`: drop the first occurrence of `x`; the source
      unwraps the search, so `x` must be present. */
  function RemoveItem<T(==)>(s: seq<T>, x: T): (r: seq<T>)
    requires x in s
    ensures |r| == |s| - 1
    ensures multiset(r) == multiset(s) - multiset{x}
  {
    var k := IndexOf(s, x);
    assert s == s[..k] + [x] + s[k + 1..];
    s[..k] + s[k + 1..]
  }

  /** Removing the item at the front leaves the tail, in order. */
  lemma RemoveItemAtFront<T>(s: seq<T>)
    requires |s| > 0
    ensures RemoveItem(s, s[0]) == s[1..]
  {
  }

  /** A sequence in reverse order (`Vec::reverse`). */
  function Reverse<T>(s: seq<T>): (r: seq<T>)
    ensures |r| == |s|
    ensures forall i :: 0 <= i < |s| ==> r[i] == s[|s| - 1 - i]
  {
    if s == [] then [] else Reverse(s[1..]) + [s[0]]
  }

  /** The number of bytes `c` takes in UTF-8. */
  function Utf8Width(c: char): (w: nat)
    ensures 1 <= w <= 4
    ensures w == 1 <==> c as int < 0x80
  {
    if c as int < 0x80 then 1 else if c as int < 0x800 then 2 else if c as int < 0x1_0000 then 3 else 4
  }

  /** `String::len`: the length of `s` in UTF-8 bytes, not in characters. */
  function ByteLength(s: string): (n: nat)
    ensures |s| <= n <= 4 * |s|
    ensures n > 1 <==> |s| > 1 || (|s| == 1 && s[0] as int >= 0x80)
  {
    if s == [] then 0 else Utf8Width(s[0]) + ByteLength(s[1..])
  }

  /** On one-byte characters, such as the tile symbols, the byte length is the
      number of characters. */
  lemma {:induction false} ByteLengthAscii(s: string)
    requires forall i :: 0 <= i < |s| ==> s[i] as int < 0x80
    ensures ByteLength(s) == |s|
  {
    if s != [] {
      ByteLengthAscii(s[1..]);
    }
  }

  // --------------------------------------------------------------------- Move

  datatype MoveType = Play | Exch

  /** A candidate play. `score` is an i32 and `evaluation` an f32 in the source;
      neither is computed by the modelled code, which only carries them. */
  datatype Move = Move(word: string, position: Position, direction: Direction,
                       score: int, evaluation: real, typ: MoveType)

  /** `Move::none`. */
  function MoveNone(): Move {
    Move("", Position(0, 0), Down, 0, 0.0, Play)
  }

  /** `Move::with`: `Move::none` with the word, square and direction set. */
  function MoveWith(word: string, pos: Position, dir: Direction): (m: Move)
    ensures MoveEq(m, Move(word, pos, dir, 0, 0.0, Play))
    ensures m.score == 0 && m.evaluation == 0.0 && m.typ == Play
  {
    MoveNone().(word := word, position := pos, direction := dir)
  }

  /** `PartialEq for Move`: word, square and direction; score, evaluation and
      type are not compared. */
  predicate MoveEq(a: Move, b: Move)
    ensures MoveEq(a, b) <==>
      a.(score := 0, evaluation := 0.0, typ := Play) == b.(score := 0, evaluation := 0.0, typ := Play)
  {
    a.word == b.word && a.position == b.position && a.direction == b.direction
  }

  /** Move equality is an equivalence relation. */
  lemma MoveEqEquivalence(a: Move, b: Move, c: Move)
    ensures MoveEq(a, a)
    ensures MoveEq(a, b) ==> MoveEq(b, a)
    ensures MoveEq(a, b) && MoveEq(b, c) ==> MoveEq(a, c)
  {
  }

  /** `Move::complement`: the rack left after playing the move's word, one tile
      removed per word character (`_remove_item` unwraps, so each must be there). */
  method Complement(m: Move, rack: seq<char>) returns (r: seq<char>)
    requires multiset(m.word) <= multiset(rack)
    ensures |r| == |rack| - |m.word|
    ensures multiset(r) == multiset(rack) - multiset(m.word)
  {
    r := rack;
    for i := 0 to |m.word|
      invariant |r| == |rack| - i
      invariant multiset(r) == multiset(rack) - multiset(m.word[..i])
    {
      RemovalStep(m.word, rack, r, i);
      r := RemoveItem(r, m.word[i]);
    }
    assert m.word[..|m.word|] == m.word;
  }

  /** One step of Complement: the next word character is still in the rack. */
  lemma RemovalStep(word: seq<char>, rack: seq<char>, r: seq<char>, i: nat)
    requires multiset(word) <= multiset(rack) && i < |word|
    requires multiset(r) == multiset(rack) - multiset(word[..i])
    ensures word[i] in r
    ensures multiset(r) - multiset{word[i]} == multiset(rack) - multiset(word[..i + 1])
  {
    assert word == word[..i + 1] + word[i + 1..];
    assert word[..i + 1] == word[..i] + [word[i]];
    var c := word[i];
    assert multiset(word[..i + 1])[c] <= multiset(word)[c];
    assert multiset(r)[c] >= 1;
  }

  function Min(a: nat, b: nat): nat {
    if a < b then a else b
  }

  /** How many (square, letter) pairs `IterMove` yields for `m`: it stops at the
      end of the word or when `tick_n` runs off the board. */
  function TileCount(m: Move): nat {
    var c := Coord(m.position, m.direction);
    if c <= 14 then Min(|m.word|, 15 - c) else Min(|m.word|, 1)
  }

  /** The pairs `IterMove` yields: the i-th letter with the square i steps along. */
  function MoveTiles(m: Move): (t: seq<(Position, char)>)
    ensures |t| == TileCount(m) && |t| <= |m.word|
    ensures forall i :: 0 <= i < |t| ==> t[i].1 == m.word[i]
  {
    seq(TileCount(m), i requires 0 <= i < TileCount(m) =>
      (Shift(m.position, m.direction, i), m.word[i]))
  }

  /** On the board the walk stops at the word's end or at the edge. */
  lemma MoveTilesOnBoard(m: Move)
    requires OnBoard(m.position)
    ensures |MoveTiles(m)| == Min(|m.word|, Size - Coord(m.position, m.direction))
    ensures forall i :: 0 <= i < |MoveTiles(m)| ==> OnBoard(MoveTiles(m)[i].0)
  {
  }

  /** `IterMove`: a copy of a move and a cursor. */
  class IterMove {
    const m: Move
    var curr: nat

    ghost predicate Valid()
      reads this
    {
      curr <= |MoveTiles(m)|
    }

    /** `Move::iter`. */
    constructor (mv: Move)
      ensures m == mv && curr == 0 && Valid()
    {
      m := mv;
      curr := 0;
    }

    /** `Iterator::next`: the next pair, or `None` (and no progress) once done. */
    method Next() returns (r: Option<(Position, char)>)
      requires Valid()
      modifies this
      ensures Valid()
      ensures old(curr) < |MoveTiles(m)| ==> r == Some(MoveTiles(m)[old(curr)]) && curr == old(curr) + 1
      ensures old(curr) == |MoveTiles(m)| ==> r == None && curr == old(curr)
    {
      var at := TickN(m.position, m.direction, curr);
      match at {
        case Some(p) =>
          if curr < |m.word| {
            var c := m.word[curr];
            curr := curr + 1;
            r := Some((p, c));
          } else {
            r := None;
          }
        case None =>
          r := None;
      }
    }
  }
}
