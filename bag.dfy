/** The tile bag (src/bag.rs): the standard English distribution of 100 tiles,
    the point value of each symbol, and drawing tiles from the bag. */
module Bag {
  import opened Utils

  /** How many tiles of each symbol of Alph the full bag holds. */
  const Amts: seq<nat> := [9, 2, 2, 4, 12, 2, 3, 2, 9, 1, 1, 4, 2, 6, 8, 2, 1, 6, 4, 6, 4, 2, 2, 1, 2, 1, 2]

  /** The point value of each symbol of Alph; the blank scores nothing. */
  const Values: seq<int> := [1, 3, 3, 2, 1, 4, 2, 4, 1, 8, 5, 1, 3, 1, 1, 3, 10, 1, 1, 1, 1, 4, 4, 8, 4, 10, 0]

  /** One count and one value per symbol of Alph. */
  lemma TableSizes()
    ensures |Alph| == |Amts| == |Values| == 27
  {
    AlphCodes();
  }

  /** The 27 symbols of Alph are pairwise different. */
  lemma AlphDistinct(a: nat, b: nat)
    requires a < 27 && b < 27 && a != b
    ensures Alph[a] != Alph[b]
  {
    AlphCodes();
  }

  /** No symbol occurs twice in `syms`. */
  predicate Distinct(syms: seq<char>) {
    forall a, b :: 0 <= a < b < |syms| ==> syms[a] != syms[b]
  }

  lemma AlphIsDistinct()
    ensures Distinct(Alph)
  {
    forall a, b | 0 <= a < b < |Alph|
      ensures Alph[a] != Alph[b]
    {
      AlphDistinct(a, b);
    }
  }

  /** `n` copies of `c`, pushed one at a time. */
  function Repeat(c: char, n: nat): (r: seq<char>)
    ensures |r| == n
    ensures multiset(r) == multiset{}[c := n]
  {
    if n == 0 then [] else Repeat(c, n - 1) + [c]
  }

  /** The tiles of the first `i` symbols of `syms`, symbol `syms[j]` repeated
      `amts[j]` times, in symbol order: what the filling loop of
      `Bag::default` has pushed after `i` symbols. */
  function Spread(syms: seq<char>, amts: seq<nat>, i: nat): seq<char>
    requires |syms| == |amts| && i <= |syms|
  {
    if i == 0 then [] else Spread(syms, amts, i - 1) + Repeat(syms[i - 1], amts[i - 1])
  }

  /** The sum of the first `i` counts. */
  function Total(amts: seq<nat>, i: nat): nat
    requires i <= |amts|
  {
    if i == 0 then 0 else Total(amts, i - 1) + amts[i - 1]
  }

  lemma {:induction false} SpreadSize(syms: seq<char>, amts: seq<nat>, i: nat)
    requires |syms| == |amts| && i <= |syms|
    ensures |Spread(syms, amts, i)| == Total(amts, i)
  {
    if i > 0 {
      SpreadSize(syms, amts, i - 1);
    }
  }

  /** The sum of the counts of the first `i` symbols that equal `c`. */
  function Tally(syms: seq<char>, amts: seq<nat>, i: nat, c: char): nat
    requires |syms| == |amts| && i <= |syms|
  {
    if i == 0 then 0 else Tally(syms, amts, i - 1, c) + if syms[i - 1] == c then amts[i - 1] else 0
  }

  /** The tiles of one more symbol add its copies to the bag. */
  lemma SpreadStep(syms: seq<char>, amts: seq<nat>, i: nat, c: char)
    requires |syms| == |amts| && 0 < i <= |syms|
    ensures multiset(Spread(syms, amts, i))[c] ==
      multiset(Spread(syms, amts, i - 1))[c] + if c == syms[i - 1] then amts[i - 1] else 0
  {
    assert multiset(Spread(syms, amts, i)) == multiset(Spread(syms, amts, i - 1)) + multiset(Repeat(syms[i - 1], amts[i - 1]));
  }

  /** Among the tiles of the first `i` symbols, `c` occurs as often as the
      counts of those symbols equal to `c` add up to. */
  lemma {:induction false} SpreadTally(syms: seq<char>, amts: seq<nat>, i: nat, c: char)
    requires |syms| == |amts| && i <= |syms|
    ensures multiset(Spread(syms, amts, i))[c] == Tally(syms, amts, i, c)
  {
    if i > 0 {
      SpreadStep(syms, amts, i, c);
      SpreadTally(syms, amts, i - 1, c);
    }
  }

  /** A symbol not among the first `i` has no tile among their tiles. */
  lemma {:induction false} TallyAbsent(syms: seq<char>, amts: seq<nat>, i: nat, c: char)
    requires |syms| == |amts| && i <= |syms|
    requires forall j :: 0 <= j < i ==> syms[j] != c
    ensures Tally(syms, amts, i, c) == 0
  {
    if i > 0 {
      assert syms[i - 1] != c;
      TallyAbsent(syms, amts, i - 1, c);
    }
  }

  /** Among the first `i` symbols, all different, symbol `syms[j]` has
      exactly `amts[j]` tiles. */
  lemma {:induction false} TallyHas(syms: seq<char>, amts: seq<nat>, i: nat, j: nat)
    requires |syms| == |amts| && j < i <= |syms| && Distinct(syms)
    ensures Tally(syms, amts, i, syms[j]) == amts[j]
  {
    if j == i - 1 {
      forall k | 0 <= k < i - 1
        ensures syms[k] != syms[j]
      {
        assert k < j;
      }
      TallyAbsent(syms, amts, i - 1, syms[j]);
    } else {
      assert syms[j] != syms[i - 1];
      TallyHas(syms, amts, i - 1, j);
    }
  }

  /** The counts of `Bag::default` add up to 100 tiles. */
  lemma TotalAmtsLower()
    ensures Total(Amts, 9) == 45
  {
    assert Total(Amts, 1) == 9;
    assert Total(Amts, 2) == 11;
    assert Total(Amts, 3) == 13;
    assert Total(Amts, 4) == 17;
    assert Total(Amts, 5) == 29;
    assert Total(Amts, 6) == 31;
    assert Total(Amts, 7) == 34;
    assert Total(Amts, 8) == 36;
  }

  lemma TotalAmtsMiddle()
    ensures Total(Amts, 18) == 76
  {
    TotalAmtsLower();
    assert Total(Amts, 10) == 46;
    assert Total(Amts, 11) == 47;
    assert Total(Amts, 12) == 51;
    assert Total(Amts, 13) == 53;
    assert Total(Amts, 14) == 59;
    assert Total(Amts, 15) == 67;
    assert Total(Amts, 16) == 69;
    assert Total(Amts, 17) == 70;
  }

  /** The counts of `Bag::default` add up to 100 tiles. */
  lemma TotalAmts()
    ensures Total(Amts, 27) == 100
  {
    TotalAmtsMiddle();
    assert Total(Amts, 19) == 80;
    assert Total(Amts, 20) == 86;
    assert Total(Amts, 21) == 90;
    assert Total(Amts, 22) == 92;
    assert Total(Amts, 23) == 94;
    assert Total(Amts, 24) == 95;
    assert Total(Amts, 25) == 97;
    assert Total(Amts, 26) == 98;
  }

  /** Any order of the tiles of all symbols of `syms` holds `Total(amts)`
      tiles: `amts[j]` of symbol `syms[j]` and no other tile. */
  lemma ShuffledCounts(syms: seq<char>, amts: seq<nat>, s: seq<char>)
    requires |syms| == |amts| && Distinct(syms)
    requires multiset(s) == multiset(Spread(syms, amts, |syms|))
    ensures |s| == Total(amts, |syms|)
    ensures forall j :: 0 <= j < |syms| ==> multiset(s)[syms[j]] == amts[j]
    ensures forall c :: c !in syms ==> multiset(s)[c] == 0
  {
    SpreadSize(syms, amts, |syms|);
    assert |s| == |multiset(s)| == |multiset(Spread(syms, amts, |syms|))|;
    forall j | 0 <= j < |syms|
      ensures multiset(s)[syms[j]] == amts[j]
    {
      SpreadTally(syms, amts, |syms|, syms[j]);
      TallyHas(syms, amts, |syms|, j);
    }
    forall c | c !in syms
      ensures multiset(s)[c] == 0
    {
      SpreadTally(syms, amts, |syms|, c);
      TallyAbsent(syms, amts, |syms|, c);
    }
  }

  /** Any order of the full bag, as the shuffle leaves it, holds 100 tiles;
      with `ShuffledCounts` and `AlphIsDistinct`, `Amts[j]` of symbol
      `Alph[j]` and no other tile. */
  lemma ShuffledFullBag(s: seq<char>)
    requires multiset(s) == multiset(Spread(Alph, Amts, |Alph|))
    ensures |s| == 100
  {
    TableSizes();
    SpreadSize(Alph, Amts, |Alph|);
    assert |s| == |multiset(s)| == |multiset(Spread(Alph, Amts, |Alph|))|;
    TotalAmts();
  }

  /** The score table after the first `i` inserts of `Bag::default`. */
  function ScoresUpTo(syms: seq<char>, vals: seq<int>, i: nat): map<char, int>
    requires |syms| == |vals| && i <= |syms|
  {
    if i == 0 then map[] else ScoresUpTo(syms, vals, i - 1)[syms[i - 1] := vals[i - 1]]
  }

  /** The score table of every bag. */
  function ScoreTable(): map<char, int> {
    TableSizes();
    ScoresUpTo(Alph, Values, |Alph|)
  }

  lemma {:induction false} ScoresUpToMeans(syms: seq<char>, vals: seq<int>, i: nat, c: char)
    requires |syms| == |vals| && i <= |syms| && Distinct(syms)
    ensures c in ScoresUpTo(syms, vals, i) <==> c in syms[..i]
    ensures forall j :: 0 <= j < i && syms[j] == c ==> ScoresUpTo(syms, vals, i)[c] == vals[j]
  {
    if i > 0 {
      ScoresUpToMeans(syms, vals, i - 1, c);
      assert syms[..i] == syms[..i - 1] + [syms[i - 1]];
    }
  }

  /** The score table maps each symbol of Alph to its value and holds no
      other key. */
  lemma ScoreTableMeans(c: char)
    ensures c in ScoreTable() <==> c in Alph
    ensures forall j :: 0 <= j < 27 && Alph[j] == c ==> ScoreTable()[c] == Values[j]
  {
    TableSizes();
    AlphIsDistinct();
    ScoresUpToMeans(Alph, Values, |Alph|, c);
    assert Alph[..27] == Alph;
  }

  /** Removing the next tile of a bag drawn in order from the front leaves
      the following suffix. */
  lemma RemoveFrontOf(bag: seq<char>, i: nat)
    requires i < |bag|
    ensures bag[i] in bag[i..]
    ensures RemoveItem(bag[i..], bag[i]) == bag[i + 1..]
  {
    RemoveItemAtFront(bag[i..]);
    assert bag[i..][1..] == bag[i + 1..];
  }

  /** One turn of the removal loop keeps both of its invariants. */
  lemma RemoveNext(bag: seq<char>, tiles: seq<char>, rest: seq<char>, i: nat, prefix: bool)
    requires multiset(tiles) <= multiset(bag) && i < |tiles|
    requires multiset(rest) == multiset(bag) - multiset(tiles[..i])
    requires prefix ==> |tiles| <= |bag| && tiles == bag[..|tiles|] && rest == bag[i..]
    ensures tiles[i] in rest
    ensures multiset(RemoveItem(rest, tiles[i])) == multiset(bag) - multiset(tiles[..i + 1])
    ensures prefix ==> RemoveItem(rest, tiles[i]) == bag[i + 1..]
  {
    RemovalStep(tiles, bag, rest, i);
    if prefix {
      assert tiles[i] == bag[i];
      RemoveFrontOf(bag, i);
    }
  }

  class Bag {
    var scores: map<char, int>
    var distribution: seq<char>
    var random: bool

    predicate Valid()
      reads this
    {
      scores == ScoreTable()
    }

    /** `Bag::default`: the full distribution, in an order the shuffle
        chooses, and random draws. */
    constructor Default()
      ensures Valid() && random
      ensures multiset(distribution) == multiset(Spread(Alph, Amts, |Alph|))
      ensures |distribution| == 100
    {
      var table := BuildScores();
      scores := table;
      var tiles := BuildDistribution();
      var shuffled :| multiset(shuffled) == multiset(tiles);
      distribution := shuffled;
      random := true;
      new;
      ShuffledFullBag(distribution);
    }

    /** `Bag::with`: a bag that hands out the tiles of `order` front first. */
    constructor With(order: seq<char>)
      ensures Valid() && distribution == order && !random
    {
      var table := BuildScores();
      scores := table;
      distribution := order;
      random := false;
    }

    /** The insert loop of `Bag::default`. */
    static method BuildScores() returns (scores: map<char, int>)
      ensures scores == ScoreTable()
    {
      scores := map[];
      for i := 0 to 27
        invariant scores == ScoresUpTo(Alph, Values, i)
      {
        scores := scores[Alph[i] := Values[i]];
      }
    }

    /** The filling loops of `Bag::default`, before the shuffle. */
    static method BuildDistribution() returns (tiles: seq<char>)
      ensures tiles == Spread(Alph, Amts, |Alph|)
    {
      tiles := [];
      for i := 0 to 27
        invariant tiles == Spread(Alph, Amts, i)
      {
        tiles := PushCopies(tiles, Alph[i], Amts[i]);
      }
    }

    /** The inner filling loop of `Bag::default`: `n` pushes of `c`. */
    static method PushCopies(front: seq<char>, c: char, n: nat) returns (tiles: seq<char>)
      ensures tiles == front + Repeat(c, n)
    {
      tiles := front;
      for k := 0 to n
        invariant tiles == front + Repeat(c, k)
      {
        tiles := tiles + [c];
      }
    }

    /** `score`: a symbol's point value, 0 for any char that is not a tile
        symbol. */
    function Score(c: char): (r: int)
      reads this
      requires Valid()
      ensures forall j :: 0 <= j < 27 && Alph[j] == c ==> r == Values[j]
      ensures c !in Alph ==> r == 0
    {
      ScoreTableMeans(c);
      if c in scores then scores[c] else 0
    }

    /** The removal loop of `draw_tiles`: one occurrence of each drawn tile
        leaves the bag, and drawing a prefix leaves the rest in order. */
    static method RemoveAll(bag: seq<char>, tiles: seq<char>) returns (rest: seq<char>)
      requires multiset(tiles) <= multiset(bag)
      ensures multiset(rest) == multiset(bag) - multiset(tiles)
      ensures |tiles| <= |bag| && tiles == bag[..|tiles|] ==> rest == bag[|tiles|..]
    {
      ghost var prefix := |tiles| <= |bag| && tiles == bag[..|tiles|];
      rest := bag;
      for i := 0 to |tiles|
        invariant multiset(rest) == multiset(bag) - multiset(tiles[..i])
        invariant prefix ==> rest == bag[i..]
      {
        RemoveNext(bag, tiles, rest, i, prefix);
        rest := RemoveItem(rest, tiles[i]);
      }
      assert tiles[..|tiles|] == tiles;
    }

    /** `draw_tiles`: on the fixed-order path the first `min(n, len)` tiles,
        in order; on the random path some `min(n, len)` tiles of the bag.
        Either way one occurrence of each drawn tile leaves the bag. */
    method DrawTiles(n: nat) returns (tiles: seq<char>)
      modifies this
      ensures scores == old(scores) && random == old(random)
      ensures |tiles| == Min(n, |old(distribution)|)
      ensures !random ==> tiles == old(distribution)[..|tiles|] && distribution == old(distribution)[|tiles|..]
      ensures multiset(tiles) <= multiset(old(distribution))
      ensures multiset(distribution) == multiset(old(distribution)) - multiset(tiles)
    {
      var k := Min(n, |distribution|);
      if random {
        assert multiset(distribution[..k]) <= multiset(distribution) by {
          assert distribution == distribution[..k] + distribution[k..];
        }
        tiles :| |tiles| == k && multiset(tiles) <= multiset(distribution);
      } else {
        tiles := distribution[..k];
        assert distribution == distribution[..k] + distribution[k..];
      }
      distribution := RemoveAll(distribution, tiles);
    }
  }
}
