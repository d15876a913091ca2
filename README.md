# A verified model of a Scrabble engine's core

This project models the core of a Scrabble move generator written in Rust:
- the board geometry (`src/utils.rs`);
- the 15×15 board and its move generation (`src/board.rs`);
- the word oracle, the rack-leave table and the forward letter graph (`src/dictionary.rs`);
- the tile bag (`src/bag.rs`).

Each part keeps the form it has in the Rust code:
- Pure helpers are Dafny functions.
- Loops are methods with invariants.
- Objects whose fields change in place are classes: `Board` (a 15×15 `array2<char>`), `Trie`, `Bag` and `IterMove`.

Every method is proved against a specification function over a snapshot of the state. Properties the Rust code promises are proved as lemmas about those functions.

Modules, one per source file:

- `Utils`: this module covers the following.
  - positions, directions, `tick`/`tick_opp`/`tick_n`, `neighbors` and `to_int`;
  - the coordinate text of a square;
  - rack count vectors (`to_word`), `chars`, `complement`;
  - move equality and the `IterMove` iterator.
- `Dictionary`: this module covers the following.
  - the two-letter-indexed word sets and `check_word`;
  - the leave table and `evaluate`;
  - the petgraph letter graph built by `Trie::default`;
  - `can_next`/`follow`, `seed`, `nseed`, `nrseed` and `nexts`.
- `Board`: this module covers the following.
  - `default`, `at_position`, `is_letter`, `set` and `play_word`/`place_move`;
  - `get_words`, `valid`, `valid_at` (cross-checks) and `anchors`;
  - `place` and `generate_all_moves`.
  - The board's contents are the ghost sequence `cells`, indexed by `to_int`.
  - `get_words` is proved to return exactly `Words(cells)`, a recursive sweep in the same order as the Rust loops. `WordsExact` shows that a word appears there iff it is a maximal run of letters, across or down, whose UTF-8 byte length exceeds 1. Rust's `word.len()` counts bytes, so a single non-ASCII letter written by `play_word` counts as a word. On boards of one-byte characters, such as the tiles A..Z, this is a run of two or more letters (`OneByteWordRun`).
  - Each move `generate_all_moves` returns comes from an anchor, a direction, a part and a shift of the part that `place` accepts, and every such combination yields one.
- `Bag`: `default`, `with`, `score` and `draw_tiles` on both the random and the fixed-order path.

The Rust code's behaviour is followed as written. Four consequences are worth knowing:

- `anchors` only lists empty squares next to a letter. The empty opening board therefore has no anchors, and `generate_all_moves` on it returns nothing (`DefaultGeneratesNothing`).
- `valid_at` asks `valid`, which checks every word on the whole board, not only the words through the tried square (`CrossCheckWords`).
- `play_word` returns `false` when the last letter lands on the board's last row or column, because the final `tick` fails. The letters are still written (`PlayedEdge`).
- `place` returns `None` whenever `tick` fails inside the part loop, so a part ending on the last square never yields a move (`PlaceMeaning` carries `Coord(p, d) + |letters| < Size`).

## Model

| member | source | states |
|---|---|---|
| Utils.LetterIndex | src/utils.rs:32 | a capital letter's index in the tile alphabet, below 26 and pointing back at the letter |
| Utils.Flip | src/utils.rs:60-65 | `flip` always gives the other direction |
| Utils.FlipInvolution | src/utils.rs:60-65 | flipping twice is the identity |
| Utils.DirectionToInt | src/utils.rs:67-72 | `to_int` is 0 or 1, and 1 exactly for Across |
| Utils.DirectionToIntFlip | src/utils.rs:60-72 | the codes of `d` and `flip(d)` are complementary, and the code determines the direction |
| Utils.StepRoundTrip | src/utils.rs:76-116 | a step forward followed by a step back, or the reverse, returns to the starting square |
| Utils.Tick | src/utils.rs:76-95 | `tick` succeeds iff the coordinate along `d` is below 14; then it moves one square along `d` and keeps the other coordinate, otherwise the position is unchanged |
| Utils.TickOpp | src/utils.rs:97-116 | `tick_opp` succeeds iff the coordinate along `d` is positive; then it moves one square back, otherwise the position is unchanged |
| Utils.TickN | src/utils.rs:178-186 | `tick_n` succeeds iff `n` is 0 or the target stays on the board, and then lands `n` squares along `d` |
| Utils.Add | src/utils.rs:118-131 | `add` moves backwards for negative `n` when that stays at or above 0, and forwards like `tick_n` otherwise, landing `n` squares along `d` |
| Utils.Neighbors | src/utils.rs:133-163 | `neighbors` lists exactly the on-board orthogonal neighbours, without repeats, in the order right, below, left, above: 2 for a corner, 3 for the rest of the edge and 4 for an interior square |
| Utils.ToInt | src/utils.rs:165-167 | `to_int` of an on-board square is below 225 |
| Utils.ToIntInjective | src/utils.rs:165-167 | distinct on-board squares have distinct indices |
| Utils.Positions | src/utils.rs:205-209 | `positions` lists the 225 squares in row-major order: the k-th has index k |
| Utils.PositionsComplete | src/utils.rs:205-209 | every on-board square is the entry of `positions` at its index |
| Utils.PositionText | src/utils.rs:169-176 | `to_str` is the row number then the column letter across, and the column letter then the row number down; its precondition, a column within the 27 symbols, stands for the `unwrap` that panics past them |
| Utils.DecimalRoundTrip | src/utils.rs:169-176 | the decimal row number in a square's text parses back to the number |
| Utils.PositionTextRoundTrip | src/utils.rs:169-176 | a square's coordinate text (column letter and row number, ordered by direction) identifies the square |
| Utils.Chars | src/utils.rs:189-195 | `chars` lists, in alphabetical order, exactly the capitals whose flag is set |
| Utils.Count | src/utils.rs:27-29 | `count` is the number of occurrences of the item |
| Utils.ToWord | src/utils.rs:197-201 | `to_word` has 27 entries, each the number of the rack's tiles equal to that symbol |
| Utils.ToWordFaithful | src/utils.rs:197-201 | for racks of tile symbols, equal count vectors mean the same multiset of tiles |
| Utils.IndexOf | src/utils.rs:17-19 | the index of the first occurrence of the item |
| Utils.RemoveItem | src/utils.rs:17-19 | `_remove_item` removes exactly one occurrence: one element shorter, with the multiset minus that item |
| Utils.RemoveItemAtFront | src/utils.rs:17-19 | removing the first element's value drops the first element |
| Utils.Reverse | src/dictionary.rs:165-166 | the reversed sequence: the i-th element is the i-th from the end |
| Utils.Utf8Width | src/board.rs:112 | a character takes 1 to 4 bytes in a Rust `String`, 1 exactly below 0x80 |
| Utils.ByteLength | src/board.rs:117 | `String::len` is at least the number of characters, and exceeds 1 iff there are two or more characters or one non-ASCII character |
| Utils.ByteLengthAscii | src/board.rs:117 | on one-byte characters `String::len` is the number of characters |
| Utils.MoveWith | src/utils.rs:277-284 | `Move::with` is equal to the given word, square and direction, with the `Move::none` score, evaluation and type |
| Utils.MoveEq | src/utils.rs:315-323 | two moves are equal iff they agree on word, square and direction |
| Utils.MoveEqEquivalence | src/utils.rs:315-323 | move equality is reflexive, symmetric and transitive |
| Utils.Complement | src/utils.rs:286-294 | `complement` removes one tile per letter of the move's word: the rack's multiset minus the word's |
| Utils.RemovalStep | src/utils.rs:286-294 | removing the next letter of the word keeps the rest equal to rack minus the word so far |
| Utils.MoveTiles | src/utils.rs:301-339 | the pairs `IterMove` yields: the i-th letter of the word with its square, stopping at the word's end or the board's edge |
| Utils.MoveTilesOnBoard | src/utils.rs:328-339 | for a move starting on the board every yielded square is on the board, and there are min(word length, squares left) of them |
| Utils.IterMove.constructor | src/utils.rs:307-312 | `iter` starts at the move's first letter |
| Utils.IterMove.Next | src/utils.rs:328-339 | `next` yields the next (square, letter) pair and advances, or `None` at the end without advancing |
| Dictionary.ZeroRackIsEmptyRack | src/dictionary.rs:50 | the all-zero vector seeded into the leave table is `to_word` of the empty rack |
| Dictionary.CheckWord | src/dictionary.rs:56-64 | `check_word` is false for words shorter than 2, and otherwise says whether the word is in the set of its first two letters |
| Dictionary.Evaluate | src/dictionary.rs:66-68 | `evaluate` is `Some` exactly for racks in the leave table, with the stored value |
| Dictionary.LeaveTableLookup | src/dictionary.rs:42-49 | a rack of any leaves line is in the table, with the value of the last line with that rack |
| Dictionary.LeaveTableKeys | src/dictionary.rs:42-49 | the table's keys are exactly the count vectors of the lines' racks |
| Dictionary.NewDictionary | src/dictionary.rs:19-54 | `Dictionary::default` indexes exactly the capitals by first and second letter, each with the set of its file's lines, and the leave table plus the empty rack at 0 |
| Dictionary.LoadWords | src/dictionary.rs:22-38 | the outer word loop makes an entry per capital, skipping the blank |
| Dictionary.LoadDigraphs | src/dictionary.rs:26-36 | the inner word loop makes an entry per second capital with the lines of that file |
| Dictionary.LoadLeaves | src/dictionary.rs:42-49 | the leaves loop builds the table line by line, a later line overwriting an earlier one |
| Dictionary.CheckWordBuilt | src/dictionary.rs:19-64 | a built dictionary accepts exactly the words of length at least 2 listed in the file of their own first two capitals |
| Dictionary.EvaluateZeroRack | src/dictionary.rs:50-68 | after construction the empty rack evaluates to 0 |
| Dictionary.FirstEdge | src/dictionary.rs:170-180 | the first edge in insertion order that leaves the node with the label, and `None` iff there is none |
| Dictionary.Step | src/dictionary.rs:170-180 | the transition is `None` iff no edge leaves the node with that label, and otherwise the target of such an edge |
| Dictionary.StepExtend | src/dictionary.rs:104-118 | adding edges never changes an existing transition |
| Dictionary.StepAppendNew | src/dictionary.rs:111-112 | an edge whose label is new at its source becomes the transition for that label |
| Dictionary.WalkExtend | src/dictionary.rs:104-118 | adding edges never changes a successful walk |
| Dictionary.WalkSnoc | src/dictionary.rs:150-162 | walking one more character is one more step from where the walk ended |
| Dictionary.WalkFails | src/dictionary.rs:150-162 | a walk fails iff some step after a successful prefix has no edge |
| Dictionary.LenientAgrees | src/dictionary.rs:132-162 | `seed` and `nseed` agree whenever `nseed` succeeds |
| Dictionary.AcceptsExtend | src/dictionary.rs:104-118 | adding edges keeps every inserted word accepted |
| Dictionary.AddChildKeepsWellFormed | src/dictionary.rs:111-118 | adding a node and an edge with a label new at its source, or an end-of-word edge, keeps the graph well formed |
| Dictionary.WalkAppendNew | src/dictionary.rs:111-113 | the path extended by a new label reaches the new node |
| Dictionary.CanNextIn | src/dictionary.rs:170-180 | the scan of the edges in order finds the first matching edge's target, or `None` |
| Dictionary.Descend | src/dictionary.rs:107-115 | one character of the insert loop follows the existing edge or adds a node and edge, and the extended path leads to the new last node |
| Dictionary.DescendAll | src/dictionary.rs:107-115 | after the character loop the whole path leads from the root to the last node, and only edges leaving later nodes were added |
| Dictionary.MarkEnd | src/dictionary.rs:117-118 | the end-of-word edge makes the path accepted |
| Dictionary.InsertWord | src/dictionary.rs:104-119 | after inserting a word, its key (file letters, then the word from its third character) is accepted |
| Dictionary.InsertWords | src/dictionary.rs:104-119 | after the word loop every word of the file is accepted, and the graph stays well formed |
| Dictionary.AddSecondLetters | src/dictionary.rs:90-122 | the middle loop makes every word of every file of `i` accepted |
| Dictionary.AddSecondLetter | src/dictionary.rs:90-119 | one turn of the middle loop adds the node of the second letter and accepts every word of that file |
| Dictionary.BuildGraph | src/dictionary.rs:79-126 | `Trie::default` builds a well-formed graph that accepts every listed word along its key |
| Dictionary.AddFirstLetter | src/dictionary.rs:84-123 | one turn of the outer loop adds the first letter's node and accepts every word of its files |
| Dictionary.Trie.constructor | src/dictionary.rs:79-126 | a trie at its root that accepts every listed word |
| Dictionary.Trie.Root | src/dictionary.rs:128-130 | the root is the first node, labelled with a space |
| Dictionary.Trie.CanNext | src/dictionary.rs:170-180 | `can_next` answers the first matching edge's target, and `None` iff no edge leaves the node with that label |
| Dictionary.Trie.Follow | src/dictionary.rs:183-185 | `follow` is `can_next` |
| Dictionary.Trie.NSeed | src/dictionary.rs:150-162 | `nseed` is the strict walk from the root: `None` at the first missing label |
| Dictionary.Trie.NRSeed | src/dictionary.rs:164-168 | `nrseed` is the strict walk of the reversed sequence |
| Dictionary.Trie.Seed | src/dictionary.rs:132-147 | `seed` is the lenient walk from the root: a missing label leaves it in place |
| Dictionary.Trie.Nexts | src/dictionary.rs:187-195 | `nexts` lists exactly the labels with a transition, repeating only the end-of-word label |
| Dictionary.StoredWordsReachEnd | src/dictionary.rs:79-126 | a word listed in the file of its first two capitals leads from the root to a node with an end-of-word edge |
| Board.Pos | src/utils.rs:205-209 | the k-th square of `positions` is on the board with index k |
| Board.PosToInt | src/utils.rs:165-167 | `Pos` inverts `to_int` |
| Board.PaintSpec | src/board.rs:59-75 | writing a word along `d` puts its i-th letter i squares along and leaves every other square alone |
| Board.Fit | src/board.rs:59-75 | the number of letters `play_word` writes before stopping is at most the word's length |
| Board.FitFirstLetter | src/board.rs:62-69 | without `force`, `play_word` writes over non-letter squares and stops at the first letter in its way |
| Board.FitForced | src/board.rs:63 | with `force`, every square in reach is written |
| Board.PlayedBlocked | src/board.rs:64-68 | meeting a letter without `force` stops with the earlier letters written and answers false |
| Board.PlayedEdge | src/board.rs:71 | a word that reaches the last square answers false, even though every letter was written |
| Board.PlayedDone | src/board.rs:59-75 | a word that fits before the edge is written in full and answers true |
| Board.RunFrom | src/board.rs:111-115 | the run of letters from a square never leaves the board |
| Board.RunFromCells | src/board.rs:111-115 | each character of the run is the letter on the corresponding square |
| Board.RunFromEnd | src/board.rs:111-115 | the run stops at a non-letter square or at the edge |
| Board.LetterCharMeans | src/board.rs:51-53 | a character is a letter iff it is not one of the six square markers |
| Board.RunStart | src/board.rs:108 | the first square of the run through a letter, on the same line and not past it |
| Board.RunMembers | src/board.rs:106-115 | a square lies on the run from a start square iff it holds a letter whose run starts there |
| Board.RunStartIndex | src/board.rs:106-108 | a run starts at or before any of its squares in `positions` order |
| Board.WordsAtExact | src/board.rs:107-120 | a square contributes exactly the runs longer than one byte that start there across or down |
| Board.WordsBelowExact | src/board.rs:106-122 | the sweep up to index k yields exactly the words whose runs start before k |
| Board.WordsExact | src/board.rs:102-125 | `get_words` yields exactly the maximal runs of letters longer than one byte in either direction |
| Board.OneByteWordRun | src/board.rs:108-119 | on a board of one-byte characters, a word is exactly a maximal run of two or more letters |
| Board.BoardValidMeans | src/board.rs:127-129 | `valid` holds iff every maximal run of letters longer than one byte is a dictionary word |
| Board.SweptRun | src/board.rs:111-114 | reading a run marks exactly its squares in its direction's row of `marked` |
| Board.SweptSkip | src/board.rs:108 | a square that does not start a run marks nothing new |
| Board.SweptOthers | src/board.rs:104-114 | reading a run in one direction leaves the other direction's marks alone |
| Board.LetterNeighbourNext | src/board.rs:134-141 | one more square of the anchor sweep adds exactly that square's empty neighbours, if it holds a letter |
| Board.AnchorMeans | src/board.rs:131-144 | an anchor is exactly an empty on-board square next to a letter |
| Board.CrossCheck | src/board.rs:81-100 | the cross-check of a square has 26 entries |
| Board.CrossCheckWords | src/board.rs:90-97 | for an empty square next to a letter, letter i is admitted iff the whole board with it placed there is valid |
| Board.CrossCheckChars | src/board.rs:82-88 | an occupied square admits no letter; an empty square with no letter beside it admits every capital |
| Board.Before | src/board.rs:181-190 | the letters before `p` fit in the squares before it |
| Board.Fill | src/board.rs:192-205 | the part loop of `place` ends on the same line, as many squares along as it read, and reads nothing iff the part is empty |
| Board.FillStep | src/board.rs:194-205 | one turn of the part loop: place the next part letter on an empty admitted square or read the letter, then tick (failing at the edge) |
| Board.BackRunCells | src/board.rs:183-187 | the backward run holds the letters behind the square and stops at a non-letter |
| Board.BeforeCells | src/board.rs:181-190 | the reversed backward run is the letters immediately before `p`, preceded by a non-letter or the edge |
| Board.FillFrame | src/board.rs:194-205 | the part loop changes only empty squares it passes over |
| Board.FillLetters | src/board.rs:194-205 | each character the loop reads is the letter on its square afterwards |
| Board.FillAdmits | src/board.rs:195-200 | every letter the loop places is in that square's cross-check |
| Board.Laid | src/board.rs:194-205 | the letters placed on empty squares number at most the squares passed |
| Board.LaidFrame | src/board.rs:195 | what counts as placed depends only on which squares were already letters |
| Board.FillLays | src/board.rs:194-205 | the letters placed on empty squares, in order, are exactly the rest of the part |
| Board.PlaceMeaning | src/board.rs:176-227 | a move from `place` is at `p` along `d`; its word is the maximal run through the placed part and is in the dictionary; the part was laid in order on admitted empty squares, ending before the edge |
| Board.Stretch | src/board.rs:190-212 | the word `place` assembles is the whole run from the first letter before `p` to the end of the run after the part |
| Board.PlaceRun | src/board.rs:176-227 | the move's word is the maximal run through the new tiles |
| Board.CrossTable | src/board.rs:151-155 | the table holds, for each of the 225 squares, the `chars` of its cross-check |
| Board.EmitterMeans | src/board.rs:161-167 | one shift of one part at one anchor yields exactly the move `place` gives at the shifted square |
| Board.DistMovesMeans | src/board.rs:161-168 | the shift loop yields exactly the moves of the shifts from 1 - len to 0 |
| Board.PartMovesMeans | src/board.rs:160-169 | the part loop yields exactly the moves of every part at every shift |
| Board.DirMovesMeans | src/board.rs:158-170 | the direction loop yields exactly the moves in both directions |
| Board.AnchorMovesMeans | src/board.rs:157-171 | the anchor loop yields exactly the moves at every anchor it lists |
| Board.DefaultHasNoLetters | src/board.rs:27-45 | the default board holds no letter, and the centre is the star |
| Board.LayoutCell | src/board.rs:27-45 | each square of the default board is its row and column of the layout |
| Board.LayoutRowMarks | src/board.rs:27-45 | every layout row has 15 markers |
| Board.DefaultGeneratesNothing | src/board.rs:131-174 | the default board has no anchors, so `generate_all_moves` on it yields no move |
| Board.AnchorMovesGenerated | src/board.rs:148-174 | when the anchors are listed, the loops yield exactly the generated moves |
| Board.PlaceMoveWritesTiles | src/board.rs:77-79 | `place_move` writes each tile `IterMove` yields on its square and nothing else |
| Board.Board.Default | src/board.rs:27-45 | `Board::default` is the premium-square layout |
| Board.Board.Of | src/board.rs:14-25 | a board over a given grid |
| Board.Board.Clone | src/board.rs:231-235 | `clone` is a fresh board with the same contents |
| Board.Board.AtPosition | src/board.rs:47-49 | `at_position` is the character on the square |
| Board.Board.IsLetter | src/board.rs:51-53 | `is_letter` holds iff the square holds a letter |
| Board.Board.Set | src/board.rs:55-57 | `set` changes exactly that square |
| Board.Board.Mark | src/board.rs:113 | marking a square adds exactly it to the walked squares |
| Board.Board.ReadRun | src/board.rs:109-115 | the inner while loop reads the run from a start square and marks exactly its squares |
| Board.Board.VisitSquare | src/board.rs:107-120 | one square and direction of the sweep yields the run starting there, if it is longer than one byte |
| Board.Board.GetWords | src/board.rs:102-125 | `get_words` returns exactly `Words`, in sweep order: the maximal runs longer than one byte |
| Board.Board.IsValid | src/board.rs:127-129 | `valid` holds iff every word on the board is in the dictionary |
| Board.Board.Anchors | src/board.rs:131-144 | `anchors` lists exactly the empty squares next to a letter |
| Board.Board.ValidAt | src/board.rs:81-100 | `valid_at` is the square's cross-check, and the board is restored |
| Board.Board.LetterBeside | src/board.rs:86 | true iff a neighbouring square holds a letter |
| Board.Board.TryLetter | src/board.rs:93-96 | trying a letter answers whether the board with it is valid, then restores the square |
| Board.Board.ReadBefore | src/board.rs:181-190 | `place`'s first loop reads the letters before `p` in reading order |
| Board.Board.FillPart | src/board.rs:192-205 | `place`'s part loop succeeds iff `Fill` does, leaving the filled board |
| Board.Board.ReadFrom | src/board.rs:207-210 | `place`'s last loop reads the run from where the part ended |
| Board.Board.GenerateAllMoves | src/board.rs:148-174 | `generate_all_moves` returns exactly the moves `place` accepts at an anchor, direction, part and shift; the board is unchanged |
| Board.Board.CrossChecks | src/board.rs:151-155 | the cross-check loop fills the table of every square |
| Board.Board.CrossCheckInto | src/board.rs:154 | one entry of the cross-check table |
| Board.Board.PlaceDirections | src/board.rs:158-170 | the direction loop collects the moves of both directions |
| Board.Board.PlaceParts | src/board.rs:160-169 | the part loop collects the moves of every part |
| Board.Board.PlaceDists | src/board.rs:161-168 | the shift loop collects the moves of every shift |
| Board.Board.PlaceOnCopy | src/board.rs:162-166 | `place` on a clone at the shifted square, kept when it gives a move |
| Board.Board.Place | src/board.rs:176-227 | `place` answers `PlaceSpec` and leaves the filled board when it succeeds |
| Board.Board.PlayWord | src/board.rs:59-75 | `play_word` writes the letters that fit and answers whether the whole word fitted before the edge |
| Board.Board.PlaceMove | src/board.rs:77-79 | `place_move` writes the move's tiles up to the edge and answers whether the word ended before it |
| Bag.TableSizes | src/bag.rs:21-30 | the symbol, count and value tables have 27 entries each |
| Bag.AlphDistinct | src/bag.rs:21-24 | the bag's symbols are distinct |
| Bag.Repeat | src/bag.rs:41-43 | the inner loop pushes `n` tiles, all copies of the symbol |
| Bag.SpreadSize | src/bag.rs:40-44 | the fill loop pushes as many tiles as the counts add up to |
| Bag.SpreadTally | src/bag.rs:40-44 | the fill loop pushes as many tiles of a symbol as its counts say |
| Bag.TallyHas | src/bag.rs:40-44 | with distinct symbols, each symbol's tally is its count |
| Bag.TallyAbsent | src/bag.rs:40-44 | a symbol not in the table has no tiles |
| Bag.TotalAmts | src/bag.rs:25-27 | the counts add up to 100 tiles |
| Bag.ShuffledCounts | src/bag.rs:40-46 | any shuffle of the filled bag holds each symbol's count of tiles and nothing else |
| Bag.ShuffledFullBag | src/bag.rs:40-46 | the shuffled default bag holds 100 tiles |
| Bag.ScoresUpToMeans | src/bag.rs:36-38 | the score loop maps exactly the symbols seen so far, each to its value |
| Bag.ScoreTableMeans | src/bag.rs:28-38 | the score map covers exactly the 27 symbols, each with its value |
| Bag.RemoveFrontOf | src/bag.rs:76-78 | removing the front tile's value drops the front tile |
| Bag.RemoveNext | src/bag.rs:76-78 | each removal keeps the bag equal to the original minus the tiles drawn so far, and a drawn prefix leaves the suffix |
| Bag.Bag.Default | src/bag.rs:19-49 | `Bag::default` holds 100 tiles, each symbol its count in some order, scoring from the value table, with random draws |
| Bag.Bag.With | src/bag.rs:51-56 | `Bag::with` hands out exactly the given order with fixed-order draws |
| Bag.Bag.BuildScores | src/bag.rs:36-38 | the score loop builds the score table |
| Bag.Bag.BuildDistribution | src/bag.rs:40-44 | the fill loop builds each symbol's count of copies, in table order |
| Bag.Bag.PushCopies | src/bag.rs:41-43 | the inner fill loop appends `n` copies of the symbol |
| Bag.Bag.Score | src/bag.rs:58-63 | `score` is the symbol's value, and 0 for a character that is no symbol |
| Bag.Bag.RemoveAll | src/bag.rs:76-78 | the removal loop takes out one occurrence per drawn tile; a drawn prefix leaves the rest in order |
| Bag.Bag.DrawTiles | src/bag.rs:65-80 | `draw_tiles` draws min(n, size) tiles: the front tiles on the fixed-order path, some tiles of the bag on the random path; the bag loses exactly those tiles |

## Left out

- Rendering: `Board`'s `Display`, `Bag::to_str` and `to_str_for_current_player`, the progress bars and the terminal colours are display only.
- File input: `Dictionary::default` and `Trie::default` read `resources/*.txt`. Here the word lists and the parsed leaves lines are the parameters `lists` and `leaveLines`, and a missing file (a panic in Rust) is not modelled.
- Floating point: leave values and move evaluations are `real` values that are only stored and looked up. The `f32` parsing of the leaves file is not modelled.
- Randomness: `shuffle` in `Bag::default` and `choose_multiple` in `draw_tiles` are nondeterministic choices constrained only by what they return: a permutation, and a sub-multiset of the right size.
- Dictionary.CheckWord: a first or second character without an entry panics in Rust; the model answers false, which agrees on every word whose first two characters are capitals.
- `alph`: the tile alphabet is A..Z followed by the blank `?`. The blank is skipped where the Rust loops skip it, and `valid_at` tries the 26 capitals.
- `gen_parts`, which `generate_all_moves` calls, is defined outside the modelled files. The rack and the game loop (src/game.rs) are not part of this model either. `generate_all_moves` takes the list of parts `gen_parts` would return as its parameter `parts`.
- Board.Board.GenerateAllMoves: states which moves are in the result, not their order or repeats. A square next to several letters is listed once per letter, as in Rust, so the same move can appear more than once.
- Board.Board.Anchors: states which squares are listed, not their order or how often each is repeated.
- Board.Board.Place: when `place` returns `None` partway through the part loop, the clone it worked on is discarded by the caller, so the partly filled board is not described.
- `marked` in `get_words` is one 225-entry array per direction instead of a `[[bool; 225]; 2]`.
- The cross-check table is a sequence of 225 entries instead of a fixed-size array.
- Several loops are split into helper methods (`ReadRun`, `VisitSquare`, `CrossCheckInto`, `PlaceOnCopy`, `AddFirstLetter`, `AddSecondLetter`, `PushCopies`); they do what the loop bodies do.
- Trie: petgraph's `edges_directed` visits outgoing edges newest first, while the model scans edges in insertion order. The two agree on every label with exactly one outgoing edge, which `Trie::default` guarantees for every label except the end-of-word marker.
- `Position::add`, which `generate_all_moves` calls, is commented out in src/utils.rs. `Utils.Add` follows that commented definition: `tick_opp` repeated for negative offsets and `tick` repeated otherwise.
