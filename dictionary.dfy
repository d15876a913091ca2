/** The word oracle, the rack-leave table and the forward letter graph
    (src/dictionary.rs). Word lists are read from one file per two-letter
    prefix in the source; here they are the parameter `lists`. */
module Dictionary {
  import opened Utils

  /** The lines of `resources/<i><j>.txt`, for capital letters i and j. */
  type WordLists = (char, char) -> seq<string>

  /** One parsed line of `resources/leaves.txt`: a rack leave and its value. */
  datatype LeaveLine = LeaveLine(tiles: string, value: real)

  /** `Dictionary`: words indexed by their first and second character, and the
      leave table keyed by 27-entry count vectors. */
  datatype Dictionary = Dictionary(words: map<char, map<char, set<string>>>,
                                   leaves: map<seq<nat>, real>)

  /** The count vector of the empty rack, seeded into the leave table. */
  const ZeroRack: seq<nat> := seq(27, i => 0)

  lemma ZeroRackIsEmptyRack()
    ensures ToWord([]) == ZeroRack
  {
  }

  /** The words stored under the first two characters of `w`; a missing key is
      an empty set here (the source's map indexing panics instead). */
  function Stored(d: Dictionary, w: string): set<string>
    requires |w| >= 2
  {
    if w[0] in d.words && w[1] in d.words[w[0]] then d.words[w[0]][w[1]] else {}
  }

  /** `Dictionary::check_word`. */
  function CheckWord(d: Dictionary, w: string): (r: bool)
    ensures r ==> |w| >= 2
    ensures |w| >= 2 ==> (r <==> w in Stored(d, w))
  {
    if |w| >= 2 then
      if w[0] in d.words && w[1] in d.words[w[0]] then w in d.words[w[0]][w[1]] else false
    else false
  }

  /** `Dictionary::evaluate`: plain lookup in the leave table. */
  function Evaluate(d: Dictionary, rack: seq<nat>): (r: Option<real>)
    ensures r.Some? <==> rack in d.leaves
    ensures r.Some? ==> r.value == d.leaves[rack]
  {
    if rack in d.leaves then Some(d.leaves[rack]) else None
  }

  /** The leave table the lines build, a later line overwriting an earlier one. */
  function LeaveTable(lines: seq<LeaveLine>): map<seq<nat>, real> {
    if lines == [] then map[]
    else
      var last := lines[|lines| - 1];
      LeaveTable(lines[..|lines| - 1])[ToWord(last.tiles) := last.value]
  }

  /** A rack is in the table iff some line has it, and its value is the last such line's. */
  lemma {:induction false} LeaveTableLookup(lines: seq<LeaveLine>, k: nat)
    requires k < |lines|
    requires forall m :: k < m < |lines| ==> ToWord(lines[m].tiles) != ToWord(lines[k].tiles)
    ensures ToWord(lines[k].tiles) in LeaveTable(lines)
    ensures LeaveTable(lines)[ToWord(lines[k].tiles)] == lines[k].value
  {
    if k < |lines| - 1 {
      LeaveTableLookup(lines[..|lines| - 1], k);
    }
  }

  lemma {:induction false} LeaveTableKeys(lines: seq<LeaveLine>, rack: seq<nat>)
    ensures rack in LeaveTable(lines) <==> exists m :: 0 <= m < |lines| && ToWord(lines[m].tiles) == rack
  {
    if lines != [] {
      var init := lines[..|lines| - 1];
      LeaveTableKeys(init, rack);
      if rack in LeaveTable(init) {
        var m :| 0 <= m < |init| && ToWord(init[m].tiles) == rack;
        assert lines[m] == init[m];
      }
      if exists m :: 0 <= m < |lines| && ToWord(lines[m].tiles) == rack {
        var m :| 0 <= m < |lines| && ToWord(lines[m].tiles) == rack;
        if m < |init| {
          assert init[m] == lines[m];
        }
      }
    }
  }

  /** The set a file's lines are collected into. */
  function ListSet(ws: seq<string>): set<string> {
    set w | w in ws
  }

  /** The word part of what `Dictionary::default` builds: exactly the capitals
      as first letters, each with its map of second letters. */
  ghost predicate WordsFrom(d: Dictionary, lists: WordLists) {
    && (forall i :: i in d.words <==> IsCapital(i))
    && (forall i :: i in d.words ==> Digraphs(d.words[i], lists, i))
  }

  /** The map for first letter `i`: exactly the capitals `j`, each with the
      set of lines of the file of `i` and `j`. */
  ghost predicate Digraphs(sub: map<char, set<string>>, lists: WordLists, i: char) {
    && (forall j :: j in sub <==> IsCapital(j))
    && (forall j :: j in sub ==> sub[j] == ListSet(lists(i, j)))
  }

  /** `Dictionary::default`, with the files' contents as parameters. */
  method NewDictionary(lists: WordLists, leaveLines: seq<LeaveLine>) returns (d: Dictionary)
    ensures WordsFrom(d, lists)
    ensures d.leaves == LeaveTable(leaveLines)[ZeroRack := 0.0]
  {
    var words := LoadWords(lists);
    var leaves := LoadLeaves(leaveLines);
    leaves := leaves[ZeroRack := 0.0];
    d := Dictionary(words, leaves);
  }

  /** The first loop of `Dictionary::default`: one inner map per capital `i`,
      one set per capital `j`; the blank is skipped. */
  method LoadWords(lists: WordLists) returns (words: map<char, map<char, set<string>>>)
    ensures WordsFrom(Dictionary(words, map[]), lists)
  {
    AlphCodes();
    words := map[];
    for a := 0 to |Alph|
      invariant forall i :: i in words ==> IsCapital(i) && LetterIndex(i) < a && Digraphs(words[i], lists, i)
      invariant forall x :: 0 <= x < a && x < 26 ==> Alph[x] in words
    {
      var i := Alph[a];
      if i == '?' {
        continue;
      }
      var sub := LoadDigraphs(lists, i);
      words := words[i := sub];
    }
    forall i | IsCapital(i)
      ensures i in words
    {
      assert Alph[LetterIndex(i)] == i;
    }
  }

  /** The inner loop of the first loop of `Dictionary::default`. */
  method LoadDigraphs(lists: WordLists, i: char) returns (sub: map<char, set<string>>)
    ensures Digraphs(sub, lists, i)
  {
    AlphCodes();
    sub := map[];
    for b := 0 to |Alph|
      invariant forall j :: j in sub ==> IsCapital(j) && LetterIndex(j) < b && sub[j] == ListSet(lists(i, j))
      invariant forall y :: 0 <= y < b && y < 26 ==> Alph[y] in sub
    {
      var j := Alph[b];
      if j == '?' {
        continue;
      }
      sub := sub[j := ListSet(lists(i, j))];
    }
    forall j | IsCapital(j)
      ensures j in sub
    {
      assert Alph[LetterIndex(j)] == j;
    }
  }

  /** The second loop of `Dictionary::default`: one table entry per line. */
  method LoadLeaves(leaveLines: seq<LeaveLine>) returns (leaves: map<seq<nat>, real>)
    ensures leaves == LeaveTable(leaveLines)
  {
    leaves := map[];
    for k := 0 to |leaveLines|
      invariant leaves == LeaveTable(leaveLines[..k])
    {
      assert leaveLines[..k + 1][..k] == leaveLines[..k];
      leaves := leaves[ToWord(leaveLines[k].tiles) := leaveLines[k].value];
    }
    assert leaveLines[..|leaveLines|] == leaveLines;
  }

  /** A built dictionary accepts exactly the words of two or more characters
      listed in the file of their own first two letters. */
  lemma CheckWordBuilt(d: Dictionary, lists: WordLists, w: string)
    requires WordsFrom(d, lists)
    ensures CheckWord(d, w) <==> |w| >= 2 && IsCapital(w[0]) && IsCapital(w[1]) && w in lists(w[0], w[1])
  {
    if |w| >= 2 && w[0] in d.words && w[1] in d.words[w[0]] {
      assert IsCapital(w[0]) && IsCapital(w[1]);
    }
  }

  /** After construction the empty leave evaluates to 0. */
  lemma EvaluateZeroRack(d: Dictionary, lines: seq<LeaveLine>)
    requires d.leaves == LeaveTable(lines)[ZeroRack := 0.0]
    ensures Evaluate(d, ToWord([])) == Some(0.0)
  {
    ZeroRackIsEmptyRack();
  }

  // ----------------------------------------------------------------- the graph

  /** A labelled edge of the letter graph. */
  datatype Edge = Edge(source: nat, target: nat, letter: char)

  /** The end-of-word label. */
  const EndOfWord: char := '@'

  predicate Leaves(e: Edge, n: nat, c: char) {
    e.source == n && e.letter == c
  }

  /** The first edge, in insertion order, leaving `n` with label `c`. */
  function FirstEdge(es: seq<Edge>, n: nat, c: char): (r: Option<nat>)
    ensures r.Some? ==> r.value < |es| && Leaves(es[r.value], n, c)
    ensures r.Some? ==> forall k {:trigger Leaves(es[k], n, c)} :: 0 <= k < r.value ==> !Leaves(es[k], n, c)
    ensures r.None? <==> forall k {:trigger Leaves(es[k], n, c)} :: 0 <= k < |es| ==> !Leaves(es[k], n, c)
  {
    FirstEdgeFrom(es, n, c, 0)
  }

  /** The first edge at index `i` or later leaving `n` with label `c`. */
  function FirstEdgeFrom(es: seq<Edge>, n: nat, c: char, i: nat): (r: Option<nat>)
    requires i <= |es|
    ensures r.Some? ==> i <= r.value < |es| && Leaves(es[r.value], n, c)
    ensures r.Some? ==> forall k {:trigger Leaves(es[k], n, c)} :: i <= k < r.value ==> !Leaves(es[k], n, c)
    ensures r.None? <==> forall k {:trigger Leaves(es[k], n, c)} :: i <= k < |es| ==> !Leaves(es[k], n, c)
    decreases |es| - i
  {
    if i == |es| then None
    else if Leaves(es[i], n, c) then Some(i)
    else FirstEdgeFrom(es, n, c, i + 1)
  }

  /** `can_next`: the target of an edge from `n` labelled `c`, if there is one. */
  function Step(es: seq<Edge>, n: nat, c: char): (r: Option<nat>)
    ensures r.None? <==> forall k {:trigger Leaves(es[k], n, c)} :: 0 <= k < |es| ==> !Leaves(es[k], n, c)
    ensures r.Some? ==> exists k :: 0 <= k < |es| && es[k] == Edge(n, r.value, c)
  {
    match FirstEdge(es, n, c)
    case None => None
    case Some(k) => Some(es[k].target)
  }

  ghost predicate IsPrefix<T>(a: seq<T>, b: seq<T>) {
    |a| <= |b| && forall k :: 0 <= k < |a| ==> a[k] == b[k]
  }

  /** Appending edges never changes a transition that already exists. */
  lemma StepExtend(es: seq<Edge>, es': seq<Edge>, n: nat, c: char)
    requires IsPrefix(es, es') && Step(es, n, c).Some?
    ensures Step(es', n, c) == Step(es, n, c)
  {
    var k := FirstEdge(es, n, c).value;
    assert forall m :: 0 <= m <= k ==> es'[m] == es[m];
  }

  /** An edge appended with a label new at its source is the transition for that label. */
  lemma StepAppendNew(es: seq<Edge>, e: Edge)
    requires Step(es, e.source, e.letter).None?
    ensures Step(es + [e], e.source, e.letter) == Some(e.target)
  {
    var es' := es + [e];
    assert Leaves(es'[|es|], e.source, e.letter);
    assert forall m :: 0 <= m < |es| ==> es'[m] == es[m];
  }

  /** Following `path` from `n`, failing at the first missing label. */
  function Walk(es: seq<Edge>, n: nat, path: string): Option<nat>
    decreases |path|
  {
    if path == [] then Some(n)
    else match Step(es, n, path[0])
      case None => None
      case Some(m) => Walk(es, m, path[1..])
  }

  /** Following `path` from `n`, staying put on a missing label. */
  function LenientWalk(es: seq<Edge>, n: nat, path: string): nat
    decreases |path|
  {
    if path == [] then n
    else
      var m := match Step(es, n, path[0]) case Some(t) => t case None => n;
      LenientWalk(es, m, path[1..])
  }

  lemma {:induction false} WalkExtend(es: seq<Edge>, es': seq<Edge>, n: nat, path: string)
    requires IsPrefix(es, es') && Walk(es, n, path).Some?
    ensures Walk(es', n, path) == Walk(es, n, path)
    decreases |path|
  {
    if path != [] {
      StepExtend(es, es', n, path[0]);
      WalkExtend(es, es', Step(es, n, path[0]).value, path[1..]);
    }
  }

  /** One more character is one more step from where the path led. */
  lemma {:induction false} WalkSnoc(es: seq<Edge>, n: nat, path: string, c: char)
    ensures Walk(es, n, path + [c]) ==
      match Walk(es, n, path) case None => None case Some(m) => Step(es, m, c)
    decreases |path|
  {
    if path == [] {
      assert [c][1..] == [];
    } else {
      assert (path + [c])[0] == path[0];
      assert (path + [c])[1..] == path[1..] + [c];
      match Step(es, n, path[0]) {
        case None =>
        case Some(m) => WalkSnoc(es, m, path[1..], c);
      }
    }
  }

  /** A walk fails exactly when some step along a successful prefix has no edge. */
  lemma {:induction false} WalkFails(es: seq<Edge>, n: nat, path: string)
    ensures Walk(es, n, path).None? <==>
      exists i :: 0 <= i < |path| && Walk(es, n, path[..i]).Some? &&
                  Step(es, Walk(es, n, path[..i]).value, path[i]).None?
    decreases |path|
  {
    if path != [] {
      assert path[..0] == [];
      match Step(es, n, path[0]) {
        case None =>
          assert Walk(es, n, path[..0]) == Some(n);
        case Some(m) =>
          WalkFails(es, m, path[1..]);
          forall i | 0 < i <= |path|
            ensures Walk(es, n, path[..i]) == Walk(es, m, path[1..][..i - 1])
          {
            assert path[..i][0] == path[0];
            assert path[..i][1..] == path[1..][..i - 1];
          }
          if Walk(es, n, path).None? {
            var i :| 0 <= i < |path[1..]| && Walk(es, m, path[1..][..i]).Some? &&
                     Step(es, Walk(es, m, path[1..][..i]).value, path[1..][i]).None?;
            assert Walk(es, n, path[..i + 1]) == Walk(es, m, path[1..][..i]);
          } else {
            forall i | 0 <= i < |path| && Walk(es, n, path[..i]).Some?
              ensures Step(es, Walk(es, n, path[..i]).value, path[i]).Some?
            {
              if i > 0 {
                assert path[1..][i - 1] == path[i];
              }
            }
          }
      }
    }
  }

  /** The lenient walk agrees with the strict one whenever the strict one succeeds. */
  lemma {:induction false} LenientAgrees(es: seq<Edge>, n: nat, path: string)
    requires Walk(es, n, path).Some?
    ensures LenientWalk(es, n, path) == Walk(es, n, path).value
    decreases |path|
  {
    if path != [] {
      LenientAgrees(es, Step(es, n, path[0]).value, path[1..]);
    }
  }

  /** Outgoing letter labels are unique: only end-of-word edges may repeat. */
  ghost predicate Deterministic(es: seq<Edge>) {
    forall k1, k2 {:trigger SameLabel(es[k1], es[k2])} ::
      0 <= k1 < k2 < |es| && SameLabel(es[k1], es[k2]) ==> es[k1].letter == EndOfWord
  }

  /** Two edges leaving the same node with the same label. */
  predicate SameLabel(e1: Edge, e2: Edge) {
    e1.source == e2.source && e1.letter == e2.letter
  }

  /** Every edge leads to a node created after its source. */
  ghost predicate Ascending(es: seq<Edge>) {
    forall k :: 0 <= k < |es| ==> es[k].source < es[k].target
  }

  /** The path `Trie::default` inserts for a word of the file of `i` and `j`:
      `i`, `j`, then the word's characters from the third on. */
  function Key(i: char, j: char, w: string): string {
    [i, j] + (if |w| >= 2 then w[2..] else [])
  }

  /** `path` leads from the root to a node with an end-of-word edge. */
  ghost predicate Accepts(es: seq<Edge>, path: string) {
    Walk(es, 0, path).Some? && Step(es, Walk(es, 0, path).value, EndOfWord).Some?
  }

  /** Appending edges keeps every accepted path accepted. */
  lemma AcceptsExtend(es: seq<Edge>, es': seq<Edge>, key: string)
    requires Accepts(es, key) && IsPrefix(es, es')
    ensures Accepts(es', key)
  {
    WalkExtend(es, es', 0, key);
    StepExtend(es, es', Walk(es, 0, key).value, EndOfWord);
  }

  /** `es'` extends `es`, and every added edge leaves a node numbered `bound` or more. */
  ghost predicate GrownAbove(es: seq<Edge>, es': seq<Edge>, bound: nat) {
    IsPrefix(es, es') && forall k :: |es| <= k < |es'| ==> es'[k].source >= bound
  }

  lemma GrownAboveTrans(e0: seq<Edge>, e1: seq<Edge>, e2: seq<Edge>, bound: nat)
    requires GrownAbove(e0, e1, bound) && GrownAbove(e1, e2, bound)
    ensures GrownAbove(e0, e2, bound)
  {
  }

  /** Every edge leaving `n` is labelled with a capital of index below `b`. */
  ghost predicate LabelsBelow(es: seq<Edge>, n: nat, b: nat) {
    forall k :: 0 <= k < |es| && es[k].source == n ==> IsCapital(es[k].letter) && LetterIndex(es[k].letter) < b
  }

  lemma LabelsBelowFresh(es: seq<Edge>, n: nat, b: nat, c: char)
    requires LabelsBelow(es, n, b) && IsCapital(c) && LetterIndex(c) >= b
    ensures Step(es, n, c).None?
  {
  }

  lemma LabelsBelowAdd(es: seq<Edge>, e: Edge, b: nat)
    requires LabelsBelow(es, e.source, b) && IsCapital(e.letter) && LetterIndex(e.letter) == b
    ensures LabelsBelow(es + [e], e.source, b + 1)
  {
  }

  lemma LabelsBelowGrown(es: seq<Edge>, es': seq<Edge>, n: nat, b: nat, b': nat, bound: nat)
    requires LabelsBelow(es, n, b) && b <= b' && GrownAbove(es, es', bound) && n < bound
    ensures LabelsBelow(es', n, b')
  {
  }

  /** A petgraph graph: the node weights and the edge list, both in insertion order. */
  datatype Graph = Graph(nodes: seq<char>, edges: seq<Edge>)

  /** The shape `Trie::default` builds: a root `' '`, edges between existing
      nodes that lead to later nodes, and labels other than the end-of-word
      marker unique among the edges leaving a node. */
  ghost predicate WellFormed(g: Graph) {
    && |g.nodes| > 0 && g.nodes[0] == ' '
    && (forall k :: 0 <= k < |g.edges| ==> g.edges[k].target < |g.nodes|)
    && Deterministic(g.edges) && Ascending(g.edges)
  }

  /** `add_node(c)` and `add_edge(from, n, c)` keep the graph well formed as
      long as `c` is new among the labels leaving `from`, or marks an end of word. */
  lemma AddChildKeepsWellFormed(g: Graph, from: nat, c: char)
    requires WellFormed(g) && from < |g.nodes|
    requires c == EndOfWord || Step(g.edges, from, c).None?
    ensures WellFormed(Graph(g.nodes + [c], g.edges + [Edge(from, |g.nodes|, c)]))
  {
    var es := g.edges + [Edge(from, |g.nodes|, c)];
    forall k1, k2 | 0 <= k1 < k2 < |es| && SameLabel(es[k1], es[k2])
      ensures es[k1].letter == EndOfWord
    {
      if k2 == |g.edges| {
        assert !Leaves(g.edges[k1], from, c) || c == EndOfWord;
      } else {
        assert SameLabel(g.edges[k1], g.edges[k2]);
      }
    }
  }

  /** A path extended by a label new at its end reaches the new edge's target. */
  lemma WalkAppendNew(es: seq<Edge>, e: Edge, path: string)
    requires Walk(es, 0, path) == Some(e.source) && Step(es, e.source, e.letter).None?
    ensures Walk(es + [e], 0, path + [e.letter]) == Some(e.target)
  {
    StepAppendNew(es, e);
    WalkExtend(es, es + [e], 0, path);
    WalkSnoc(es + [e], 0, path, e.letter);
  }

  lemma SnocSlice<T>(prefix: seq<T>, rest: seq<T>, t: nat)
    requires t < |rest|
    ensures prefix + rest[..t + 1] == (prefix + rest[..t]) + [rest[t]]
  {
    assert rest[..t + 1] == rest[..t] + [rest[t]];
  }

  /** `Trie::can_next` on a graph: scan the edges in order for one that leaves
      `n` labelled `c`, and answer its target. */
  method CanNextIn(g: Graph, n: nat, c: char) returns (r: Option<nat>)
    ensures r == Step(g.edges, n, c)
  {
    for k := 0 to |g.edges|
      invariant forall m {:trigger Leaves(g.edges[m], n, c)} :: 0 <= m < k ==> !Leaves(g.edges[m], n, c)
    {
      if g.edges[k].source == n && g.edges[k].letter == c {
        assert Leaves(g.edges[k], n, c);
        assert FirstEdge(g.edges, n, c) == Some(k);
        return Some(g.edges[k].target);
      }
    }
    return None;
  }

  /** The body of the character loop of `Trie::default`: follow the edge from
      `last` labelled `c`, or add a node and an edge for it. */
  method Descend(g: Graph, last: nat, c: char, ghost path: string) returns (g': Graph, next: nat)
    requires WellFormed(g) && last < |g.nodes| && Walk(g.edges, 0, path) == Some(last)
    ensures WellFormed(g') && |g.nodes| <= |g'.nodes|
    ensures last <= next < |g'.nodes| && Walk(g'.edges, 0, path + [c]) == Some(next)
    ensures GrownAbove(g.edges, g'.edges, last)
  {
    var f := CanNextIn(g, last, c);
    if f.Some? {
      g', next := g, f.value;
      WalkSnoc(g.edges, 0, path, c);
    } else {
      AddChildKeepsWellFormed(g, last, c);
      next := |g.nodes|;
      g' := Graph(g.nodes + [c], g.edges + [Edge(last, next, c)]);
      WalkAppendNew(g.edges, Edge(last, next, c), path);
    }
  }

  /** The character loop of `Trie::default`: one `Descend` per character of `rest`. */
  method DescendAll(g: Graph, jNode: nat, rest: string, ghost prefix: string) returns (g': Graph, last: nat)
    requires WellFormed(g) && jNode < |g.nodes| && Walk(g.edges, 0, prefix) == Some(jNode)
    ensures WellFormed(g') && |g.nodes| <= |g'.nodes|
    ensures jNode <= last < |g'.nodes| && Walk(g'.edges, 0, prefix + rest) == Some(last)
    ensures GrownAbove(g.edges, g'.edges, jNode)
  {
    g', last := g, jNode;
    ghost var path := prefix;
    for t := 0 to |rest|
      invariant WellFormed(g') && |g.nodes| <= |g'.nodes|
      invariant jNode <= last < |g'.nodes|
      invariant GrownAbove(g.edges, g'.edges, jNode)
      invariant path == prefix + rest[..t] && Walk(g'.edges, 0, path) == Some(last)
    {
      ghost var before := g'.edges;
      g', last := Descend(g', last, rest[t], path);
      GrownAboveTrans(g.edges, before, g'.edges, jNode);
      SnocSlice(prefix, rest, t);
      path := path + [rest[t]];
    }
    assert rest[..|rest|] == rest;
  }

  /** The end of a word: an end-of-word edge from `last` to a fresh node. */
  method MarkEnd(g: Graph, last: nat, ghost path: string) returns (g': Graph)
    requires WellFormed(g) && last < |g.nodes| && Walk(g.edges, 0, path) == Some(last)
    ensures WellFormed(g') && |g.nodes| <= |g'.nodes|
    ensures GrownAbove(g.edges, g'.edges, last)
    ensures Accepts(g'.edges, path)
  {
    AddChildKeepsWellFormed(g, last, EndOfWord);
    g' := Graph(g.nodes + [EndOfWord], g.edges + [Edge(last, |g.nodes|, EndOfWord)]);
    WalkExtend(g.edges, g'.edges, 0, path);
    assert Leaves(g'.edges[|g.edges|], last, EndOfWord);
  }

  /** The body of the word loop of `Trie::default`: from the node of the
      word's first two letters, follow or create an edge per further
      character, then add an end-of-word edge to a fresh node. */
  method InsertWord(g: Graph, jNode: nat, word: string, ghost prefix: string) returns (g': Graph)
    requires WellFormed(g) && jNode < |g.nodes| && Walk(g.edges, 0, prefix) == Some(jNode) && |prefix| == 2
    ensures WellFormed(g') && |g.nodes| <= |g'.nodes|
    ensures GrownAbove(g.edges, g'.edges, jNode)
    ensures Accepts(g'.edges, Key(prefix[0], prefix[1], word))
  {
    var rest := if |word| >= 2 then word[2..] else [];
    KeySplit(prefix, word);
    var g1, last := DescendAll(g, jNode, rest, prefix);
    g' := MarkEnd(g1, last, prefix + rest);
    GrownAboveTrans(g.edges, g1.edges, g'.edges, jNode);
  }

  lemma KeySplit(prefix: string, word: string)
    requires |prefix| == 2
    ensures Key(prefix[0], prefix[1], word) == prefix + (if |word| >= 2 then word[2..] else [])
  {
    assert [prefix[0], prefix[1]] == prefix;
  }

  /** The word loop of `Trie::default`: every word of one file inserted
      below the node of the file's two letters. */
  method InsertWords(g: Graph, jNode: nat, words: seq<string>, ghost prefix: string) returns (g': Graph)
    requires WellFormed(g) && jNode < |g.nodes| && Walk(g.edges, 0, prefix) == Some(jNode) && |prefix| == 2
    ensures WellFormed(g') && |g.nodes| <= |g'.nodes|
    ensures GrownAbove(g.edges, g'.edges, jNode)
    ensures forall w :: w in words ==> Accepts(g'.edges, Key(prefix[0], prefix[1], w))
  {
    g' := g;
    for w := 0 to |words|
      invariant WellFormed(g') && |g.nodes| <= |g'.nodes|
      invariant Walk(g'.edges, 0, prefix) == Some(jNode)
      invariant GrownAbove(g.edges, g'.edges, jNode)
      invariant AcceptedUpTo(g'.edges, prefix, words, w)
    {
      ghost var before := g'.edges;
      g' := InsertWord(g', jNode, words[w], prefix);
      GrownAboveTrans(g.edges, before, g'.edges, jNode);
      AcceptedUpToStep(before, g'.edges, prefix, words, w);
      WalkExtend(before, g'.edges, 0, prefix);
    }
  }

  /** The first `w` words are accepted along their keys below `prefix`. */
  ghost predicate AcceptedUpTo(es: seq<Edge>, prefix: string, words: seq<string>, w: nat)
    requires |prefix| == 2 && w <= |words|
  {
    forall x :: 0 <= x < w ==> Accepts(es, Key(prefix[0], prefix[1], words[x]))
  }

  lemma AcceptedUpToStep(es: seq<Edge>, es': seq<Edge>, prefix: string, words: seq<string>, w: nat)
    requires |prefix| == 2 && w < |words|
    requires AcceptedUpTo(es, prefix, words, w) && IsPrefix(es, es')
    requires Accepts(es', Key(prefix[0], prefix[1], words[w]))
    ensures AcceptedUpTo(es', prefix, words, w + 1)
  {
    forall x | 0 <= x < w
      ensures Accepts(es', Key(prefix[0], prefix[1], words[x]))
    {
      AcceptsExtend(es, es', Key(prefix[0], prefix[1], words[x]));
    }
  }

  /** The middle loop of `Trie::default`: a node per second capital `j`
      under the node of `i`, with the words of the file of `i` and `j`. */
  method AddSecondLetters(g: Graph, iNode: nat, i: char, lists: WordLists) returns (g': Graph)
    requires WellFormed(g) && iNode < |g.nodes| && Walk(g.edges, 0, [i]) == Some(iNode)
    requires LabelsBelow(g.edges, iNode, 0)
    ensures WellFormed(g') && |g.nodes| <= |g'.nodes|
    ensures GrownAbove(g.edges, g'.edges, iNode)
    ensures forall j, w :: IsCapital(j) && w in lists(i, j) ==> Accepts(g'.edges, Key(i, j, w))
  {
    AlphCodes();
    g' := g;
    for b := 0 to |Alph|
      invariant WellFormed(g') && |g.nodes| <= |g'.nodes|
      invariant iNode < |g'.nodes| && Walk(g'.edges, 0, [i]) == Some(iNode)
      invariant GrownAbove(g.edges, g'.edges, iNode)
      invariant LabelsBelow(g'.edges, iNode, b)
      invariant forall j, w :: IsCapital(j) && LetterIndex(j) < b && w in lists(i, j) ==> Accepts(g'.edges, Key(i, j, w))
    {
      var j := Alph[b];
      if j == '?' {
        LabelsBelowGrown(g'.edges, g'.edges, iNode, b, b + 1, iNode + 1);
        continue;
      }
      ghost var e0 := g'.edges;
      g' := AddSecondLetter(g', iNode, i, b, lists);
      GrownAboveTrans(g.edges, e0, g'.edges, iNode);
      forall j', w | IsCapital(j') && LetterIndex(j') < b + 1 && w in lists(i, j')
        ensures Accepts(g'.edges, Key(i, j', w))
      {
        if LetterIndex(j') == b {
          assert Alph[LetterIndex(j')] == j';
        } else {
          AcceptsExtend(e0, g'.edges, Key(i, j', w));
        }
      }
    }
  }

  /** One turn of the middle loop of `Trie::default`: a node for the capital
      `Alph[b]` under the node of `i`, with the words of the file of `i` and
      `Alph[b]` below it. */
  method AddSecondLetter(g: Graph, iNode: nat, i: char, b: nat, lists: WordLists) returns (g': Graph)
    requires WellFormed(g) && iNode < |g.nodes| && Walk(g.edges, 0, [i]) == Some(iNode)
    requires b < |Alph| && Alph[b] != '?' && LabelsBelow(g.edges, iNode, b)
    ensures WellFormed(g') && |g.nodes| <= |g'.nodes|
    ensures Walk(g'.edges, 0, [i]) == Some(iNode)
    ensures GrownAbove(g.edges, g'.edges, iNode)
    ensures LabelsBelow(g'.edges, iNode, b + 1)
    ensures forall w :: w in lists(i, Alph[b]) ==> Accepts(g'.edges, Key(i, Alph[b], w))
  {
    AlphCodes();
    var j := Alph[b];
    assert LetterIndex(j) == b;
    LabelsBelowFresh(g.edges, iNode, b, j);
    AddChildKeepsWellFormed(g, iNode, j);
    var jNode := |g.nodes|;
    g' := Graph(g.nodes + [j], g.edges + [Edge(iNode, jNode, j)]);
    WalkAppendNew(g.edges, Edge(iNode, jNode, j), [i]);
    WalkExtend(g.edges, g'.edges, 0, [i]);
    LabelsBelowAdd(g.edges, Edge(iNode, jNode, j), b);
    assert GrownAbove(g.edges, g'.edges, iNode);
    assert [i] + [j] == [i, j];
    ghost var e1 := g'.edges;
    g' := InsertWords(g', jNode, lists(i, j), [i, j]);
    LabelsBelowGrown(e1, g'.edges, iNode, b + 1, b + 1, jNode);
    assert GrownAbove(e1, g'.edges, iNode);
    GrownAboveTrans(g.edges, e1, g'.edges, iNode);
    WalkExtend(e1, g'.edges, 0, [i]);
  }

  /** The outer loop of `Trie::default`: a root `' '`, then for every capital
      `i` a node under the root and the second letters below it. Every word
      of the file of `i` and `j` ends up accepted along its key. */
  method BuildGraph(lists: WordLists) returns (g: Graph)
    ensures WellFormed(g)
    ensures forall i, j, w :: IsCapital(i) && IsCapital(j) && w in lists(i, j) ==>
      Accepts(g.edges, Key(i, j, w))
  {
    AlphCodes();
    g := Graph([' '], []);
    for a := 0 to |Alph|
      invariant WellFormed(g)
      invariant LabelsBelow(g.edges, 0, a)
      invariant forall i, j, w :: IsCapital(i) && LetterIndex(i) < a && IsCapital(j) && w in lists(i, j) ==>
        Accepts(g.edges, Key(i, j, w))
    {
      var i := Alph[a];
      if i == '?' {
        LabelsBelowGrown(g.edges, g.edges, 0, a, a + 1, 1);
        continue;
      }
      ghost var e0 := g.edges;
      g := AddFirstLetter(g, a, lists);
      forall i', j, w | IsCapital(i') && LetterIndex(i') < a + 1 && IsCapital(j) && w in lists(i', j)
        ensures Accepts(g.edges, Key(i', j, w))
      {
        if LetterIndex(i') == a {
          assert Alph[LetterIndex(i')] == i';
        } else {
          AcceptsExtend(e0, g.edges, Key(i', j, w));
        }
      }
    }
  }

  /** One turn of the outer loop of `Trie::default`: a node for the capital
      `Alph[a]` under the root, with the second letters below it. */
  method AddFirstLetter(g: Graph, a: nat, lists: WordLists) returns (g': Graph)
    requires WellFormed(g) && a < |Alph| && Alph[a] != '?' && LabelsBelow(g.edges, 0, a)
    ensures WellFormed(g') && IsPrefix(g.edges, g'.edges)
    ensures LabelsBelow(g'.edges, 0, a + 1)
    ensures forall j, w :: IsCapital(j) && w in lists(Alph[a], j) ==> Accepts(g'.edges, Key(Alph[a], j, w))
  {
    AlphCodes();
    var i := Alph[a];
    assert LetterIndex(i) == a;
    LabelsBelowFresh(g.edges, 0, a, i);
    AddChildKeepsWellFormed(g, 0, i);
    var iNode := |g.nodes|;
    g' := Graph(g.nodes + [i], g.edges + [Edge(0, iNode, i)]);
    assert [] + [i] == [i];
    WalkAppendNew(g.edges, Edge(0, iNode, i), []);
    LabelsBelowAdd(g.edges, Edge(0, iNode, i), a);
    ghost var e1 := g'.edges;
    g' := AddSecondLetters(g', iNode, i, lists);
    LabelsBelowGrown(e1, g'.edges, 0, a + 1, a + 1, iNode);
  }

  /** `Trie`: the letter graph and the node walks start from. */
  class Trie {
    var graph: Graph
    var current: nat

    ghost predicate Valid()
      reads this
    {
      WellFormed(graph) && current < |graph.nodes|
    }

    /** `Trie::default`: the graph of all word files, walks starting at the root. */
    constructor (lists: WordLists)
      ensures Valid() && current == 0
      ensures forall i, j, w :: IsCapital(i) && IsCapital(j) && w in lists(i, j) ==>
        Accepts(graph.edges, Key(i, j, w))
    {
      var g := BuildGraph(lists);
      graph := g;
      current := 0;
    }

    /** `Trie::root`: the first node. */
    function Root(): (r: nat)
      reads this
      requires Valid()
      ensures r < |graph.nodes| && graph.nodes[r] == ' '
    {
      0
    }

    /** `Trie::can_next`: the target of an outgoing edge of `n` labelled `c`;
        `None` iff there is no such edge. */
    method CanNext(n: nat, c: char) returns (r: Option<nat>)
      requires Valid()
      ensures r == Step(graph.edges, n, c)
      ensures r.None? <==> forall k :: 0 <= k < |graph.edges| ==> !Leaves(graph.edges[k], n, c)
      ensures r.Some? ==> r.value < |graph.nodes| && exists k :: 0 <= k < |graph.edges| && graph.edges[k] == Edge(n, r.value, c)
    {
      r := CanNextIn(graph, n, c);
    }

    /** `Trie::follow`, an alias of `can_next`. */
    method Follow(n: nat, c: char) returns (r: Option<nat>)
      requires Valid()
      ensures r == Step(graph.edges, n, c)
    {
      r := CanNext(n, c);
    }

    /** `Trie::nseed`: follow `v` from the root; `None` at the first missing label. */
    method NSeed(v: string) returns (r: Option<nat>)
      requires Valid()
      ensures r == Walk(graph.edges, Root(), v)
      ensures r.Some? ==> r.value < |graph.nodes|
    {
      var cur: nat := Root();
      for i := 0 to |v|
        invariant cur < |graph.nodes|
        invariant Walk(graph.edges, Root(), v) == Walk(graph.edges, cur, v[i..])
      {
        assert v[i..][1..] == v[i + 1..];
        var next := Follow(cur, v[i]);
        match next {
          case Some(nx) =>
            cur := nx;
          case None =>
            return None;
        }
      }
      return Some(cur);
    }

    /** `Trie::nrseed`: `nseed` of the reversed sequence. */
    method NRSeed(v: string) returns (r: Option<nat>)
      requires Valid()
      ensures r == Walk(graph.edges, Root(), Reverse(v))
    {
      var a := Reverse(v);
      r := NSeed(a);
    }

    /** `Trie::seed`: like `nseed`, but a missing label leaves the walk where it is. */
    method Seed(v: string) returns (r: nat)
      requires Valid()
      ensures r == LenientWalk(graph.edges, Root(), v)
      ensures r < |graph.nodes|
    {
      var edges := graph.edges;
      var cur: nat := Root();
      for i := 0 to |v|
        invariant cur < |graph.nodes|
        invariant LenientWalk(edges, Root(), v) == LenientWalk(edges, cur, v[i..])
      {
        assert v[i..][1..] == v[i + 1..];
        var c := v[i];
        var from: nat := cur;
        for k := 0 to |edges|
          invariant cur == from
          invariant forall m {:trigger Leaves(edges[m], from, c)} :: 0 <= m < k ==> !Leaves(edges[m], from, c)
        {
          if edges[k].source == from && edges[k].letter == c {
            assert Leaves(edges[k], from, c);
            assert FirstEdge(edges, from, c) == Some(k);
            cur := edges[k].target;
            break;
          }
        }
      }
      r := cur;
    }

    /** `Trie::nexts`: the labels of the edges leaving `n`. */
    method Nexts(n: nat) returns (r: seq<char>)
      requires Valid()
      ensures forall c :: c in r <==> Step(graph.edges, n, c).Some?
      ensures forall a, b :: 0 <= a < b < |r| && r[a] == r[b] ==> r[a] == EndOfWord
    {
      var edges := graph.edges;
      r := [];
      for k := 0 to |edges|
        invariant forall c :: c in r <==> exists m :: 0 <= m < k && Leaves(edges[m], n, c)
        invariant forall a, b :: 0 <= a < b < |r| && r[a] == r[b] ==> r[a] == EndOfWord
      {
        if edges[k].source == n {
          var c := edges[k].letter;
          if c in r {
            var m :| 0 <= m < k && Leaves(edges[m], n, c);
            assert SameLabel(edges[m], edges[k]);
          }
          r := r + [c];
        }
      }
    }
  }

  /** Every listed word whose file matches its first two letters is stored:
      following it from the root reaches a node with an end-of-word edge. */
  lemma StoredWordsReachEnd(t: Trie, lists: WordLists, w: string)
    requires t.Valid()
    requires forall i, j, v :: IsCapital(i) && IsCapital(j) && v in lists(i, j) ==> Accepts(t.graph.edges, Key(i, j, v))
    requires |w| >= 2 && IsCapital(w[0]) && IsCapital(w[1]) && w in lists(w[0], w[1])
    ensures Walk(t.graph.edges, t.Root(), w).Some?
    ensures Step(t.graph.edges, Walk(t.graph.edges, t.Root(), w).value, EndOfWord).Some?
  {
    assert Key(w[0], w[1], w) == w;
  }
}
