/** The lineage walker: an index over `metadata.prior_card_id`, a walk up the
    ancestors of a card and a breadth-first walk down its descendants. */
module Lineage {
  import opened Find
  import opened Json

  function Metadata(row: CardRow, key: string): Option<string> {
    AsStr(Child(Child(Some(row.full), "metadata"), key))
  }

  function Prior(row: CardRow): Option<string> {
    Metadata(row, "prior_card_id")
  }

  function Relation(row: CardRow): Option<string> {
    Metadata(row, "prior_relation")
  }

  /** No filter passes everything; a filter never passes a missing relation. */
  predicate RelationPasses(filter: Option<seq<string>>, relation: Option<string>) {
    filter.None? || (relation.Some? && relation.value in filter.value)
  }

  // ----- the index -----

  datatype CardIndex = CardIndex(cards: map<string, CardRow>, children: map<string, seq<string>>)

  function Id(row: CardRow): string {
    row.summary.cardId
  }

  /** Ids of the rows whose prior is p, in scan order. */
  function ChildIds(rows: seq<CardRow>, p: string): seq<string> {
    if rows == [] then []
    else
      var n := |rows| - 1;
      ChildIds(rows[..n], p) + if Prior(rows[n]) == Some(p) then [Id(rows[n])] else []
  }

  /** The last row with that id. */
  function Kept(rows: seq<CardRow>, id: string): Option<CardRow> {
    if rows == [] then None
    else if Id(rows[|rows| - 1]) == id then Some(rows[|rows| - 1])
    else Kept(rows[..|rows| - 1], id)
  }

  /** Every id maps to the last row with that id, every parent to all its children. */
  ghost predicate Indexes(index: CardIndex, rows: seq<CardRow>) {
    && (forall id :: id in index.cards <==> Kept(rows, id).Some?)
    && (forall id | id in index.cards :: index.cards[id] == Kept(rows, id).value)
    && (forall p :: p in index.children <==> ChildIds(rows, p) != [])
    && (forall p | p in index.children :: index.children[p] == ChildIds(rows, p))
  }

  lemma {:induction false} KeptIsRow(rows: seq<CardRow>, id: string)
    ensures Kept(rows, id).Some? <==> exists i | 0 <= i < |rows| :: Id(rows[i]) == id
    ensures Kept(rows, id).Some? ==> Kept(rows, id).value in rows && Id(Kept(rows, id).value) == id
  {
    if rows != [] {
      var n := |rows| - 1;
      KeptIsRow(rows[..n], id);
      if i :| 0 <= i < |rows[..n]| && Id(rows[..n][i]) == id {
        assert rows[i] == rows[..n][i];
      }
      if i :| 0 <= i < n && Id(rows[i]) == id {
        assert rows[..n][i] == rows[i];
      }
    }
  }

  method LoadCardIndex(rows: seq<CardRow>) returns (index: CardIndex)
    ensures Indexes(index, rows)
  {
    var cards: map<string, CardRow> := map[];
    var children: map<string, seq<string>> := map[];
    for i := 0 to |rows|
      invariant Indexes(CardIndex(cards, children), rows[..i])
    {
      var id, prior := Id(rows[i]), Prior(rows[i]);
      ghost var before := CardIndex(cards, children);
      if prior.Some? {
        var p := prior.value;
        children := children[p := (if p in children then children[p] else []) + [id]];
      }
      cards := cards[id := rows[i]];
      IndexOneMore(before, CardIndex(cards, children), rows, i);
    }
    assert rows[..|rows|] == rows;
    index := CardIndex(cards, children);
  }

  lemma IndexOneMore(before: CardIndex, after: CardIndex, rows: seq<CardRow>, i: nat)
    requires i < |rows| && Indexes(before, rows[..i])
    requires after.cards == before.cards[Id(rows[i]) := rows[i]]
    requires after.children == match Prior(rows[i])
                               case None => before.children
                               case Some(p) => before.children[p :=
                                 (if p in before.children then before.children[p] else []) + [Id(rows[i])]]
    ensures Indexes(after, rows[..i + 1])
  {
    hide Prior, Id;
    var upTo := rows[..i + 1];
    assert upTo == rows[..i] + [rows[i]];
    forall id: string
      ensures Kept(upTo, id) == if Id(rows[i]) == id then Some(rows[i]) else Kept(rows[..i], id)
    {
      assert upTo[..i] == rows[..i];
    }
    forall p: string
      ensures p in after.children <==> ChildIds(upTo, p) != []
      ensures p in after.children ==> after.children[p] == ChildIds(upTo, p)
    {
      ChildIdsSnoc(rows[..i], rows[i], p);
    }
  }

  lemma ChildIdsSnoc(rows: seq<CardRow>, row: CardRow, p: string)
    ensures ChildIds(rows + [row], p) == ChildIds(rows, p) + if Prior(row) == Some(p) then [Id(row)] else []
  {
    assert (rows + [row])[..|rows|] == rows;
  }

  // ----- links -----

  datatype LineageCtx = LineageCtx(index: CardIndex, filter: Option<seq<string>>,
    includeStats: bool, maxDepth: nat)

  /** Rows are filed under their own ids. */
  ghost predicate Filed(ctx: LineageCtx) {
    forall id | id in ctx.index.cards :: Id(ctx.index.cards[id]) == id
  }

  /** c is an indexed child of p whose relation passes the filter. */
  predicate Link(ctx: LineageCtx, c: string, p: string) {
    && c in ctx.index.cards && p in ctx.index.children && c in ctx.index.children[p]
    && RelationPasses(ctx.filter, Relation(ctx.index.cards[c]))
  }

  /** p is the card that c names as its prior, and c's relation passes the filter. */
  predicate PriorLink(ctx: LineageCtx, c: string, p: string) {
    && c in ctx.index.cards && Prior(ctx.index.cards[c]) == Some(p)
    && RelationPasses(ctx.filter, Relation(ctx.index.cards[c]))
  }

  lemma {:induction false} ChildIdsMembers(rows: seq<CardRow>, p: string, c: string)
    ensures c in ChildIds(rows, p) <==> exists i | 0 <= i < |rows| :: Id(rows[i]) == c && Prior(rows[i]) == Some(p)
  {
    if rows != [] {
      var n := |rows| - 1;
      ChildIdsMembers(rows[..n], p, c);
      if i :| 0 <= i < |rows[..n]| && Id(rows[..n][i]) == c && Prior(rows[..n][i]) == Some(p) {
        assert rows[i] == rows[..n][i];
      }
      if i :| 0 <= i < |rows| && Id(rows[i]) == c && Prior(rows[i]) == Some(p) && i < n {
        assert rows[..n][i] == rows[i];
      }
    }
  }

  /** Every row that names a prior names the one its id's indexed card names.
      Unique ids are a special case; the store itself checks ids only within
      one package. */
  predicate AgreeingPriors(ctx: LineageCtx, rows: seq<CardRow>)
  {
    forall i | 0 <= i < |rows| && Prior(rows[i]).Some? && Id(rows[i]) in ctx.index.cards ::
      Prior(rows[i]) == Prior(ctx.index.cards[Id(rows[i])])
  }

  lemma UniqueIdsAgree(ctx: LineageCtx, rows: seq<CardRow>)
    requires Indexes(ctx.index, rows)
    requires forall i, j | 0 <= i < j < |rows| :: Id(rows[i]) != Id(rows[j])
    ensures AgreeingPriors(ctx, rows)
  {
    forall i | 0 <= i < |rows|
      ensures Kept(rows, Id(rows[i])) == Some(rows[i])
    {
      KeptIsRow(rows, Id(rows[i]));
    }
  }

  /** Where rows agree with the card kept for their id, the reverse index and
      the cards tell the same links. */
  lemma LinkIsPriorLink(ctx: LineageCtx, rows: seq<CardRow>, c: string, p: string)
    requires Indexes(ctx.index, rows) && AgreeingPriors(ctx, rows)
    ensures Link(ctx, c, p) <==> PriorLink(ctx, c, p)
  {
    ChildIdsMembers(rows, p, c);
    KeptIsRow(rows, c);
  }

  ghost predicate SameLinks(ctx: LineageCtx) {
    forall c, p :: Link(ctx, c, p) <==> PriorLink(ctx, c, p)
  }

  /** And only there: without a filter, a row that names another prior than the
      card kept for its id leaves a link in the index that this card does not have. */
  lemma SameLinksExactly(ctx: LineageCtx, rows: seq<CardRow>)
    requires Indexes(ctx.index, rows) && ctx.filter.None?
    ensures SameLinks(ctx) <==> AgreeingPriors(ctx, rows)
  {
    hide Link, PriorLink;
    if AgreeingPriors(ctx, rows) {
      forall c, p
        ensures Link(ctx, c, p) <==> PriorLink(ctx, c, p)
      {
        LinkIsPriorLink(ctx, rows, c, p);
      }
    }
    if SameLinks(ctx) {
      forall i | 0 <= i < |rows| && Prior(rows[i]).Some? && Id(rows[i]) in ctx.index.cards
        ensures Prior(rows[i]) == Prior(ctx.index.cards[Id(rows[i])])
      {
        PriorIsKept(ctx, rows, i);
      }
    }
  }

  lemma PriorIsKept(ctx: LineageCtx, rows: seq<CardRow>, i: nat)
    requires Indexes(ctx.index, rows) && ctx.filter.None? && SameLinks(ctx) && i < |rows|
    requires Prior(rows[i]).Some? && Id(rows[i]) in ctx.index.cards
    ensures Prior(rows[i]) == Prior(ctx.index.cards[Id(rows[i])])
  {
    hide Prior;
    var c, p := Id(rows[i]), Prior(rows[i]).value;
    KeptIsRow(rows, c);
    ChildIdsMembers(rows, p, c);
    assert Link(ctx, c, p);
    assert PriorLink(ctx, c, p);
  }

  // ----- walk results -----

  datatype LineageNode = LineageNode(cardId: string, pkg: string, prior: Option<string>,
    relation: Option<string>, depth: int, stats: Option<Json>)

  datatype LineageEdge = LineageEdge(from: string, to: string, relation: Option<string>)

  function MakeNode(row: CardRow, depth: int, includeStats: bool): LineageNode {
    LineageNode(Id(row), row.summary.pkg, Prior(row), Relation(row), depth,
      if includeStats then Child(Some(row.full), "stats") else None)
  }

  /** One step of a walk: card was reached from via; negative depths are up. */
  datatype Step = Step(card: string, via: string, depth: int)

  function StepEdge(ctx: LineageCtx, s: Step): LineageEdge
    requires s.card in ctx.index.cards && s.via in ctx.index.cards
  {
    if s.depth > 0 then LineageEdge(s.card, s.via, Relation(ctx.index.cards[s.card]))
    else LineageEdge(s.via, s.card, Relation(ctx.index.cards[s.via]))
  }

  predicate StepsIndexed(ctx: LineageCtx, steps: seq<Step>) {
    forall i | 0 <= i < |steps| :: steps[i].card in ctx.index.cards && steps[i].via in ctx.index.cards
  }

  function NodesOf(ctx: LineageCtx, steps: seq<Step>): seq<LineageNode>
    requires StepsIndexed(ctx, steps)
  {
    seq(|steps|, i requires 0 <= i < |steps| =>
      MakeNode(ctx.index.cards[steps[i].card], steps[i].depth, ctx.includeStats))
  }

  function EdgesOf(ctx: LineageCtx, steps: seq<Step>): seq<LineageEdge>
    requires StepsIndexed(ctx, steps)
  {
    seq(|steps|, i requires 0 <= i < |steps| => StepEdge(ctx, steps[i]))
  }

  /** card is the root at depth 0 or was reached at depth d. */
  ghost predicate HasDepth(root: string, steps: seq<Step>, card: string, d: int) {
    (card == root && d == 0) || exists i | 0 <= i < |steps| :: steps[i].card == card && steps[i].depth == d
  }

  /** The step leaves a card already listed, along a real link, one level on. */
  ghost predicate GoodStep(ctx: LineageCtx, root: string, before: seq<Step>, s: Step) {
    && s.card in ctx.index.cards && s.via in ctx.index.cards && s.depth != 0
    && (if s.depth > 0 then Link(ctx, s.card, s.via) && HasDepth(root, before, s.via, s.depth - 1)
        else PriorLink(ctx, s.via, s.card) && HasDepth(root, before, s.via, s.depth + 1))
  }

  /** The walk so far is a tree rooted at root that never repeats a card. */
  ghost predicate IsTree(ctx: LineageCtx, root: string, steps: seq<Step>) {
    && root in ctx.index.cards
    && (forall i | 0 <= i < |steps| :: GoodStep(ctx, root, steps[..i], steps[i]))
    && (forall i | 0 <= i < |steps| :: steps[i].card != root)
    && (forall i, j | 0 <= i < j < |steps| :: steps[i].card != steps[j].card)
  }

  ghost function Listed(root: string, steps: seq<Step>): set<string> {
    {root} + set i | 0 <= i < |steps| :: steps[i].card
  }

  lemma TreeSnoc(ctx: LineageCtx, root: string, steps: seq<Step>, s: Step)
    requires IsTree(ctx, root, steps) && GoodStep(ctx, root, steps, s)
    requires s.card !in Listed(root, steps)
    ensures IsTree(ctx, root, steps + [s])
    ensures Listed(root, steps + [s]) == Listed(root, steps) + {s.card}
  {
    var more := steps + [s];
    assert more[..|steps|] == steps;
    forall i | 0 <= i < |more|
      ensures GoodStep(ctx, root, more[..i], more[i])
    {
      if i < |steps| {
        assert more[..i] == steps[..i];
      }
    }
    forall i | 0 <= i < |steps|
      ensures steps[i].card in Listed(root, steps)
    {
    }
    forall c
      ensures c in Listed(root, more) <==> c in Listed(root, steps) || c == s.card
    {
      if c == s.card {
        assert more[|steps|].card == c;
      }
      if i :| 0 <= i < |steps| && steps[i].card == c {
        assert more[i].card == c;
      }
    }
  }

  lemma NodesSnoc(ctx: LineageCtx, steps: seq<Step>, s: Step)
    requires StepsIndexed(ctx, steps + [s])
    ensures StepsIndexed(ctx, steps) && s.card in ctx.index.cards && s.via in ctx.index.cards
    ensures NodesOf(ctx, steps + [s])
         == NodesOf(ctx, steps) + [MakeNode(ctx.index.cards[s.card], s.depth, ctx.includeStats)]
    ensures EdgesOf(ctx, steps + [s]) == EdgesOf(ctx, steps) + [StepEdge(ctx, s)]
  {
    var more := steps + [s];
    assert more[|steps|] == s;
    forall i | 0 <= i < |steps|
      ensures steps[i].card in ctx.index.cards && steps[i].via in ctx.index.cards
    {
      assert more[i] == steps[i];
    }
  }

  lemma TreeIsIndexed(ctx: LineageCtx, root: string, steps: seq<Step>)
    requires IsTree(ctx, root, steps)
    ensures StepsIndexed(ctx, steps)
  {
    forall i | 0 <= i < |steps|
      ensures steps[i].card in ctx.index.cards && steps[i].via in ctx.index.cards
    {
      assert GoodStep(ctx, root, steps[..i], steps[i]);
    }
  }

  // ----- ancestors -----

  /** The parent an up-walk moves to from cur, given what is already listed. */
  function UpStep(ctx: LineageCtx, seen: set<string>, cur: string): Option<string> {
    if cur !in ctx.index.cards then None else
    var row := ctx.index.cards[cur];
    var p := Prior(row);
    if p.None? || !RelationPasses(ctx.filter, Relation(row)) || p.value in seen
       || p.value !in ctx.index.cards then None
    else p
  }

  /** The steps of an up-walk that stands at cur, `from` levels above the root. */
  function UpWalk(ctx: LineageCtx, seen: set<string>, cur: string, from: nat, depth: nat): seq<Step>
    decreases depth
  {
    if depth == 0 || UpStep(ctx, seen, cur).None? then []
    else
      var p := UpStep(ctx, seen, cur).value;
      [Step(p, cur, -(from as int) - 1)] + UpWalk(ctx, seen + {p}, p, from + 1, depth - 1)
  }

  /** The last card reached. */
  function Topmost(root: string, steps: seq<Step>): string {
    if steps == [] then root else steps[|steps| - 1].card
  }

  /** The final check of the up-walk: it stopped for depth, and the last card
      names an indexed prior that is not listed. The relation is not consulted. */
  ghost predicate UpTruncated(ctx: LineageCtx, root: string, steps: seq<Step>) {
    var last := Topmost(root, steps);
    && |steps| == ctx.maxDepth && last in ctx.index.cards
    && (var p := Prior(ctx.index.cards[last]);
        p.Some? && p.value in ctx.index.cards && p.value !in Listed(root, steps))
  }

  // ----- descendants, as layers of a bounded search -----

  /** Cards at link distance d below start, around the cards in seen. */
  ghost function Layer(ctx: LineageCtx, seen: set<string>, start: string, d: nat): set<string>
    decreases d, 0
  {
    if d == 0 then {start}
    else set c | c in ctx.index.cards && c !in seen && c !in Upto(ctx, seen, start, d - 1)
             && Reached(ctx, Layer(ctx, seen, start, d - 1), c)
  }

  ghost function Upto(ctx: LineageCtx, seen: set<string>, start: string, d: nat): set<string>
    decreases d, 1
  {
    Layer(ctx, seen, start, d) + if d == 0 then {} else Upto(ctx, seen, start, d - 1)
  }

  ghost predicate Reached(ctx: LineageCtx, parents: set<string>, c: string) {
    exists p | p in parents :: Link(ctx, c, p)
  }

  /** The new steps are exactly the layers 1 to k. */
  ghost predicate ExactLayers(ctx: LineageCtx, seen: set<string>, start: string, steps: seq<Step>, k: nat) {
    && (forall i | 0 <= i < |steps| ::
          1 <= steps[i].depth <= k && steps[i].card in Layer(ctx, seen, start, steps[i].depth))
    && (forall d, c | 1 <= d <= k && c in Layer(ctx, seen, start, d) ::
          exists i | 0 <= i < |steps| :: steps[i].card == c && steps[i].depth == d)
  }

  function CardsOf(steps: seq<Step>): (ids: seq<string>)
    ensures |ids| == |steps| && forall i | 0 <= i < |ids| :: ids[i] == steps[i].card
  {
    seq(|steps|, i requires 0 <= i < |steps| => steps[i].card)
  }

  ghost function SetOf(ids: seq<string>): set<string> {
    set i | 0 <= i < |ids| :: ids[i]
  }

  /** Every step goes one link down from the frontier, to a card not yet seen. */
  ghost predicate LevelSteps(ctx: LineageCtx, seen: set<string>, frontier: seq<string>, steps: seq<Step>,
      depth: int)
  {
    forall i | 0 <= i < |steps| :: steps[i].depth == depth && steps[i].via in frontier
        && Link(ctx, steps[i].card, steps[i].via) && steps[i].card !in seen
  }

  ghost predicate AllVisited(ctx: LineageCtx, frontier: seq<string>, seen: set<string>) {
    forall c, p | p in frontier && Link(ctx, c, p) :: c in seen
  }

  /** One level of the search fills exactly the next layer. */
  lemma LevelIsLayer(ctx: LineageCtx, seen: set<string>, start: string, frontier: seq<string>,
      level: seq<Step>, d: nat)
    requires d > 0 && SetOf(frontier) == Layer(ctx, seen, start, d - 1)
    requires LevelSteps(ctx, seen + Upto(ctx, seen, start, d - 1), frontier, level, d)
    requires AllVisited(ctx, frontier, seen + Upto(ctx, seen, start, d - 1) + SetOf(CardsOf(level)))
    ensures SetOf(CardsOf(level)) == Layer(ctx, seen, start, d)
  {
    var cards, layer := SetOf(CardsOf(level)), Layer(ctx, seen, start, d);
    forall c | c in cards
      ensures c in layer
    {
      var i :| 0 <= i < |level| && level[i].card == c;
      FrontierMember(frontier, level[i].via);
      assert Reached(ctx, Layer(ctx, seen, start, d - 1), c);
    }
    forall c | c in layer
      ensures c in cards
    {
      var p :| p in Layer(ctx, seen, start, d - 1) && Link(ctx, c, p);
      FrontierMember(frontier, p);
    }
  }

  lemma FrontierMember(frontier: seq<string>, p: string)
    ensures p in frontier <==> p in SetOf(frontier)
  {
    if p in frontier {
      var i :| 0 <= i < |frontier| && frontier[i] == p;
    }
  }

  lemma LayersGrow(ctx: LineageCtx, seen: set<string>, start: string, steps: seq<Step>, level: seq<Step>,
      d: nat)
    requires d > 0 && ExactLayers(ctx, seen, start, steps, d - 1)
    requires forall i | 0 <= i < |level| :: level[i].depth == d
    requires SetOf(CardsOf(level)) == Layer(ctx, seen, start, d)
    ensures ExactLayers(ctx, seen, start, steps + level, d)
  {
    hide Layer;
    var all := steps + level;
    forall i | 0 <= i < |all|
      ensures 1 <= all[i].depth <= d && all[i].card in Layer(ctx, seen, start, all[i].depth)
    {
      if i >= |steps| {
        assert all[i] == level[i - |steps|];
        assert CardsOf(level)[i - |steps|] in SetOf(CardsOf(level));
      }
    }
    forall e, c | 1 <= e <= d && c in Layer(ctx, seen, start, e)
      ensures exists i | 0 <= i < |all| :: all[i].card == c && all[i].depth == e
    {
      if e == d {
        var i :| 0 <= i < |level| && CardsOf(level)[i] == c;
        assert all[|steps| + i] == level[i];
      } else {
        var i :| 0 <= i < |steps| && steps[i].card == c && steps[i].depth == e;
        assert all[i] == steps[i];
      }
    }
  }

  /** Once a layer is empty, all deeper layers are. */
  lemma {:induction false} EmptyLayersStayEmpty(ctx: LineageCtx, seen: set<string>, start: string,
      d: nat, e: nat)
    requires Layer(ctx, seen, start, d) == {} && d <= e
    ensures Layer(ctx, seen, start, e) == {}
    decreases e
  {
    if d < e {
      EmptyLayersStayEmpty(ctx, seen, start, d, e - 1);
    }
  }

  lemma DeeperLayersEmpty(ctx: LineageCtx, seen: set<string>, start: string, steps: seq<Step>, d: nat, k: nat)
    requires ExactLayers(ctx, seen, start, steps, d) && Layer(ctx, seen, start, d + 1) == {} && d <= k
    ensures ExactLayers(ctx, seen, start, steps, k)
  {
    hide Layer;
    forall e, c | 1 <= e <= k && c in Layer(ctx, seen, start, e)
      ensures exists i | 0 <= i < |steps| :: steps[i].card == c && steps[i].depth == e
    {
      if e > d {
        EmptyLayersStayEmpty(ctx, seen, start, d + 1, e);
      }
    }
  }

  lemma HasDepthGrows(root: string, before: seq<Step>, after: seq<Step>, card: string, d: int)
    requires before <= after && HasDepth(root, before, card, d)
    ensures HasDepth(root, after, card, d)
  {
    if i :| 0 <= i < |before| && before[i].card == card && before[i].depth == d {
      assert after[i] == before[i];
    }
  }

  lemma HasDepthIndexed(ctx: LineageCtx, root: string, steps: seq<Step>, card: string, d: int)
    requires IsTree(ctx, root, steps) && HasDepth(root, steps, card, d)
    ensures card in ctx.index.cards && card in Listed(root, steps)
  {
    if i :| 0 <= i < |steps| && steps[i].card == card && steps[i].depth == d {
      assert GoodStep(ctx, root, steps[..i], steps[i]);
    }
  }

  // ----- the walk -----

  class Walk {
    const ctx: LineageCtx
    const root: string
    var nodes: seq<LineageNode>
    var edges: seq<LineageEdge>
    var visited: set<string>
    var truncated: bool
    ghost var steps: seq<Step>

    ghost predicate Valid()
      reads this
    {
      && Filed(ctx) && IsTree(ctx, root, steps) && StepsIndexed(ctx, steps)
      && nodes == [MakeNode(ctx.index.cards[root], 0, ctx.includeStats)] + NodesOf(ctx, steps)
      && edges == EdgesOf(ctx, steps)
      && visited == Listed(root, steps)
    }

    constructor (ctx: LineageCtx, root: string)
      requires Filed(ctx) && root in ctx.index.cards
      ensures Valid() && this.ctx == ctx && this.root == root
      ensures steps == [] && !truncated
    {
      this.ctx, this.root := ctx, root;
      nodes := [MakeNode(ctx.index.cards[root], 0, ctx.includeStats)];
      edges, visited, truncated, steps := [], {root}, false, [];
    }

    /** Push one node and its edge. */
    method Push(card: string, via: string, depth: int)
      requires Valid() && GoodStep(ctx, root, steps, Step(card, via, depth)) && card !in visited
      modifies this
      ensures Valid() && steps == old(steps) + [Step(card, via, depth)]
      ensures visited == old(visited) + {card} && truncated == old(truncated)
    {
      hide IsTree, Listed, NodesOf, EdgesOf, StepsIndexed, MakeNode, GoodStep;
      StepEndsIndexed(ctx, root, steps, Step(card, via, depth));
      var s := Step(card, via, depth);
      nodes := nodes + [MakeNode(ctx.index.cards[card], depth, ctx.includeStats)];
      edges := edges + [StepEdge(ctx, s)];
      visited := visited + {card};
      TreeSnoc(ctx, root, steps, s);
      TreeIsIndexed(ctx, root, steps + [s]);
      NodesSnoc(ctx, steps, s);
      steps := steps + [s];
    }

    /** Follow `prior_card_id` from the root. */
    method WalkUp()
      requires Valid() && steps == []
      modifies this
      ensures Valid() && steps == UpWalk(ctx, {root}, root, 0, ctx.maxDepth)
      ensures truncated == (old(truncated) || UpTruncated(ctx, root, steps))
    {
      hide IsTree, Listed, NodesOf, EdgesOf, StepsIndexed, MakeNode, Prior, Relation, RelationPasses;
      NothingListed(root);
      RootIndexed(ctx, root, steps);
      var cur := root;
      ghost var goal := UpWalk(ctx, {root}, root, 0, ctx.maxDepth);
      for step := 1 to ctx.maxDepth + 1
        invariant Valid() && truncated == old(truncated)
        invariant |steps| == step - 1 && cur == Topmost(root, steps) && cur in ctx.index.cards
        invariant goal == steps + UpWalk(ctx, visited, cur, step - 1, ctx.maxDepth - (step - 1))
        invariant HasDepth(root, steps, cur, -(step - 1))
      {
        var row := ctx.index.cards[cur];
        var prior := Prior(row);
        if prior.None? {
          return;
        }
        if !RelationPasses(ctx.filter, Relation(row)) {
          return;
        }
        if prior.value in visited {
          return;
        }
        if prior.value !in ctx.index.cards {
          return;
        }
        ghost var before, p := steps, prior.value;
        Push(prior.value, cur, -step);
        ghost var rest := UpWalk(ctx, visited, p, step, ctx.maxDepth - step);
        assert goal == before + ([Step(p, cur, -step)] + rest);
        assert goal == steps + rest;
        assert steps[|before|] == Step(p, cur, -step);
        cur := prior.value;
      }
      var last := Prior(ctx.index.cards[cur]);
      if last.Some? && last.value in ctx.index.cards && last.value !in visited {
        truncated := true;
      }
    }

    /** Push every unlisted, filter-passing child of one parent. */
    method VisitChildren(parent: string, depth: nat) returns (out: seq<string>)
      requires Valid() && depth > 0 && HasDepth(root, steps, parent, depth - 1)
      modifies this
      ensures Valid() && old(steps) <= steps && truncated == old(truncated)
      ensures LevelSteps(ctx, old(visited), [parent], steps[|old(steps)|..], depth)
      ensures out == CardsOf(steps[|old(steps)|..])
      ensures visited == old(visited) + SetOf(out)
      ensures AllVisited(ctx, [parent], visited)
    {
      hide IsTree, Listed, NodesOf, EdgesOf, StepsIndexed, MakeNode, HasDepth, Relation, RelationPasses;
      out := [];
      if parent !in ctx.index.children {
        return;
      }
      HasDepthIndexed(ctx, root, steps, parent, depth - 1);
      var children := ctx.index.children[parent];
      for i := 0 to |children|
        invariant Valid() && old(steps) <= steps && truncated == old(truncated)
        invariant HasDepth(root, steps, parent, depth - 1)
        invariant LevelSteps(ctx, old(visited), [parent], steps[|old(steps)|..], depth)
        invariant out == CardsOf(steps[|old(steps)|..])
        invariant visited == old(visited) + SetOf(out)
        invariant forall j | 0 <= j < i && Link(ctx, children[j], parent) :: children[j] in visited
      {
        var child := children[i];
        if child in visited || child !in ctx.index.cards {
          continue;
        }
        if !RelationPasses(ctx.filter, Relation(ctx.index.cards[child])) {
          continue;
        }
        ghost var before, ids := steps, out;
        Push(child, parent, depth);
        HasDepthGrows(root, before, steps, parent, depth - 1);
        out := out + [child];
        assert steps[|old(steps)|..] == before[|old(steps)|..] + [Step(child, parent, depth)];
        SetOfSnoc(ids, child);
      }
    }

    /** One level of the search: the cards found become the next frontier. */
    method VisitLevel(frontier: seq<string>, depth: nat) returns (next: seq<string>)
      requires Valid() && depth > 0
      requires forall i | 0 <= i < |frontier| :: HasDepth(root, steps, frontier[i], depth - 1)
      modifies this
      ensures Valid() && old(steps) <= steps && truncated == old(truncated)
      ensures LevelSteps(ctx, old(visited), frontier, steps[|old(steps)|..], depth)
      ensures next == CardsOf(steps[|old(steps)|..])
      ensures visited == old(visited) + SetOf(next)
      ensures AllVisited(ctx, frontier, visited)
    {
      hide IsTree, Listed, NodesOf, EdgesOf, StepsIndexed, MakeNode, HasDepth, Link;
      next := [];
      for i := 0 to |frontier|
        invariant Valid() && old(steps) <= steps && truncated == old(truncated)
        invariant forall j | 0 <= j < |frontier| :: HasDepth(root, steps, frontier[j], depth - 1)
        invariant LevelSteps(ctx, old(visited), frontier, steps[|old(steps)|..], depth)
        invariant next == CardsOf(steps[|old(steps)|..])
        invariant visited == old(visited) + SetOf(next)
        invariant AllVisited(ctx, frontier[..i], visited)
      {
        ghost var before, ids := steps, next;
        var found := VisitChildren(frontier[i], depth);
        next := next + found;
        forall j | 0 <= j < |frontier|
          ensures HasDepth(root, steps, frontier[j], depth - 1)
        {
          HasDepthGrows(root, before, steps, frontier[j], depth - 1);
        }
        assert steps[|old(steps)|..] == before[|old(steps)|..] + steps[|before|..];
        SetOfConcat(ids, found);
        assert forall p | p in frontier[..i + 1] :: p in frontier[..i] || p in [frontier[i]];
      }
      assert frontier[..|frontier|] == frontier;
    }

    /** The final check of the descent. */
    method AnyUnvisitedChild(frontier: seq<string>) returns (any: bool)
      ensures any <==> !AllVisited(ctx, frontier, visited)
    {
      for i := 0 to |frontier|
        invariant AllVisited(ctx, frontier[..i], visited)
      {
        var parent := frontier[i];
        if parent in ctx.index.children {
          var children := ctx.index.children[parent];
          for j := 0 to |children|
            invariant forall k | 0 <= k < j && Link(ctx, children[k], parent) :: children[k] in visited
          {
            var child := children[j];
            if child in visited || child !in ctx.index.cards {
              continue;
            }
            if RelationPasses(ctx.filter, Relation(ctx.index.cards[child])) {
              assert parent in frontier && Link(ctx, child, parent);
              return true;
            }
          }
        }
        assert forall p | p in frontier[..i + 1] :: p in frontier[..i] || p == frontier[i];
      }
      assert frontier[..|frontier|] == frontier;
      return false;
    }

    /** Breadth-first descent through the reverse index. */
    method WalkDown()
      requires Valid()
      modifies this
      ensures Valid() && old(steps) <= steps
      ensures ExactLayers(ctx, old(visited), root, steps[|old(steps)|..], ctx.maxDepth)
      ensures truncated == (old(truncated) || Layer(ctx, old(visited), root, ctx.maxDepth + 1) != {})
    {
      hide IsTree, Listed, NodesOf, EdgesOf, StepsIndexed, MakeNode, HasDepth, Link, Layer, Upto,
        ExactLayers, LevelSteps, AllVisited;
      ghost var seen, n := visited, |steps|;
      LayersStart(ctx, seen, root, steps);
      var frontier := [root];
      var depth := 1;
      while depth <= ctx.maxDepth
        invariant 1 <= depth <= ctx.maxDepth + 1
        invariant Valid() && old(steps) <= steps && truncated == old(truncated)
        invariant forall i | 0 <= i < |frontier| :: HasDepth(root, steps, frontier[i], depth - 1)
        invariant SetOf(frontier) == Layer(ctx, seen, root, depth - 1)
        invariant visited == seen + Upto(ctx, seen, root, depth - 1)
        invariant ExactLayers(ctx, seen, root, steps[n..], depth - 1)
        decreases ctx.maxDepth + 1 - depth
      {
        ghost var before := steps;
        var next := VisitLevel(frontier, depth);
        ghost var level := steps[|before|..];
        LevelIsLayer(ctx, seen, root, frontier, level, depth);
        if next == [] {
          NothingListed(root);
          assert level == [] && steps == before;
          DeeperLayersEmpty(ctx, seen, root, steps[n..], depth - 1, ctx.maxDepth);
          EmptyLayersStayEmpty(ctx, seen, root, depth, ctx.maxDepth + 1);
          return;
        }
        LevelDone(ctx, seen, root, before, steps, n, frontier, depth);
        frontier := next;
        depth := depth + 1;
      }
      var more := AnyUnvisitedChild(frontier);
      FinalCheck(ctx, seen, root, frontier, ctx.maxDepth + 1);
      if more {
        truncated := true;
      }
    }
  }

  lemma LayersStart(ctx: LineageCtx, seen: set<string>, root: string, steps: seq<Step>)
    requires seen == Listed(root, steps)
    ensures Layer(ctx, seen, root, 0) == {root} == SetOf([root])
    ensures seen + Upto(ctx, seen, root, 0) == seen
    ensures ExactLayers(ctx, seen, root, steps[|steps|..], 0)
    ensures HasDepth(root, steps, root, 0)
  {
    assert SetOf([root]) == {root} by {
      assert [root][0] in SetOf([root]);
    }
  }

  lemma LevelDone(ctx: LineageCtx, seen: set<string>, root: string, before: seq<Step>, after: seq<Step>,
      n: nat, frontier: seq<string>, d: nat)
    requires n <= |before| && before <= after && d > 0
    requires ExactLayers(ctx, seen, root, before[n..], d - 1)
    requires LevelSteps(ctx, seen + Upto(ctx, seen, root, d - 1), frontier, after[|before|..], d)
    requires SetOf(CardsOf(after[|before|..])) == Layer(ctx, seen, root, d)
    ensures ExactLayers(ctx, seen, root, after[n..], d)
    ensures forall i | 0 <= i < |after[|before|..]| :: HasDepth(root, after, CardsOf(after[|before|..])[i], d)
    ensures seen + Upto(ctx, seen, root, d)
         == seen + Upto(ctx, seen, root, d - 1) + SetOf(CardsOf(after[|before|..]))
  {
    hide Layer, Link;
    var level := after[|before|..];
    assert after[n..] == before[n..] + level;
    LayersGrow(ctx, seen, root, before[n..], level, d);
    forall i | 0 <= i < |level|
      ensures HasDepth(root, after, CardsOf(level)[i], d)
    {
      assert after[|before| + i] == level[i];
    }
  }

  /** The final check sees exactly whether the next layer is empty. */
  lemma FinalCheck(ctx: LineageCtx, seen: set<string>, start: string, frontier: seq<string>, d: nat)
    requires d > 0 && SetOf(frontier) == Layer(ctx, seen, start, d - 1)
    ensures AllVisited(ctx, frontier, seen + Upto(ctx, seen, start, d - 1))
       <==> Layer(ctx, seen, start, d) == {}
  {
    var known := seen + Upto(ctx, seen, start, d - 1);
    if !AllVisited(ctx, frontier, known) {
      var c, p :| p in frontier && Link(ctx, c, p) && c !in known;
      FrontierMember(frontier, p);
      assert c in Layer(ctx, seen, start, d);
    }
    if Layer(ctx, seen, start, d) != {} {
      var c :| c in Layer(ctx, seen, start, d);
      var p :| p in Layer(ctx, seen, start, d - 1) && Link(ctx, c, p);
      FrontierMember(frontier, p);
    }
  }

  lemma SetOfSnoc(ids: seq<string>, c: string)
    ensures SetOf(ids + [c]) == SetOf(ids) + {c}
  {
    SetOfConcat(ids, [c]);
    assert SetOf([c]) == {c} by {
      assert [c][0] in SetOf([c]);
    }
  }

  lemma SetOfConcat(a: seq<string>, b: seq<string>)
    ensures SetOf(a + b) == SetOf(a) + SetOf(b)
  {
    forall c
      ensures c in SetOf(a + b) <==> c in SetOf(a) || c in SetOf(b)
    {
      FrontierMember(a, c);
      FrontierMember(b, c);
      FrontierMember(a + b, c);
    }
  }

  lemma StepEndsIndexed(ctx: LineageCtx, root: string, before: seq<Step>, s: Step)
    requires GoodStep(ctx, root, before, s)
    ensures s.card in ctx.index.cards && s.via in ctx.index.cards
  {
  }

  lemma NothingListed(root: string)
    ensures Listed(root, []) == {root}
  {
  }

  lemma RootIndexed(ctx: LineageCtx, root: string, steps: seq<Step>)
    requires IsTree(ctx, root, steps)
    ensures root in ctx.index.cards
  {
  }

  // ----- the query -----

  datatype LineageDirection = Up | Down | Both

  datatype LineageQuery = LineageQuery(cardId: string, direction: LineageDirection, depth: Option<nat>,
    includeStats: bool, relationFilter: Option<seq<string>>)

  datatype LineageResult = LineageResult(root: string, nodes: seq<LineageNode>, edges: seq<LineageEdge>,
    truncated: bool)

  const DEFAULT_LINEAGE_DEPTH := 10

  function Ctx(index: CardIndex, q: LineageQuery): LineageCtx {
    LineageCtx(index, q.relationFilter, q.includeStats, GetOr(q.depth, DEFAULT_LINEAGE_DEPTH))
  }

  /** A result is the rendering of a tree of steps: an up-walk, then the layers
      below the root around the ancestors already listed. */
  ghost predicate IsLineage(r: LineageResult, ctx: LineageCtx, direction: LineageDirection,
      up: seq<Step>, down: seq<Step>)
  {
    && IsTree(ctx, r.root, up + down) && StepsIndexed(ctx, up + down)
    && r.nodes == [MakeNode(ctx.index.cards[r.root], 0, ctx.includeStats)] + NodesOf(ctx, up + down)
    && r.edges == EdgesOf(ctx, up + down)
    && up == (if direction.Down? then [] else UpWalk(ctx, {r.root}, r.root, 0, ctx.maxDepth))
    && (if direction.Up? then down == []
        else ExactLayers(ctx, Listed(r.root, up), r.root, down, ctx.maxDepth))
    && (r.truncated <==>
          (!direction.Down? && UpTruncated(ctx, r.root, up))
          || (!direction.Up? && Layer(ctx, Listed(r.root, up), r.root, ctx.maxDepth + 1) != {}))
  }

  lemma IndexIsFiled(index: CardIndex, rows: seq<CardRow>)
    requires Indexes(index, rows)
    ensures forall id | id in index.cards :: Id(index.cards[id]) == id
  {
    forall id | id in index.cards
      ensures Id(index.cards[id]) == id
    {
      KeptIsRow(rows, id);
    }
  }

  /** Nothing is returned exactly when no card has the requested id. */
  method Lineage(rows: seq<CardRow>, q: LineageQuery)
      returns (r: Option<LineageResult>, ghost ctx: LineageCtx, ghost up: seq<Step>, ghost down: seq<Step>)
    ensures Indexes(ctx.index, rows) && ctx == Ctx(ctx.index, q)
    ensures r.None? <==> forall i | 0 <= i < |rows| :: Id(rows[i]) != q.cardId
    ensures r.Some? ==> r.value.root == q.cardId && IsLineage(r.value, ctx, q.direction, up, down)
  {
    hide IsTree, NodesOf, EdgesOf, StepsIndexed, UpWalk, UpTruncated, ExactLayers, Layer, MakeNode;
    var index := LoadCardIndex(rows);
    IndexIsFiled(index, rows);
    KeptIsRow(rows, q.cardId);
    ctx, up, down := Ctx(index, q), [], [];
    if q.cardId !in index.cards {
      return None, ctx, up, down;
    }
    var walk := new Walk(Ctx(index, q), q.cardId);
    NothingListed(q.cardId);
    assert [] + down == [];
    if q.direction.Up? || q.direction.Both? {
      walk.WalkUp();
      up := walk.steps;
    }
    if q.direction.Down? || q.direction.Both? {
      walk.WalkDown();
      down := walk.steps[|up|..];
    }
    assert walk.steps == up + down;
    r := Some(LineageResult(q.cardId, walk.nodes, walk.edges, walk.truncated));
  }

  // ----- main results: the shape of every result -----

  /** Nodes are pairwise distinct with the root first at depth 0; edge i joins
      node i + 1 to a node listed before it, one level nearer the root, and is a
      filter-passing child-to-prior link of the store. */
  lemma LineageIsTree(rows: seq<CardRow>, r: LineageResult, ctx: LineageCtx, direction: LineageDirection,
      up: seq<Step>, down: seq<Step>)
    requires Indexes(ctx.index, rows) && AgreeingPriors(ctx, rows) && IsLineage(r, ctx, direction, up, down)
    ensures |r.edges| == |r.nodes| - 1 && r.nodes[0].cardId == r.root && r.nodes[0].depth == 0
    ensures forall i, j | 0 <= i < j < |r.nodes| :: r.nodes[i].cardId != r.nodes[j].cardId
    ensures forall i | 0 <= i < |r.edges| :: RealLink(ctx, r.edges[i]) && JoinsEarlierNode(r, i)
  {
    hide *;
    IdsAndCounts(rows, r, ctx, direction, up, down);
    forall i | 0 <= i < |r.edges|
      ensures RealLink(ctx, r.edges[i]) && JoinsEarlierNode(r, i)
    {
      EdgeIsGood(rows, r, ctx, direction, up, down, i);
    }
  }

  /** A filter-passing link from a card to its prior, with the card's relation. */
  predicate RealLink(ctx: LineageCtx, e: LineageEdge) {
    PriorLink(ctx, e.from, e.to) && e.relation == Relation(ctx.index.cards[e.from])
  }

  ghost predicate JoinsEarlierNode(r: LineageResult, i: nat) {
    exists j | 0 <= j <= i :: JoinsEarlier(r, i, j)
  }

  lemma IdsAndCounts(rows: seq<CardRow>, r: LineageResult, ctx: LineageCtx, direction: LineageDirection,
      up: seq<Step>, down: seq<Step>)
    requires Indexes(ctx.index, rows) && IsLineage(r, ctx, direction, up, down)
    ensures |r.edges| == |up + down| == |r.nodes| - 1
    ensures r.nodes[0].cardId == r.root && r.nodes[0].depth == 0
    ensures forall i | 0 <= i < |up + down| ::
        r.nodes[i + 1].cardId == (up + down)[i].card && r.nodes[i + 1].depth == (up + down)[i].depth
    ensures StepsIndexed(ctx, up + down)
    ensures forall i | 0 <= i < |up + down| :: r.edges[i] == StepEdge(ctx, (up + down)[i])
    ensures forall i, j | 0 <= i < j < |r.nodes| :: r.nodes[i].cardId != r.nodes[j].cardId
  {
    hide UpWalk, UpTruncated, ExactLayers, Layer, Listed, GoodStep, Relation, Prior;
    IndexIsFiled(ctx.index, rows);
    var steps := up + down;
    forall i, j | 0 <= i < j < |r.nodes|
      ensures r.nodes[i].cardId != r.nodes[j].cardId
    {
      assert r.nodes[j].cardId == steps[j - 1].card;
      assert i > 0 ==> r.nodes[i].cardId == steps[i - 1].card;
    }
  }

  lemma StepOfLineage(r: LineageResult, ctx: LineageCtx, direction: LineageDirection,
      up: seq<Step>, down: seq<Step>, i: nat)
    requires IsLineage(r, ctx, direction, up, down) && i < |up + down|
    ensures GoodStep(ctx, r.root, (up + down)[..i], (up + down)[i])
  {
  }

  lemma EdgeIsGood(rows: seq<CardRow>, r: LineageResult, ctx: LineageCtx, direction: LineageDirection,
      up: seq<Step>, down: seq<Step>, i: nat)
    requires Indexes(ctx.index, rows) && AgreeingPriors(ctx, rows) && IsLineage(r, ctx, direction, up, down)
    requires i < |r.edges|
    ensures RealLink(ctx, r.edges[i]) && JoinsEarlierNode(r, i)
  {
    hide IsLineage, IsTree, NodesOf, EdgesOf, StepsIndexed, Link, PriorLink, Relation, Indexes, AgreeingPriors;
    IdsAndCounts(rows, r, ctx, direction, up, down);
    var steps := up + down;
    var s := steps[i];
    StepOfLineage(r, ctx, direction, up, down, i);
    LinkIsPriorLink(ctx, rows, s.card, s.via);
    var d := if s.depth > 0 then s.depth - 1 else s.depth + 1;
    assert HasDepth(r.root, steps[..i], s.via, d);
    if s.via == r.root && d == 0 {
      assert JoinsEarlier(r, i, 0);
    } else {
      var j :| 0 <= j < i && steps[..i][j].card == s.via && steps[..i][j].depth == d;
      assert steps[j] == steps[..i][j];
      assert JoinsEarlier(r, i, j + 1);
    }
  }

  /** Edge i joins node i + 1 and the earlier node j. */
  predicate JoinsEarlier(r: LineageResult, i: nat, j: nat) {
    && i < |r.edges| && j <= i && i + 1 < |r.nodes|
    && (var child, known, e := r.nodes[i + 1], r.nodes[j], r.edges[i];
        if child.depth > 0 then e.from == child.cardId && e.to == known.cardId && known.depth == child.depth - 1
        else e.from == known.cardId && e.to == child.cardId && known.depth == child.depth + 1)
  }

  // ----- main results: the descent is exact -----

  /** A chain of d filter-passing links from c down to start, all of its cards
      but the start outside seen. */
  ghost predicate Chain(ctx: LineageCtx, seen: set<string>, start: string, c: string, d: nat)
    decreases d
  {
    if d == 0 then c == start
    else c in ctx.index.cards && c !in seen && exists p :: Chain(ctx, seen, start, p, d - 1) && Link(ctx, c, p)
  }

  lemma {:induction false} LayerHasChain(ctx: LineageCtx, seen: set<string>, start: string, c: string, d: nat)
    requires c in Layer(ctx, seen, start, d)
    ensures Chain(ctx, seen, start, c, d)
    decreases d
  {
    if d > 0 {
      var p :| p in Layer(ctx, seen, start, d - 1) && Link(ctx, c, p);
      LayerHasChain(ctx, seen, start, p, d - 1);
    }
  }

  lemma {:induction false} UptoIsSomeLayer(ctx: LineageCtx, seen: set<string>, start: string, c: string, d: nat)
      returns (k: nat)
    requires c in Upto(ctx, seen, start, d)
    ensures k <= d && c in Layer(ctx, seen, start, k)
  {
    if c in Layer(ctx, seen, start, d) {
      k := d;
    } else {
      k := UptoIsSomeLayer(ctx, seen, start, c, d - 1);
    }
  }

  lemma {:induction false} UptoGrows(ctx: LineageCtx, seen: set<string>, start: string, d: nat, e: nat)
    requires d <= e
    ensures Upto(ctx, seen, start, d) <= Upto(ctx, seen, start, e)
    decreases e - d
  {
    if d < e {
      UptoGrows(ctx, seen, start, d, e - 1);
    }
  }

  lemma {:induction false} ChainIsCovered(ctx: LineageCtx, seen: set<string>, start: string, c: string, d: nat)
    requires Chain(ctx, seen, start, c, d)
    ensures c in Upto(ctx, seen, start, d)
    decreases d
  {
    hide Link, Upto, Layer;
    if d > 0 {
      var p := LastLink(ctx, seen, start, c, d);
      ChainIsCovered(ctx, seen, start, p, d - 1);
      var k := UptoIsSomeLayer(ctx, seen, start, p, d - 1);
      LinkLeavesLayer(ctx, seen, start, c, p, k);
      UptoGrows(ctx, seen, start, k + 1, d);
    } else {
      StartIsCovered(ctx, seen, start);
    }
  }

  lemma LastLink(ctx: LineageCtx, seen: set<string>, start: string, c: string, d: nat) returns (p: string)
    requires d > 0 && Chain(ctx, seen, start, c, d)
    ensures Chain(ctx, seen, start, p, d - 1) && Link(ctx, c, p) && c !in seen
  {
    hide Link;
    p :| Chain(ctx, seen, start, p, d - 1) && Link(ctx, c, p);
  }

  lemma StartIsCovered(ctx: LineageCtx, seen: set<string>, start: string)
    ensures start in Upto(ctx, seen, start, 0)
  {
  }

  lemma LinkLeavesLayer(ctx: LineageCtx, seen: set<string>, start: string, c: string, p: string, k: nat)
    requires p in Layer(ctx, seen, start, k) && Link(ctx, c, p) && c !in seen
    ensures c in Upto(ctx, seen, start, k + 1)
  {
    if c !in Upto(ctx, seen, start, k) {
      assert Reached(ctx, Layer(ctx, seen, start, k), c);
      assert c in Layer(ctx, seen, start, k + 1);
    }
  }

  ghost predicate NoShorterChain(ctx: LineageCtx, seen: set<string>, start: string, c: string, d: nat) {
    forall k: nat | k < d :: !Chain(ctx, seen, start, c, k)
  }

  /** Layer d holds exactly the cards whose shortest chain has d links, whatever
      the shape of the store. */
  lemma LayerIsShortestDistance(ctx: LineageCtx, seen: set<string>, start: string, c: string, d: nat)
    ensures c in Layer(ctx, seen, start, d)
       <==> Chain(ctx, seen, start, c, d) && NoShorterChain(ctx, seen, start, c, d)
  {
    hide Chain, Layer, NoShorterChain;
    if c in Layer(ctx, seen, start, d) {
      LayerHasChain(ctx, seen, start, c, d);
      LayerHasNoShorter(ctx, seen, start, c, d);
    }
    if Chain(ctx, seen, start, c, d) && NoShorterChain(ctx, seen, start, c, d) {
      ShortestIsInLayer(ctx, seen, start, c, d);
    }
  }

  lemma LayerHasNoShorter(ctx: LineageCtx, seen: set<string>, start: string, c: string, d: nat)
    requires c in Layer(ctx, seen, start, d)
    ensures NoShorterChain(ctx, seen, start, c, d)
  {
    hide Chain;
    forall k: nat | k < d
      ensures !Chain(ctx, seen, start, c, k)
    {
      if Chain(ctx, seen, start, c, k) {
        ChainIsCovered(ctx, seen, start, c, k);
        UptoGrows(ctx, seen, start, k, d - 1);
      }
    }
  }

  lemma ShortestIsInLayer(ctx: LineageCtx, seen: set<string>, start: string, c: string, d: nat)
    requires Chain(ctx, seen, start, c, d) && NoShorterChain(ctx, seen, start, c, d)
    ensures c in Layer(ctx, seen, start, d)
  {
    hide Chain, Layer, Upto;
    ChainIsCovered(ctx, seen, start, c, d);
    var k := UptoIsSomeLayer(ctx, seen, start, c, d);
    LayerHasChain(ctx, seen, start, c, k);
  }

  /** The card d priors above c, following only links that pass the filter. */
  function Follow(ctx: LineageCtx, c: string, d: nat): Option<string>
    decreases d
  {
    if d == 0 then Some(c)
    else if c !in ctx.index.cards then None
    else
      var row := ctx.index.cards[c];
      if RelationPasses(ctx.filter, Relation(row)) && Prior(row).Some?
      then Follow(ctx, Prior(row).value, d - 1)
      else None
  }

  /** Following priors from c, start is met after d links and not before. */
  ghost predicate FirstReaches(ctx: LineageCtx, c: string, start: string, d: nat) {
    Follow(ctx, c, d) == Some(start) && forall k: nat | k < d :: Follow(ctx, c, k) != Some(start)
  }

  lemma {:induction false} ChainIsFirstReach(ctx: LineageCtx, rows: seq<CardRow>, start: string, c: string, d: nat)
    requires Indexes(ctx.index, rows) && AgreeingPriors(ctx, rows)
    ensures Chain(ctx, {start}, start, c, d) <==> FirstReaches(ctx, c, start, d)
    decreases d
  {
    hide Indexes, AgreeingPriors, Link, Relation, Prior, RelationPasses;
    if d > 0 {
      if Chain(ctx, {start}, start, c, d) {
        var p :| Chain(ctx, {start}, start, p, d - 1) && Link(ctx, c, p);
        LinkIsPriorLink(ctx, rows, c, p);
        ChainIsFirstReach(ctx, rows, start, p, d - 1);
        forall k: nat | k < d
          ensures Follow(ctx, c, k) != Some(start)
        {
          assert k > 0 ==> Follow(ctx, c, k) == Follow(ctx, p, k - 1);
        }
      }
      if FirstReaches(ctx, c, start, d) {
        assert Follow(ctx, c, 0) != Some(start);
        var p := Prior(ctx.index.cards[c]).value;
        forall k: nat | k < d - 1
          ensures Follow(ctx, p, k) != Some(start)
        {
          assert Follow(ctx, c, k + 1) == Follow(ctx, p, k);
        }
        ChainIsFirstReach(ctx, rows, start, p, d - 1);
        LinkIsPriorLink(ctx, rows, c, p);
      }
    }
  }

  /** Where ids agree on their prior, a layer of a plain descent holds the cards whose prior
      chain first meets the start after that many links. */
  lemma LayerIsFirstReach(ctx: LineageCtx, rows: seq<CardRow>, start: string, c: string, d: nat)
    requires Indexes(ctx.index, rows) && AgreeingPriors(ctx, rows)
    ensures c in Layer(ctx, {start}, start, d) <==> FirstReaches(ctx, c, start, d)
  {
    hide Indexes, AgreeingPriors, Layer, Chain, Follow;
    LayerIsShortestDistance(ctx, {start}, start, c, d);
    ChainIsFirstReach(ctx, rows, start, c, d);
    if FirstReaches(ctx, c, start, d) {
      forall k: nat | k < d
        ensures !Chain(ctx, {start}, start, c, k)
      {
        ChainIsFirstReach(ctx, rows, start, c, k);
      }
      assert NoShorterChain(ctx, {start}, start, c, d);
    }
  }

  ghost predicate SomeFirstReach(ctx: LineageCtx, root: string, d: nat) {
    exists c :: FirstReaches(ctx, c, root, d)
  }

  /** A descent lists card c at depth d > 0 exactly when the prior chain of c
      first meets the root after d <= max_depth links; cycles change nothing. */
  lemma DescentIsExact(rows: seq<CardRow>, r: LineageResult, ctx: LineageCtx, up: seq<Step>, down: seq<Step>,
      c: string, d: nat)
    requires Indexes(ctx.index, rows) && AgreeingPriors(ctx, rows) && IsLineage(r, ctx, Down, up, down)
    requires d > 0
    ensures ListsAt(r, c, d) <==> d <= ctx.maxDepth && FirstReaches(ctx, c, r.root, d)
  {
    hide FirstReaches, Layer, IsTree, AgreeingPriors, NodesOf, EdgesOf, MakeNode, Listed, StepsIndexed;
    NothingListed(r.root);
    assert up + down == down;
    LayerIsFirstReach(ctx, rows, r.root, c, d);
    RootIndexed(ctx, r.root, up + down);
    IndexIsFiled(ctx.index, rows);
    ListedSteps(r, ctx, down, c, d);
    if ListsAt(r, c, d) {
      var i :| 0 <= i < |down| && down[i].card == c && down[i].depth == d;
    }
  }

  /** `truncated` is set exactly when some chain first meets the root one link
      beyond the depth limit; when it is not set, no depth would list more. */
  lemma DescentTruncation(rows: seq<CardRow>, r: LineageResult, ctx: LineageCtx, up: seq<Step>, down: seq<Step>)
    requires Indexes(ctx.index, rows) && AgreeingPriors(ctx, rows) && IsLineage(r, ctx, Down, up, down)
    ensures r.truncated <==> SomeFirstReach(ctx, r.root, ctx.maxDepth + 1)
    ensures !r.truncated ==> forall d: nat | d > ctx.maxDepth :: !SomeFirstReach(ctx, r.root, d)
  {
    hide FirstReaches, Layer, IsTree, AgreeingPriors, NodesOf, EdgesOf, MakeNode, Listed, StepsIndexed,
      ExactLayers;
    NothingListed(r.root);
    var next := ctx.maxDepth + 1;
    if r.truncated {
      var c :| c in Layer(ctx, {r.root}, r.root, next);
      LayerIsFirstReach(ctx, rows, r.root, c, next);
    }
    forall d: nat | d > ctx.maxDepth && SomeFirstReach(ctx, r.root, d)
      ensures r.truncated
    {
      var c :| FirstReaches(ctx, c, r.root, d);
      LayerIsFirstReach(ctx, rows, r.root, c, d);
      if !r.truncated {
        EmptyLayersStayEmpty(ctx, {r.root}, r.root, next, d);
      }
    }
  }

  predicate ListsAt(r: LineageResult, c: string, d: int) {
    exists i | 0 <= i < |r.nodes| :: r.nodes[i].cardId == c && r.nodes[i].depth == d
  }

  lemma ListedSteps(r: LineageResult, ctx: LineageCtx, steps: seq<Step>, c: string, d: int)
    requires r.root in ctx.index.cards && StepsIndexed(ctx, steps) && d != 0
    requires r.nodes == [MakeNode(ctx.index.cards[r.root], 0, ctx.includeStats)] + NodesOf(ctx, steps)
    requires Filed(ctx)
    ensures ListsAt(r, c, d) <==> exists i | 0 <= i < |steps| :: steps[i].card == c && steps[i].depth == d
  {
    hide Prior, Relation;
    if ListsAt(r, c, d) {
      var i :| 0 <= i < |r.nodes| && r.nodes[i].cardId == c && r.nodes[i].depth == d;
      assert steps[i - 1].card == c && steps[i - 1].depth == d;
    }
    if i :| 0 <= i < |steps| && steps[i].card == c && steps[i].depth == d {
      assert r.nodes[i + 1].cardId == c;
    }
  }

  // ----- main results: the ascent -----

  /** An up-walk is one chain: depths run -1, -2, ... and each step leaves the
      card the one before it reached. */
  lemma {:induction false} AscentIsOneChain(ctx: LineageCtx, seen: set<string>, cur: string, from: nat, depth: nat)
    ensures var w := UpWalk(ctx, seen, cur, from, depth);
            && |w| <= depth
            && (forall i | 0 <= i < |w| :: w[i].depth == -(from + i) - 1 && PriorLink(ctx, w[i].via, w[i].card))
            && (forall i | 0 <= i < |w| :: w[i].via == if i == 0 then cur else w[i - 1].card)
    decreases depth
  {
    if depth > 0 && UpStep(ctx, seen, cur).Some? {
      var p := UpStep(ctx, seen, cur).value;
      AscentIsOneChain(ctx, seen + {p}, p, from + 1, depth - 1);
    }
  }

  lemma SeenGrows(seen: set<string>, p: string, rest: seq<Step>, s: Step)
    requires s.card == p
    ensures SetOf(CardsOf([s] + rest)) == {p} + SetOf(CardsOf(rest))
    ensures seen + SetOf(CardsOf([s] + rest)) == seen + {p} + SetOf(CardsOf(rest))
  {
    assert CardsOf([s] + rest) == [p] + CardsOf(rest);
    SetOfConcat([p], CardsOf(rest));
    assert SetOf([p]) == {p} by {
      assert [p][0] in SetOf([p]);
    }
  }

  lemma TopmostCons(cur: string, s: Step, rest: seq<Step>)
    ensures Topmost(cur, [s] + rest) == Topmost(s.card, rest)
  {
  }

  lemma NoneSeen(seen: set<string>)
    ensures seen + SetOf(CardsOf([])) == seen
  {
  }

  lemma {:induction false} OneLevelMore(ctx: LineageCtx, seen: set<string>, cur: string, from: nat, depth: nat)
    ensures var w, more := UpWalk(ctx, seen, cur, from, depth), UpWalk(ctx, seen, cur, from, depth + 1);
            && w <= more
            && (w != more <==> |w| == depth && UpStep(ctx, seen + SetOf(CardsOf(w)), Topmost(cur, w)).Some?)
    decreases depth
  {
    hide UpStep, SetOf, CardsOf;
    if depth == 0 || UpStep(ctx, seen, cur).None? {
      NoneSeen(seen);
    } else {
      var p := UpStep(ctx, seen, cur).value;
      var s := Step(p, cur, -(from as int) - 1);
      var rest := UpWalk(ctx, seen + {p}, p, from + 1, depth - 1);
      OneLevelMore(ctx, seen + {p}, p, from + 1, depth - 1);
      SeenGrows(seen, p, rest, s);
      TopmostCons(cur, s, rest);
      ConsPrefix(s, rest, UpWalk(ctx, seen + {p}, p, from + 1, depth));
    }
  }

  lemma ConsPrefix(s: Step, a: seq<Step>, b: seq<Step>)
    ensures (a <= b ==> [s] + a <= [s] + b) && ([s] + a == [s] + b <==> a == b)
  {
    assert ([s] + a)[1..] == a && ([s] + b)[1..] == b;
  }

  lemma {:induction false} DeeperChangesNothing(ctx: LineageCtx, seen: set<string>, cur: string, from: nat,
      depth: nat, deeper: nat)
    requires depth <= deeper
    requires UpWalk(ctx, seen, cur, from, depth) == UpWalk(ctx, seen, cur, from, depth + 1)
    ensures UpWalk(ctx, seen, cur, from, deeper) == UpWalk(ctx, seen, cur, from, depth)
    decreases depth
  {
    if UpStep(ctx, seen, cur).Some? {
      var p := UpStep(ctx, seen, cur).value;
      var a, b := UpWalk(ctx, seen + {p}, p, from + 1, depth - 1), UpWalk(ctx, seen + {p}, p, from + 1, depth);
      assert UpWalk(ctx, seen, cur, from, depth)[1..] == a;
      assert UpWalk(ctx, seen, cur, from, depth + 1)[1..] == b;
      DeeperChangesNothing(ctx, seen + {p}, p, from + 1, depth - 1, deeper - 1);
    }
  }

  lemma ListedIsCards(root: string, steps: seq<Step>)
    ensures Listed(root, steps) == {root} + SetOf(CardsOf(steps))
  {
    forall i | 0 <= i < |steps|
      ensures steps[i].card in SetOf(CardsOf(steps))
    {
      assert CardsOf(steps)[i] == steps[i].card;
    }
  }

  /** The j-th ancestor of cur exists in the index, is not in seen and repeats none
      of the nearer ones. */
  ghost predicate NewAncestor(ctx: LineageCtx, seen: set<string>, cur: string, j: nat) {
    var p := Follow(ctx, cur, j);
    && p.Some? && p.value in ctx.index.cards && p.value !in seen
    && forall i | 1 <= i < j :: Follow(ctx, cur, i) != p
  }

  ghost predicate NewAncestors(ctx: LineageCtx, seen: set<string>, cur: string, d: nat) {
    forall j | 1 <= j <= d :: NewAncestor(ctx, seen, cur, j)
  }

  lemma FollowOn(ctx: LineageCtx, cur: string, p: string, j: nat)
    requires Follow(ctx, cur, 1) == Some(p) && j > 0
    ensures Follow(ctx, cur, j) == Follow(ctx, p, j - 1)
  {
    hide Prior, Relation, RelationPasses;
    assert Follow(ctx, Prior(ctx.index.cards[cur]).value, 0) == Some(p);
  }

  lemma StepIsFirstAncestor(ctx: LineageCtx, seen: set<string>, cur: string)
    ensures UpStep(ctx, seen, cur).Some? <==> NewAncestor(ctx, seen, cur, 1)
    ensures UpStep(ctx, seen, cur).Some? ==> Follow(ctx, cur, 1) == UpStep(ctx, seen, cur)
  {
    hide Prior, Relation, RelationPasses;
    if cur in ctx.index.cards && Prior(ctx.index.cards[cur]).Some? {
      assert Follow(ctx, Prior(ctx.index.cards[cur]).value, 0) == Prior(ctx.index.cards[cur]);
    }
  }

  lemma AncestorsStep(ctx: LineageCtx, seen: set<string>, cur: string, p: string, d: nat)
    requires d > 0 && Follow(ctx, cur, 1) == Some(p) && NewAncestor(ctx, seen, cur, 1)
    ensures NewAncestors(ctx, seen, cur, d) <==> NewAncestors(ctx, seen + {p}, p, d - 1)
  {
    hide Follow;
    forall j | 1 <= j <= d
      ensures Follow(ctx, cur, j) == Follow(ctx, p, j - 1)
    {
      FollowOn(ctx, cur, p, j);
    }
    if NewAncestors(ctx, seen, cur, d) {
      forall j | 1 <= j <= d - 1
        ensures NewAncestor(ctx, seen + {p}, p, j)
      {
        assert NewAncestor(ctx, seen, cur, j + 1);
        forall i | 1 <= i < j
          ensures Follow(ctx, p, i) != Follow(ctx, p, j)
        {
          assert Follow(ctx, cur, i + 1) != Follow(ctx, cur, j + 1);
        }
      }
    }
    if NewAncestors(ctx, seen + {p}, p, d - 1) {
      forall j | 1 <= j <= d
        ensures NewAncestor(ctx, seen, cur, j)
      {
        if j > 1 {
          assert NewAncestor(ctx, seen + {p}, p, j - 1);
          forall i | 1 <= i < j
            ensures Follow(ctx, cur, i) != Follow(ctx, cur, j)
          {
            assert i > 1 ==> Follow(ctx, p, i - 1) != Follow(ctx, p, j - 1);
          }
        }
      }
    }
  }

  /** The d-th step of an up-walk exists exactly when it is within the depth and the
      first d ancestors are new, and it reaches the d-th of them. */
  lemma {:induction false} WalkIsAncestors(ctx: LineageCtx, seen: set<string>, cur: string, from: nat, depth: nat,
      d: nat)
    ensures var w := UpWalk(ctx, seen, cur, from, depth);
            && (d <= |w| <==> d <= depth && NewAncestors(ctx, seen, cur, d))
            && (0 < d <= |w| ==> Follow(ctx, cur, d) == Some(w[d - 1].card))
    decreases depth
  {
    hide Follow, NewAncestor, UpStep;
    StepIsFirstAncestor(ctx, seen, cur);
    if d > 0 && NewAncestors(ctx, seen, cur, d) {
      assert NewAncestor(ctx, seen, cur, 1);
    }
    if d > 0 && depth > 0 && UpStep(ctx, seen, cur).Some? {
      var p := UpStep(ctx, seen, cur).value;
      WalkIsAncestors(ctx, seen + {p}, p, from + 1, depth - 1, d - 1);
      AncestorsStep(ctx, seen, cur, p, d);
      FollowOn(ctx, cur, p, d);
      if d == 1 {
        FollowZero(ctx, p);
      }
    }
  }

  lemma FollowZero(ctx: LineageCtx, c: string)
    ensures Follow(ctx, c, 0) == Some(c)
  {
  }

  /** An ascent lists card c at depth -d exactly when c is the root's d-th ancestor,
      d is within the limit and none of the ancestors up to it repeats. */
  lemma AscentIsExact(rows: seq<CardRow>, r: LineageResult, ctx: LineageCtx, up: seq<Step>, down: seq<Step>,
      c: string, d: nat)
    requires Indexes(ctx.index, rows) && IsLineage(r, ctx, Up, up, down) && d > 0
    ensures ListsAt(r, c, -(d as int))
       <==> d <= ctx.maxDepth && NewAncestors(ctx, {r.root}, r.root, d) && Follow(ctx, r.root, d) == Some(c)
  {
    hide Indexes, Follow, NewAncestors, UpWalk, NodesOf, EdgesOf, ListsAt, IsTree;
    IndexIsFiled(ctx.index, rows);
    assert up + down == up;
    TreeHasRoot(ctx, r.root, up + down);
    ListedSteps(r, ctx, up, c, -(d as int));
    WalkIsAncestors(ctx, {r.root}, r.root, 0, ctx.maxDepth, d);
    AscentIsOneChain(ctx, {r.root}, r.root, 0, ctx.maxDepth);
    if d <= |up| {
      assert up[d - 1].depth == -(d as int);
    }
  }

  lemma TreeHasRoot(ctx: LineageCtx, root: string, steps: seq<Step>)
    requires IsTree(ctx, root, steps)
    ensures root in ctx.index.cards
  {
  }

  /** The last ancestor within the limit names an indexed card that is not listed. */
  ghost predicate AnotherAbove(ctx: LineageCtx, root: string) {
    && NewAncestors(ctx, {root}, root, ctx.maxDepth)
    && var top := Follow(ctx, root, ctx.maxDepth);
       && top.Some? && top.value in ctx.index.cards
       && var p := Prior(ctx.index.cards[top.value]);
          && p.Some? && p.value in ctx.index.cards
          && forall i | 0 <= i <= ctx.maxDepth :: Follow(ctx, root, i) != p
  }

  /** And the relation by which it names that card passes the filter. */
  ghost predicate TopPasses(ctx: LineageCtx, root: string) {
    var top := Follow(ctx, root, ctx.maxDepth);
    top.Some? && top.value in ctx.index.cards && RelationPasses(ctx.filter, Relation(ctx.index.cards[top.value]))
  }

  lemma ListedAreAncestors(ctx: LineageCtx, root: string, up: seq<Step>, p: string)
    requires up == UpWalk(ctx, {root}, root, 0, ctx.maxDepth)
    ensures p in Listed(root, up) <==> exists i | 0 <= i <= |up| :: Follow(ctx, root, i) == Some(p)
  {
    hide UpWalk, Follow, NewAncestors;
    FollowZero(ctx, root);
    forall i | 1 <= i <= |up|
      ensures Follow(ctx, root, i) == Some(up[i - 1].card)
    {
      WalkIsAncestors(ctx, {root}, root, 0, ctx.maxDepth, i);
    }
    if i :| 0 <= i < |up| && up[i].card == p {
      assert Follow(ctx, root, i + 1) == Some(p);
    }
    if i :| 1 <= i <= |up| && Follow(ctx, root, i) == Some(p) {
      assert up[i - 1].card == p;
    }
  }

  lemma TruncatedIsAnotherAbove(ctx: LineageCtx, root: string, up: seq<Step>)
    requires up == UpWalk(ctx, {root}, root, 0, ctx.maxDepth) && root in ctx.index.cards
    ensures UpTruncated(ctx, root, up) <==> AnotherAbove(ctx, root)
    ensures |up| == ctx.maxDepth ==> Follow(ctx, root, ctx.maxDepth) == Some(Topmost(root, up))
    ensures |up| == ctx.maxDepth <==> NewAncestors(ctx, {root}, root, ctx.maxDepth)
  {
    hide UpWalk, Follow, NewAncestors, Prior, Relation;
    var d := ctx.maxDepth;
    WalkIsAncestors(ctx, {root}, root, 0, d, d);
    AscentIsOneChain(ctx, {root}, root, 0, d);
    FollowZero(ctx, root);
    if |up| == d {
      var last := Topmost(root, up);
      assert Follow(ctx, root, d) == Some(last);
      if last in ctx.index.cards && Prior(ctx.index.cards[last]).Some? {
        var p := Prior(ctx.index.cards[last]).value;
        assert Prior(ctx.index.cards[last]) == Some(p);
        ListedAreAncestors(ctx, root, up, p);
        if p in Listed(root, up) {
          var i :| 0 <= i <= |up| && Follow(ctx, root, i) == Some(p);
          assert !AnotherAbove(ctx, root);
        } else {
          assert forall i | 0 <= i <= d :: Follow(ctx, root, i) != Some(p);
        }
      }
    }
  }

  /** In terms of the store: `truncated` says that the last ancestor within the limit
      names an unlisted indexed card; a deeper ascent lists more exactly when its
      relation passes the filter too. So the flag is wrong exactly when there is such
      a card and the filter rejects the way to it. Without a filter it is always
      right, and when one level more lists nothing new, no depth does. */
  lemma AscentTruncation(r: LineageResult, ctx: LineageCtx, up: seq<Step>, down: seq<Step>)
    requires IsLineage(r, ctx, Up, up, down)
    ensures var more := UpWalk(ctx, {r.root}, r.root, 0, ctx.maxDepth + 1);
            && (r.truncated <==> AnotherAbove(ctx, r.root))
            && (up != more <==> AnotherAbove(ctx, r.root) && TopPasses(ctx, r.root))
            && ((r.truncated <==> up != more) <==> !AnotherAbove(ctx, r.root) || TopPasses(ctx, r.root))
            && (ctx.filter.None? ==> (r.truncated <==> up != more))
            && (up == more ==> forall deeper: nat | deeper >= ctx.maxDepth ::
                  UpWalk(ctx, {r.root}, r.root, 0, deeper) == up)
  {
    hide IsTree, NodesOf, EdgesOf, StepsIndexed, ExactLayers, Layer, UpWalk, Relation, Prior, Listed, Follow,
      NewAncestors;
    TreeHasRoot(ctx, r.root, up + down);
    OneLevelMore(ctx, {r.root}, r.root, 0, ctx.maxDepth);
    ListedIsCards(r.root, up);
    TruncatedIsAnotherAbove(ctx, r.root, up);
    if up == UpWalk(ctx, {r.root}, r.root, 0, ctx.maxDepth + 1) {
      forall deeper: nat | deeper >= ctx.maxDepth
        ensures UpWalk(ctx, {r.root}, r.root, 0, deeper) == up
      {
        DeeperChangesNothing(ctx, {r.root}, r.root, 0, ctx.maxDepth, deeper);
      }
    }
  }

  function CardNamed(id: string, prior: Option<string>, relation: string): CardRow {
    var meta := map["prior_relation" := Str(relation)];
    CardRow(Obj(map["metadata" := Obj(if prior.Some? then meta["prior_card_id" := Str(prior.value)] else meta)]),
      Summary(id, "pkg", None, None, None, None, None))
  }

  /** The flag is wrong on a store of two cards: card a derives from b by a relation
      the filter rejects, nothing more is listed at any depth, and still an ascent of
      depth zero reports truncation. */
  lemma TruncatedThoughNothingMore(rows: seq<CardRow>, ctx: LineageCtx, r: LineageResult)
    requires rows == [CardNamed("a", Some("b"), "fork"), CardNamed("b", None, "fork")]
    requires ctx == LineageCtx(CardIndex(map["a" := rows[0], "b" := rows[1]], map["b" := ["a"]]),
                      Some(["retry"]), false, 0)
    requires r == LineageResult("a", [MakeNode(rows[0], 0, false)], [], true)
    ensures Indexes(ctx.index, rows) && IsLineage(r, ctx, Up, [], []) && r.truncated
    ensures forall deeper: nat :: UpWalk(ctx, {"a"}, "a", 0, deeper) == []
  {
    hide Prior, Relation, CardNamed, Indexes, Layer, ExactLayers, MakeNode;
    TwoCardsIndexed(ctx.index, rows);
    CardFields("a", Some("b"), "fork");
    var none: seq<Step> := [];
    assert none + none == none && NodesOf(ctx, none) == [] && EdgesOf(ctx, none) == [];
    assert Listed("a", none) == {"a"};
    assert UpStep(ctx, {"a"}, "a") == None;
  }

  lemma CardFields(id: string, prior: Option<string>, relation: string)
    ensures var c := CardNamed(id, prior, relation);
            Prior(c) == prior && Relation(c) == Some(relation) && Id(c) == id
  {
  }

  lemma TwoCardsIndexed(index: CardIndex, rows: seq<CardRow>)
    requires rows == [CardNamed("a", Some("b"), "fork"), CardNamed("b", None, "fork")]
    requires index == CardIndex(map["a" := rows[0], "b" := rows[1]], map["b" := ["a"]])
    ensures Indexes(index, rows)
  {
    hide Prior, CardNamed;
    CardFields("a", Some("b"), "fork");
    CardFields("b", None, "fork");
    assert rows[..1] == [rows[0]] && rows[..1][..0] == [];
    forall id
      ensures Kept(rows, id) == if id == "b" then Some(rows[1]) else if id == "a" then Some(rows[0]) else None
    {
      assert Kept(rows[..1], id) == if id == "a" then Some(rows[0]) else None;
    }
    forall p
      ensures ChildIds(rows, p) == if p == "b" then ["a"] else []
    {
      assert ChildIds(rows[..1], p) == if p == "b" then ["a"] else [];
    }
  }
}
