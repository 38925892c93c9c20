/**
 * The hierarchical category checklist of the categories panel
 * (`render_categories_settings` and `render_category_checkbox`): a
 * pre-order walk of the product categories that emits one checkbox row
 * per category, indented by its depth and checked when the config selects it.
 */
module CategoryTree {
  import opened Wrappers
  import opened Php
  import opened CarouselConfig
  import opened EditForm

  /**
   * The host's answer to `get_terms` with `parent` set to an id: the
   * direct subcategories, in the order the host returns them. An id with
   * no entry has no subcategories; the top-level categories are those of 0.
   */
  type Children = map<int, seq<Term>>

  function ChildrenOf(children: Children, parent: int): seq<Term> {
    if parent in children then children[parent] else []
  }

  /** One emitted checkbox row; `indent` is the left padding in pixels. */
  datatype Row = Row(id: int, name: string, depth: nat, indent: int, selected: bool)

  /**
   * There is no guard against a listing that puts a category among its own
   * descendants, on which the walk would not end. `rank` excludes that:
   * each subcategory the host lists ranks below its parent.
   */
  function RankOf(rank: map<int, nat>, id: int): nat {
    if id in rank then rank[id] else 0
  }

  predicate Ranked(children: Children, rank: map<int, nat>) {
    forall p, i :: p in children && 0 <= i < |children[p]| ==>
      RankOf(rank, children[p][i].id) < RankOf(rank, p)
  }

  lemma ChildRanksLower(children: Children, rank: map<int, nat>, p: int, i: int)
    requires Ranked(children, rank) && 0 <= i < |ChildrenOf(children, p)|
    ensures RankOf(rank, ChildrenOf(children, p)[i].id) < RankOf(rank, p)
  {
    assert p in children;
    assert ChildrenOf(children, p)[i] == children[p][i];
  }

  /** The row of one category: `depth * 20` pixels of padding, checked when the selection lists its id. */
  function RowFor(t: Term, depth: nat, selection: Option<Value>): Row {
    Row(t.id, t.name, depth, depth * 20, InList(selection, t.id))
  }

  /**
   * A category's row carries its id and name at its depth, is indented by
   * 20 pixels per level, and is checked exactly when the saved entry is an
   * id list holding its id.
   */
  lemma RowOfCategory(t: Term, depth: nat, selection: Option<Value>)
    ensures var r := RowFor(t, depth, selection);
      && r.id == t.id && r.name == t.name && r.depth == depth
      && r.indent == 20 * depth
      && (r.selected <==> selection.Some? && selection.value.IntList? && t.id in selection.value.xs)
  {
  }

  /** A row as `RowFor` makes it: the padding of its depth and the mark of its id. */
  predicate WellFormed(r: Row, selection: Option<Value>) {
    r.indent == r.depth * 20 && (r.selected <==> InList(selection, r.id))
  }

  /**
   * `render_category_checkbox($t, $config, $depth)`: the row of `t`, then
   * the walk of each subcategory one level deeper, in the host's order.
   */
  function Walk(children: Children, rank: map<int, nat>, t: Term, depth: nat, selection: Option<Value>): (rows: seq<Row>)
    requires Ranked(children, rank)
    ensures |rows| > 0 && rows[0] == RowFor(t, depth, selection)
    decreases RankOf(rank, t.id), 1
  {
    [RowFor(t, depth, selection)] +
      ChildWalk(children, rank, t.id, |ChildrenOf(children, t.id)|, depth + 1, selection)
  }

  /**
   * The walks of the first `n` subcategories of `parent`, each at `depth`,
   * one after the other; the first row, when there is one, is at `depth`.
   */
  function ChildWalk(children: Children, rank: map<int, nat>, parent: int, n: nat, depth: nat, selection: Option<Value>): (rows: seq<Row>)
    requires Ranked(children, rank) && n <= |ChildrenOf(children, parent)|
    ensures n > 0 ==> |rows| > 0 && rows[0].depth == depth
    ensures n == 0 ==> rows == []
    decreases RankOf(rank, parent), 0, n
  {
    if n == 0 then []
    else
      ChildRanksLower(children, rank, parent, n - 1);
      ChildWalk(children, rank, parent, n - 1, depth, selection) +
        Walk(children, rank, ChildrenOf(children, parent)[n - 1], depth, selection)
  }

  /** The whole checklist: the walk of each top-level category at depth 0. */
  function CategoryChecklist(children: Children, rank: map<int, nat>, selection: Option<Value>): (rows: seq<Row>)
    requires Ranked(children, rank)
    ensures ChildrenOf(children, 0) != [] ==> |rows| > 0 && rows[0].depth == 0
  {
    ChildWalk(children, rank, 0, |ChildrenOf(children, 0)|, 0, selection)
  }

  /**
   * `render_category_checkbox`: emits the row of `t`, then, for each
   * subcategory in turn, the rows of its own walk.
   */
  method RenderCategoryCheckbox(children: Children, ghost rank: map<int, nat>, t: Term, depth: nat, selection: Option<Value>)
    returns (rows: seq<Row>)
    requires Ranked(children, rank)
    ensures rows == Walk(children, rank, t, depth, selection)
    decreases RankOf(rank, t.id)
  {
    rows := [RowFor(t, depth, selection)];
    var subcategories := ChildrenOf(children, t.id);
    for i := 0 to |subcategories|
      invariant rows == [RowFor(t, depth, selection)] + ChildWalk(children, rank, t.id, i, depth + 1, selection)
    {
      ChildRanksLower(children, rank, t.id, i);
      var sub := RenderCategoryCheckbox(children, rank, subcategories[i], depth + 1, selection);
      rows := rows + sub;
    }
  }

  /**
   * `render_categories_settings`'s checklist: the rows of each top-level
   * category's walk, with the config's saved selection.
   */
  method RenderCategoriesSettings(children: Children, ghost rank: map<int, nat>, config: Option<Config>)
    returns (rows: seq<Row>)
    requires Ranked(children, rank)
    ensures rows == CategoryChecklist(children, rank, Entry(config, SelectedCategories))
  {
    var selection := Entry(config, SelectedCategories);
    var categories := ChildrenOf(children, 0);
    rows := [];
    for i := 0 to |categories|
      invariant rows == ChildWalk(children, rank, 0, i, 0, selection)
    {
      var sub := RenderCategoryCheckbox(children, rank, categories[i], 0, selection);
      rows := rows + sub;
    }
  }

  /** Rows all made by `RowFor`, all at `depth` or deeper. */
  predicate Shaped(rows: seq<Row>, depth: nat, selection: Option<Value>) {
    forall k :: 0 <= k < |rows| ==> rows[k].depth >= depth && WellFormed(rows[k], selection)
  }

  lemma ShapedAppend(a: seq<Row>, b: seq<Row>, depth: nat, selection: Option<Value>)
    requires Shaped(a, depth, selection) && Shaped(b, depth, selection)
    ensures Shaped(a + b, depth, selection)
  {
    forall k | 0 <= k < |a + b|
      ensures (a + b)[k].depth >= depth && WellFormed((a + b)[k], selection)
    {
      if k < |a| { assert (a + b)[k] == a[k]; } else { assert (a + b)[k] == b[k - |a|]; }
    }
  }

  /**
   * Every row of a category's walk has the padding of its depth and is
   * checked exactly when the selection lists its id; after the first, every
   * row is deeper than the category's own.
   */
  lemma {:induction false} WalkShape(children: Children, rank: map<int, nat>, t: Term, depth: nat, selection: Option<Value>)
    requires Ranked(children, rank)
    ensures Shaped(Walk(children, rank, t, depth, selection), depth, selection)
    ensures Shaped(Walk(children, rank, t, depth, selection)[1..], depth + 1, selection)
    decreases RankOf(rank, t.id), 1
  {
    var rest := ChildWalk(children, rank, t.id, |ChildrenOf(children, t.id)|, depth + 1, selection);
    ChildWalkShape(children, rank, t.id, |ChildrenOf(children, t.id)|, depth + 1, selection);
    assert Walk(children, rank, t, depth, selection)[1..] == rest;
    ShapedAppend([RowFor(t, depth, selection)], rest, depth, selection);
  }

  lemma {:induction false} ChildWalkShape(children: Children, rank: map<int, nat>, parent: int, n: nat, depth: nat, selection: Option<Value>)
    requires Ranked(children, rank) && n <= |ChildrenOf(children, parent)|
    ensures Shaped(ChildWalk(children, rank, parent, n, depth, selection), depth, selection)
    decreases RankOf(rank, parent), 0, n
  {
    if n > 0 {
      var cs := ChildrenOf(children, parent);
      ChildRanksLower(children, rank, parent, n - 1);
      ChildWalkShape(children, rank, parent, n - 1, depth, selection);
      WalkShape(children, rank, cs[n - 1], depth, selection);
      ShapedAppend(ChildWalk(children, rank, parent, n - 1, depth, selection), Walk(children, rank, cs[n - 1], depth, selection), depth, selection);
    }
  }

  /** Every row of the checklist has the padding of its depth and is checked exactly when the selection lists its id. */
  lemma ChecklistShape(children: Children, rank: map<int, nat>, selection: Option<Value>)
    requires Ranked(children, rank)
    ensures Shaped(CategoryChecklist(children, rank, selection), 0, selection)
  {
    ChildWalkShape(children, rank, 0, |ChildrenOf(children, 0)|, 0, selection);
  }

  /** The ids of the rows at exactly depth `d`, in order. */
  function IdsAt(rows: seq<Row>, d: nat): seq<int> {
    if rows == [] then []
    else IdsAt(rows[..|rows| - 1], d) + (if rows[|rows| - 1].depth == d then [rows[|rows| - 1].id] else [])
  }

  function Ids(terms: seq<Term>): seq<int> {
    if terms == [] then [] else Ids(terms[..|terms| - 1]) + [terms[|terms| - 1].id]
  }

  lemma {:induction false} IdsAtAppend(a: seq<Row>, b: seq<Row>, d: nat)
    ensures IdsAt(a + b, d) == IdsAt(a, d) + IdsAt(b, d)
    decreases |b|
  {
    if b == [] {
      assert a + b == a;
    } else {
      assert (a + b)[..|a + b| - 1] == a + b[..|b| - 1];
      IdsAtAppend(a, b[..|b| - 1], d);
    }
  }

  lemma {:induction false} IdsAtDeeper(rows: seq<Row>, d: nat)
    requires forall k :: 0 <= k < |rows| ==> rows[k].depth > d
    ensures IdsAt(rows, d) == []
    decreases |rows|
  {
    if rows != [] {
      IdsAtDeeper(rows[..|rows| - 1], d);
    }
  }

  /** A first row at another depth adds nothing to the ids at `d`. */
  lemma IdsAtOtherHead(r: Row, rest: seq<Row>, d: nat)
    requires r.depth != d
    ensures IdsAt([r] + rest, d) == IdsAt(rest, d)
  {
    IdsAtAppend([r], rest, d);
    assert [r][..0] == [];
  }

  /** Of one category's walk, only the category itself is at the walk's own depth. */
  lemma IdsAtWalk(children: Children, rank: map<int, nat>, t: Term, depth: nat, selection: Option<Value>)
    requires Ranked(children, rank)
    ensures IdsAt(Walk(children, rank, t, depth, selection), depth) == [t.id]
  {
    var rows := Walk(children, rank, t, depth, selection);
    WalkShape(children, rank, t, depth, selection);
    assert rows == [rows[0]] + rows[1..];
    IdsAtAppend([rows[0]], rows[1..], depth);
    IdsAtDeeper(rows[1..], depth);
    assert [rows[0]][..0] == [];
  }

  lemma {:induction false} IdsAtChildWalk(children: Children, rank: map<int, nat>, parent: int, n: nat, depth: nat, selection: Option<Value>)
    requires Ranked(children, rank) && n <= |ChildrenOf(children, parent)|
    ensures IdsAt(ChildWalk(children, rank, parent, n, depth, selection), depth) == Ids(ChildrenOf(children, parent)[..n])
    decreases n
  {
    if n > 0 {
      var cs := ChildrenOf(children, parent);
      ChildRanksLower(children, rank, parent, n - 1);
      IdsAtChildWalk(children, rank, parent, n - 1, depth, selection);
      IdsAtAppend(ChildWalk(children, rank, parent, n - 1, depth, selection), Walk(children, rank, cs[n - 1], depth, selection), depth);
      IdsAtWalk(children, rank, cs[n - 1], depth, selection);
      assert cs[..n][..n - 1] == cs[..n - 1];
    }
  }

  /**
   * The rows one level below a category's row are its subcategories, each
   * once, in the host's order.
   */
  lemma ChildrenInOrder(children: Children, rank: map<int, nat>, t: Term, depth: nat, selection: Option<Value>)
    requires Ranked(children, rank)
    ensures IdsAt(Walk(children, rank, t, depth, selection), depth + 1) == Ids(ChildrenOf(children, t.id))
  {
    var cs := ChildrenOf(children, t.id);
    var r := RowFor(t, depth, selection);
    var rest := ChildWalk(children, rank, t.id, |cs|, depth + 1, selection);
    assert Walk(children, rank, t, depth, selection) == [r] + rest;
    IdsAtOtherHead(r, rest, depth + 1);
    IdsAtChildWalk(children, rank, t.id, |cs|, depth + 1, selection);
    assert cs[..|cs|] == cs;
  }

  /** The top-level rows of the checklist are the top-level categories, in the host's order. */
  lemma TopLevelInOrder(children: Children, rank: map<int, nat>, selection: Option<Value>)
    requires Ranked(children, rank)
    ensures IdsAt(CategoryChecklist(children, rank, selection), 0) == Ids(ChildrenOf(children, 0))
  {
    var cs := ChildrenOf(children, 0);
    IdsAtChildWalk(children, rank, 0, |cs|, 0, selection);
    assert cs[..|cs|] == cs;
  }

  /** Depth grows by at most one from a row to the next: a row comes right before its first subcategory. */
  predicate StepsDown(rows: seq<Row>) {
    forall k :: 0 < k < |rows| ==> rows[k].depth <= rows[k - 1].depth + 1
  }

  lemma StepsDownAppend(a: seq<Row>, b: seq<Row>)
    requires StepsDown(a) && StepsDown(b)
    requires a != [] && b != [] ==> b[0].depth <= a[|a| - 1].depth + 1
    ensures StepsDown(a + b)
  {
    forall k | 0 < k < |a + b|
      ensures (a + b)[k].depth <= (a + b)[k - 1].depth + 1
    {
      if k < |a| {
        assert (a + b)[k] == a[k] && (a + b)[k - 1] == a[k - 1];
      } else if k == |a| {
        assert (a + b)[k] == b[0] && (a + b)[k - 1] == a[|a| - 1];
      } else {
        assert (a + b)[k] == b[k - |a|] && (a + b)[k - 1] == b[k - 1 - |a|];
      }
    }
  }

  lemma {:induction false} WalkStepsDown(children: Children, rank: map<int, nat>, t: Term, depth: nat, selection: Option<Value>)
    requires Ranked(children, rank)
    ensures StepsDown(Walk(children, rank, t, depth, selection))
    decreases RankOf(rank, t.id), 1
  {
    ChildWalkStepsDown(children, rank, t.id, |ChildrenOf(children, t.id)|, depth + 1, selection);
    StepsDownAppend([RowFor(t, depth, selection)],
      ChildWalk(children, rank, t.id, |ChildrenOf(children, t.id)|, depth + 1, selection));
  }

  lemma {:induction false} ChildWalkStepsDown(children: Children, rank: map<int, nat>, parent: int, n: nat, depth: nat, selection: Option<Value>)
    requires Ranked(children, rank) && n <= |ChildrenOf(children, parent)|
    ensures StepsDown(ChildWalk(children, rank, parent, n, depth, selection))
    decreases RankOf(rank, parent), 0, n
  {
    if n > 0 {
      var cs := ChildrenOf(children, parent);
      ChildRanksLower(children, rank, parent, n - 1);
      ChildWalkStepsDown(children, rank, parent, n - 1, depth, selection);
      ChildWalkShape(children, rank, parent, n - 1, depth, selection);
      WalkStepsDown(children, rank, cs[n - 1], depth, selection);
      StepsDownAppend(ChildWalk(children, rank, parent, n - 1, depth, selection), Walk(children, rank, cs[n - 1], depth, selection));
    }
  }

  /**
   * The checklist is a pre-order listing: it starts at depth 0 and never
   * skips a level going down, so each row's parent is the nearest earlier
   * row one level up.
   */
  lemma ChecklistIsPreOrder(children: Children, rank: map<int, nat>, selection: Option<Value>)
    requires Ranked(children, rank)
    ensures StepsDown(CategoryChecklist(children, rank, selection))
  {
    ChildWalkStepsDown(children, rank, 0, |ChildrenOf(children, 0)|, 0, selection);
  }

  /**
   * The id of the nearest row before index `j` that is shallower than `d`,
   * or `p` when there is none.
   */
  function Nearest(rows: seq<Row>, j: nat, d: nat, p: int): int
    requires j <= |rows|
  {
    if j == 0 then p
    else if rows[j - 1].depth < d then rows[j - 1].id
    else Nearest(rows, j - 1, d, p)
  }

  /** The ids of the direct subcategories of `p`, in the host's order. */
  function ChildIds(children: Children, p: int): (ids: seq<int>)
    ensures |ids| == |ChildrenOf(children, p)|
    ensures forall i :: 0 <= i < |ids| ==> ids[i] == ChildrenOf(children, p)[i].id
  {
    seq(|ChildrenOf(children, p)|, i requires 0 <= i < |ChildrenOf(children, p)| => ChildrenOf(children, p)[i].id)
  }

  predicate IsChildOf(children: Children, p: int, id: int) {
    id in ChildIds(children, p)
  }

  /** Each row is a subcategory of the nearest earlier shallower row, or of `p` when no earlier row is shallower. */
  predicate Linked(children: Children, rows: seq<Row>, p: int) {
    forall k {:trigger Nearest(rows, k, rows[k].depth, p)} :: 0 <= k < |rows| ==>
      IsChildOf(children, Nearest(rows, k, rows[k].depth, p), rows[k].id)
  }

  lemma {:induction false} NearestPrefix(a: seq<Row>, b: seq<Row>, j: nat, d: nat, p: int)
    requires j <= |a|
    ensures Nearest(a + b, j, d, p) == Nearest(a, j, d, p)
    decreases j
  {
    if j > 0 {
      assert (a + b)[j - 1] == a[j - 1];
      NearestPrefix(a, b, j - 1, d, p);
    }
  }

  lemma {:induction false} NearestAppend(a: seq<Row>, b: seq<Row>, m: nat, d: nat, p: int)
    requires m <= |b|
    ensures Nearest(a + b, |a| + m, d, p) == Nearest(b, m, d, Nearest(a, |a|, d, p))
    decreases m
  {
    if m == 0 {
      NearestPrefix(a, b, |a|, d, p);
    } else {
      assert (a + b)[|a| + m - 1] == b[m - 1];
      NearestAppend(a, b, m - 1, d, p);
    }
  }

  lemma {:induction false} NearestNone(a: seq<Row>, j: nat, d: nat, p: int)
    requires j <= |a|
    requires forall k :: 0 <= k < j ==> a[k].depth >= d
    ensures Nearest(a, j, d, p) == p
    decreases j
  {
    if j > 0 {
      NearestNone(a, j - 1, d, p);
    }
  }

  /** The rows below a category's own are linked to it. */
  lemma {:induction false} WalkLinked(children: Children, rank: map<int, nat>, t: Term, depth: nat, selection: Option<Value>)
    requires Ranked(children, rank)
    ensures Linked(children, Walk(children, rank, t, depth, selection)[1..], t.id)
    decreases RankOf(rank, t.id), 1
  {
    var rest := ChildWalk(children, rank, t.id, |ChildrenOf(children, t.id)|, depth + 1, selection);
    assert Walk(children, rank, t, depth, selection)[1..] == rest;
    ChildWalkLinked(children, rank, t.id, |ChildrenOf(children, t.id)|, depth + 1, selection);
  }

  lemma {:induction false} ChildWalkLinked(children: Children, rank: map<int, nat>, parent: int, n: nat, depth: nat, selection: Option<Value>)
    requires Ranked(children, rank) && n <= |ChildrenOf(children, parent)|
    ensures Linked(children, ChildWalk(children, rank, parent, n, depth, selection), parent)
    decreases RankOf(rank, parent), 0, n
  {
    if n > 0 {
      var cs := ChildrenOf(children, parent);
      ChildRanksLower(children, rank, parent, n - 1);
      var a := ChildWalk(children, rank, parent, n - 1, depth, selection);
      var b := Walk(children, rank, cs[n - 1], depth, selection);
      assert ChildWalk(children, rank, parent, n, depth, selection) == a + b;
      ChildWalkLinked(children, rank, parent, n - 1, depth, selection);
      ChildWalkShape(children, rank, parent, n - 1, depth, selection);
      SubcategoryWalk(children, rank, parent, n - 1, depth, selection);
      LinkedAppend(children, a, b, cs[n - 1], depth, parent, selection);
    }
  }

  /** The walk of a subcategory of `parent`: its head row, deeper rows after it, linked to it. */
  lemma {:induction false} SubcategoryWalk(children: Children, rank: map<int, nat>, parent: int, i: nat, depth: nat, selection: Option<Value>)
    requires Ranked(children, rank) && i < |ChildrenOf(children, parent)|
    ensures var c := ChildrenOf(children, parent)[i];
      var b := Walk(children, rank, c, depth, selection);
      && c in ChildrenOf(children, parent)
      && |b| > 0 && b[0] == RowFor(c, depth, selection)
      && Shaped(b[1..], depth + 1, selection) && Linked(children, b[1..], c.id)
    decreases RankOf(rank, parent), 0, i
  {
    var c := ChildrenOf(children, parent)[i];
    ChildRanksLower(children, rank, parent, i);
    WalkShape(children, rank, c, depth, selection);
    WalkLinked(children, rank, c, depth, selection);
  }

  /**
   * Rows linked to `parent`, all at `depth` or deeper, followed by the walk
   * of a subcategory of `parent` at `depth`, are still linked to `parent`.
   */
  lemma {:induction false} LinkedAppend(children: Children, a: seq<Row>, b: seq<Row>, c: Term, depth: nat, parent: int, selection: Option<Value>)
    requires Linked(children, a, parent) && Shaped(a, depth, selection)
    requires |b| > 0 && b[0] == RowFor(c, depth, selection) && c in ChildrenOf(children, parent)
    requires Shaped(b[1..], depth + 1, selection) && Linked(children, b[1..], c.id)
    ensures Linked(children, a + b, parent)
  {
    forall k | 0 <= k < |a + b|
      ensures IsChildOf(children, Nearest(a + b, k, (a + b)[k].depth, parent), (a + b)[k].id)
    {
      if k < |a| {
        LinkedPrefixAt(children, a, b, k, parent);
      } else {
        LinkedSuffixAt(children, a, b, c, k - |a|, depth, parent, selection);
      }
    }
  }

  lemma {:induction false} LinkedPrefixAt(children: Children, a: seq<Row>, b: seq<Row>, k: nat, parent: int)
    requires Linked(children, a, parent) && k < |a|
    ensures IsChildOf(children, Nearest(a + b, k, (a + b)[k].depth, parent), (a + b)[k].id)
  {
    assert (a + b)[k] == a[k];
    NearestPrefix(a, b, k, a[k].depth, parent);
    assert IsChildOf(children, Nearest(a, k, a[k].depth, parent), a[k].id);
  }

  lemma {:induction false} LinkedSuffixAt(children: Children, a: seq<Row>, b: seq<Row>, c: Term, m: nat, depth: nat, parent: int, selection: Option<Value>)
    requires Shaped(a, depth, selection)
    requires m < |b| && b[0] == RowFor(c, depth, selection) && c in ChildrenOf(children, parent)
    requires Shaped(b[1..], depth + 1, selection) && Linked(children, b[1..], c.id)
    ensures IsChildOf(children, Nearest(a + b, |a| + m, (a + b)[|a| + m].depth, parent), (a + b)[|a| + m].id)
  {
    assert (a + b)[|a| + m] == b[m];
    NearestAppend(a, b, m, b[m].depth, parent);
    LinkedInWalk(children, a, b, c, m, depth, parent, selection);
  }

  /** Past the head row of a walk, the nearest shallower row is found after the head, or is the head. */
  lemma {:induction false} NearestAfterHead(b: seq<Row>, m: nat, d: nat, q: int)
    requires 0 < m <= |b| && b[0].depth < d
    ensures Nearest(b, m, d, q) == Nearest(b[1..], m - 1, d, b[0].id)
    decreases m
  {
    if m > 1 {
      assert b[1..][m - 2] == b[m - 1];
      NearestAfterHead(b, m - 1, d, q);
    }
  }

  /** One row of a subcategory's walk placed after rows no shallower than it. */
  lemma {:induction false} LinkedInWalk(children: Children, a: seq<Row>, b: seq<Row>, c: Term, m: nat, depth: nat, parent: int, selection: Option<Value>)
    requires m < |b| && b[0] == RowFor(c, depth, selection)
    requires c in ChildrenOf(children, parent)
    requires Shaped(a, depth, selection)
    requires Shaped(b[1..], depth + 1, selection) && Linked(children, b[1..], c.id)
    ensures IsChildOf(children, Nearest(b, m, b[m].depth, Nearest(a, |a|, b[m].depth, parent)), b[m].id)
  {
    var d := b[m].depth;
    var q := Nearest(a, |a|, d, parent);
    if m == 0 {
      NearestNone(a, |a|, d, parent);
      var i :| 0 <= i < |ChildrenOf(children, parent)| && ChildrenOf(children, parent)[i] == c;
      assert ChildIds(children, parent)[i] == b[m].id;
    } else {
      var rest := b[1..];
      assert rest[m - 1] == b[m];
      assert rest[m - 1].depth >= depth + 1;
      NearestAfterHead(b, m, d, q);
      assert IsChildOf(children, Nearest(rest, m - 1, rest[m - 1].depth, c.id), rest[m - 1].id);
    }
  }

  /**
   * The checklist nests as the categories do: each row is a subcategory of
   * the nearest earlier row above it, and a row with none above it is a
   * top-level category.
   */
  lemma ChecklistNests(children: Children, rank: map<int, nat>, selection: Option<Value>)
    requires Ranked(children, rank)
    ensures Linked(children, CategoryChecklist(children, rank, selection), 0)
  {
    ChildWalkLinked(children, rank, 0, |ChildrenOf(children, 0)|, 0, selection);
  }

  /**
   * A category's box is checked in the checklist exactly when the saved
   * selection of a categories carousel lists its id.
   */
  lemma ChecklistShowsSaved(children: Children, rank: map<int, nat>, post: Submission, sanitize: string -> string, k: nat)
    requires Ranked(children, rank)
    requires BuildConfig(post, sanitize).Ok? && !IsProducts(post, sanitize)
    requires k < |CategoryChecklist(children, rank, Entry(Some(BuildConfig(post, sanitize).value), SelectedCategories))|
    ensures var rows := CategoryChecklist(children, rank, Entry(Some(BuildConfig(post, sanitize).value), SelectedCategories));
      rows[k].selected <==> rows[k].id in SubmittedIds(post, SelectedCategories)
  {
    var c := BuildConfig(post, sanitize).value;
    ChecklistShape(children, rank, Entry(Some(c), SelectedCategories));
    assert Get(c, SelectedCategories) == Some(IntList(SubmittedIds(post, SelectedCategories)));
  }
}
