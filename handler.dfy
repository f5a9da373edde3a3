/** The navigation layer of `main_handler` in `main.cpp`: a cursor on the
    view model, scrolling bounded by head and tail, the movement keys that
    beep at those bounds, collapse-all and expand-all, the click that
    toggles a row, and the label path of the breadcrumb. Drawing is left
    out; what the screen shows is modelled in `Session`. */
module Handler {

  import opened JsonDoc
  import opened Landing
  import opened ViewModel
  import opened Navigation

  function Min(a: int, b: int): int
  {
    if a <= b then a else b
  }

  /** `at_top()`: the cursor is `head()`, the first row. */
  predicate AtTop(g: Graph, p: Ptr)
  {
    p == g.head.next
  }

  /** `at_bottom()`: `forward()` of the cursor is `tail()`. */
  predicate AtBottom(g: Graph, p: Ptr)
    requires IsNode(g, p)
  {
    Forward(g, p) == DummyTail
  }

  /** At the top exactly when `backward()` has nowhere to go but the dummy
      head, and exactly when no row before the cursor is visible. */
  lemma AtTopMeans(g: Graph, p: Ptr)
    requires NavOk(g) && IsRow(g, p)
    ensures AtTop(g, p) <==> Backward(g, p) == DummyHead
    ensures AtTop(g, p) <==> forall j :: 0 <= j < p ==> Hidden(g, j)
  {
    FirstGoesToHead(g);
    assert !Hidden(g, 0);
    if p > 0 {
      BackwardRetreats(g, p);
    }
  }

  /** From a visible row, at the bottom exactly when every later row is
      hidden. */
  lemma AtBottomMeans(g: Graph, p: Ptr)
    requires NavOk(g) && IsRow(g, p) && !Hidden(g, p)
    ensures AtBottom(g, p) <==> forall j :: p < j < |g.rows| ==> Hidden(g, j)
  {
    ForwardNextVisible(g, p);
    ForwardAdvances(g, p);
    var f := Pos(g, Forward(g, p));
    if forall j :: p < j < |g.rows| ==> Hidden(g, j) {
      assert f == |g.rows| by {
        assert f < |g.rows| ==> Hidden(g, f);
      }
    }
  }

  /** From every row, `forward()` reaches a later row or the tail. */
  ghost predicate Advancing(g: Graph)
  {
    forall p {:trigger Forward(g, p)} :: IsRow(g, p) ==>
      var f := Forward(g, p); (IsRow(g, f) || f == DummyTail) && p < Pos(g, f)
  }

  /** `head()` is the first row, and from every later row `backward()`
      reaches an earlier row. */
  ghost predicate Retreating(g: Graph)
  {
    && g.head.next == RowOrTail(g, 0)
    && forall p {:trigger Backward(g, p)} :: IsRow(g, p) && p > 0 ==> IsRow(g, Backward(g, p)) && Backward(g, p) < p
  }

  /** The positions of the rows, and of the tail, that no collapsed
      container hides. */
  ghost function Shown(g: Graph): set<int>
  {
    set j | 0 <= j <= |g.rows| && !Hidden(g, j)
  }

  /** Moving within `v`: from a row of `v`, `forward()` reaches a node of `v`
      that `backward()` leads back from, and `backward()` from a row of `v`
      other than the first reaches a row of `v` that `forward()` leads back
      from. */
  ghost predicate Moves(g: Graph, v: set<int>)
  {
    && (forall p {:trigger Forward(g, p)} :: IsRow(g, p) && p in v ==>
          var f := Forward(g, p); IsNode(g, f) && Pos(g, f) in v && Backward(g, f) == p)
    && (forall p {:trigger Backward(g, p)} :: IsRow(g, p) && p > 0 && p in v ==>
          var b := Backward(g, p); IsRow(g, b) && b in v && Forward(g, b) == p)
  }

  /** A navigable model moves the cursor one row at a time in either
      direction, and between visible rows the two directions undo each
      other. */
  lemma NavMoves(g: Graph)
    requires NavOk(g)
    ensures Advancing(g) && Retreating(g) && Moves(g, Shown(g))
  {
    var v := Shown(g);
    forall p | IsRow(g, p) && p in v
      ensures var f := Forward(g, p); IsNode(g, f) && Pos(g, f) in v && Backward(g, f) == p
    {
      ForwardNextVisible(g, p);
      ForwardThenBackward(g, p);
    }
    forall p | IsRow(g, p) && p > 0 && p in v
      ensures var b := Backward(g, p); IsRow(g, b) && b in v && Forward(g, b) == p
    {
      assert RowOrTail(g, p) == p;
      BackwardThenForward(g, p);
    }
    forall p | IsRow(g, p) ensures var f := Forward(g, p); (IsRow(g, f) || f == DummyTail) && p < Pos(g, f) {
      ForwardAdvances(g, p);
    }
    forall p | IsRow(g, p) && p > 0 ensures IsRow(g, Backward(g, p)) && Backward(g, p) < p {
      BackwardRetreats(g, p);
    }
  }

  /** The part of `NavMoves` that the scrolling functions need. */
  lemma NavSteps(g: Graph)
    requires NavOk(g)
    ensures Advancing(g) && Retreating(g)
  {
    NavMoves(g);
  }

  /** `scroll_forward(n)`: up to `n` steps of `forward()`, never onto the
      tail. */
  function ScrollDown(g: Graph, p: Ptr, n: int): (q: Ptr)
    requires Advancing(g) && IsRow(g, p)
    ensures IsRow(g, q) && p <= q
    decreases |g.rows| - p
  {
    if n <= 0 || Forward(g, p) == DummyTail then p
    else ScrollDown(g, Forward(g, p), n - 1)
  }

  /** `scroll_backward(n)`: up to `n` steps of `backward()`, stopping at
      `head()`. */
  function ScrollUp(g: Graph, p: Ptr, n: int): (q: Ptr)
    requires Retreating(g) && IsRow(g, p)
    ensures IsRow(g, q) && q <= p
    decreases p
  {
    if n <= 0 || AtTop(g, p) then p
    else ScrollUp(g, Backward(g, p), n - 1)
  }

  /** `backward()` applied `k` times, stopping at a null pointer. */
  function BackwardN(g: Graph, p: Ptr, k: nat): Ptr
    decreases k
  {
    if k == 0 || !IsNode(g, p) then p else BackwardN(g, Backward(g, p), k - 1)
  }

  /** `scroll_forward(n)` takes `k` steps, at most `n`, and takes fewer
      only on reaching the bottom. */
  lemma {:induction false} ScrollDownWalk(g: Graph, p: Ptr, n: int) returns (k: nat)
    requires Advancing(g) && IsRow(g, p)
    ensures k <= if n < 0 then 0 else n
    ensures ScrollDown(g, p, n) == ForwardN(g, p, k)
    ensures k < n ==> AtBottom(g, ScrollDown(g, p, n))
    decreases |g.rows| - p
  {
    if n <= 0 || Forward(g, p) == DummyTail {
      k := 0;
    } else {
      var k' := ScrollDownWalk(g, Forward(g, p), n - 1);
      k := k' + 1;
    }
  }

  /** `scroll_backward(n)` takes `k` steps, at most `n`, and takes fewer
      only on reaching the top. */
  lemma {:induction false} ScrollUpWalk(g: Graph, p: Ptr, n: int) returns (k: nat)
    requires Retreating(g) && IsRow(g, p)
    ensures k <= if n < 0 then 0 else n
    ensures ScrollUp(g, p, n) == BackwardN(g, p, k)
    ensures k < n ==> AtTop(g, ScrollUp(g, p, n))
    decreases p
  {
    if n <= 0 || AtTop(g, p) {
      k := 0;
    } else {
      var k' := ScrollUpWalk(g, Backward(g, p), n - 1);
      k := k' + 1;
    }
  }

  /** Scrolling forward from a row of a set closed under moves stays in
      the set. */
  lemma {:induction false} ScrollDownStays(g: Graph, v: set<int>, p: Ptr, n: int)
    requires Advancing(g) && Moves(g, v) && IsRow(g, p) && p in v
    ensures ScrollDown(g, p, n) in v
    decreases |g.rows| - p
  {
    if !(n <= 0 || Forward(g, p) == DummyTail) {
      var f := Forward(g, p);
      assert Pos(g, f) == f;
      ScrollDownStays(g, v, f, n - 1);
    }
  }

  /** Scrolling backward from a row of a set closed under moves stays in
      the set. */
  lemma {:induction false} ScrollUpStays(g: Graph, v: set<int>, p: Ptr, n: int)
    requires Retreating(g) && Moves(g, v) && IsRow(g, p) && p in v
    ensures ScrollUp(g, p, n) in v
    decreases p
  {
    if !(n <= 0 || AtTop(g, p)) {
      assert RowOrTail(g, 0) == 0;
      ScrollUpStays(g, v, Backward(g, p), n - 1);
    }
  }

  /** Scrolling forward or backward from a visible row lands on a visible
      row. */
  lemma ScrollVisible(g: Graph, p: Ptr, n: int)
    requires NavOk(g) && IsRow(g, p) && !Hidden(g, p)
    ensures Advancing(g) && Retreating(g)
    ensures !Hidden(g, ScrollDown(g, p, n)) && !Hidden(g, ScrollUp(g, p, n))
  {
    NavMoves(g);
    assert p in Shown(g);
    ScrollDownStays(g, Shown(g), p, n);
    ScrollUpStays(g, Shown(g), p, n);
  }

  lemma {:induction false} ScrollUpSplit(g: Graph, p: Ptr, a: nat, b: nat)
    requires Retreating(g) && IsRow(g, p)
    ensures ScrollUp(g, p, a + b) == ScrollUp(g, ScrollUp(g, p, a), b)
    decreases a
  {
    if a > 0 && !AtTop(g, p) {
      ScrollUpSplit(g, Backward(g, p), a - 1, b);
    }
  }

  lemma {:induction false} ScrollDownSplit(g: Graph, p: Ptr, a: nat, b: nat)
    requires Advancing(g) && IsRow(g, p)
    ensures ScrollDown(g, p, a + b) == ScrollDown(g, ScrollDown(g, p, a), b)
    decreases a
  {
    if a > 0 && Forward(g, p) != DummyTail {
      ScrollDownSplit(g, Forward(g, p), a - 1, b);
    }
  }

  /** From a row of a set closed under moves, scrolling backward by the
      number of steps a forward scroll took comes back to the same row. */
  lemma {:induction false} DownUpWithin(g: Graph, v: set<int>, p: Ptr, n: int) returns (k: nat)
    requires Advancing(g) && Retreating(g) && Moves(g, v) && IsRow(g, p) && p in v
    ensures k <= if n < 0 then 0 else n
    ensures k < n ==> AtBottom(g, ScrollDown(g, p, n))
    ensures ScrollUp(g, ScrollDown(g, p, n), k) == p
    decreases |g.rows| - p
  {
    if n <= 0 || Forward(g, p) == DummyTail {
      k := 0;
    } else {
      var q := Forward(g, p);
      assert Pos(g, q) == q;
      var k' := DownUpWithin(g, v, q, n - 1);
      var r := ScrollDown(g, p, n);
      assert r == ScrollDown(g, q, n - 1);
      ScrollUpSplit(g, r, k', 1);
      assert !AtTop(g, q);
      assert ScrollUp(g, q, 1) == Backward(g, q) == p;
      k := k' + 1;
    }
  }

  /** From a row of a set closed under moves, scrolling forward by the
      number of steps a backward scroll took comes back to the same row. */
  lemma {:induction false} UpDownWithin(g: Graph, v: set<int>, p: Ptr, n: int) returns (k: nat)
    requires Advancing(g) && Retreating(g) && Moves(g, v) && IsRow(g, p) && p in v
    ensures k <= if n < 0 then 0 else n
    ensures k < n ==> AtTop(g, ScrollUp(g, p, n))
    ensures ScrollDown(g, ScrollUp(g, p, n), k) == p
    decreases p
  {
    if n <= 0 || AtTop(g, p) {
      k := 0;
    } else {
      var q := Backward(g, p);
      assert RowOrTail(g, 0) == 0;
      var k' := UpDownWithin(g, v, q, n - 1);
      var r := ScrollUp(g, p, n);
      assert r == ScrollUp(g, q, n - 1);
      ScrollDownSplit(g, r, k', 1);
      assert ScrollDown(g, q, 1) == ScrollDown(g, p, 0) == p;
      k := k' + 1;
    }
  }

  /** From a visible row, scrolling backward by the number of steps a
      forward scroll took comes back to the same row, and the other way
      round; a scroll takes fewer steps than asked only at the bottom or at
      the top. */
  lemma ScrollsUndo(g: Graph, p: Ptr, n: int) returns (down: nat, up: nat)
    requires NavOk(g) && IsRow(g, p) && !Hidden(g, p)
    ensures Advancing(g) && Retreating(g)
    ensures down <= (if n < 0 then 0 else n) && up <= (if n < 0 then 0 else n)
    ensures down < n ==> AtBottom(g, ScrollDown(g, p, n))
    ensures up < n ==> AtTop(g, ScrollUp(g, p, n))
    ensures ScrollUp(g, ScrollDown(g, p, n), down) == p
    ensures ScrollDown(g, ScrollUp(g, p, n), up) == p
  {
    NavMoves(g);
    assert p in Shown(g);
    down := DownUpWithin(g, Shown(g), p, n);
    up := UpDownWithin(g, Shown(g), p, n);
  }

  /** `tail()->backward()`, where `scroll_to_bottom()` puts the cursor, is
      the last visible row, and it is at the bottom. */
  lemma BottomIsLastVisible(g: Graph)
    requires NavOk(g) && |g.rows| > 0
    ensures var b := Backward(g, DummyTail);
      && IsRow(g, b) && !Hidden(g, b) && AtBottom(g, b)
      && forall j :: b < j < |g.rows| ==> Hidden(g, j)
  {
    TailVisible(g);
    BackwardThenForward(g, |g.rows|);
    BackwardPrevVisible(g, |g.rows|);
  }

  /** `head()`, where `scroll_to_top()` puts the cursor, is at the top and
      visible. */
  lemma TopIsFirstVisible(g: Graph)
    requires NavOk(g) && |g.rows| > 0
    ensures IsRow(g, g.head.next) && AtTop(g, g.head.next) && !Hidden(g, g.head.next)
  {
    assert g.head.next == RowOrTail(g, 0) == 0;
  }

  /** Field by field, what `SameLinks` says of the rows. */
  lemma SameLinksRows(g: Graph, h: Graph)
    requires SameLinks(g, h)
    ensures forall i :: 0 <= i < |g.rows| ==>
      && h.rows[i].entry == g.rows[i].entry && h.rows[i].forwardSkip == g.rows[i].forwardSkip
      && h.rows[i].next == g.rows[i].next && h.rows[i].prev == g.rows[i].prev
    ensures h.head.entry == g.head.entry && h.tail.entry == g.tail.entry
  {
    forall i | 0 <= i < |g.rows| ensures h.rows[i].entry == g.rows[i].entry && h.rows[i].forwardSkip == g.rows[i].forwardSkip
      && h.rows[i].next == g.rows[i].next && h.rows[i].prev == g.rows[i].prev
    {
      assert At(h, i) == h.rows[i] && At(g, i) == g.rows[i];
    }
    assert At(h, DummyHead) == h.head && At(g, DummyHead) == g.head;
    assert At(h, DummyTail) == h.tail && At(g, DummyTail) == g.tail;
  }

  lemma SameLinksTrans(a: Graph, b: Graph, c: Graph)
    requires SameLinks(a, b) && SameLinks(b, c)
    ensures SameLinks(a, c)
  {
    forall p | IsNode(a, p) ensures IsNode(b, p) {
    }
  }

  /** One step of a bulk loop: `set_collapse()` on row `k`. */
  lemma CollapseStep(g: Graph, k: int)
    requires Consistent(g) && IsRow(g, k)
    ensures SkipTargetOk(g, k) && Consistent(Collapse(g, k)) && SameLinks(g, Collapse(g, k))
    ensures forall i :: 0 <= i < |g.rows| ==> Collapse(g, k).rows[i].collapsed == (i == k || g.rows[i].collapsed)
  {
    CollapseKeepsConsistent(g, k);
    if !g.rows[k].collapsed {
      CollapseEffect(g, k);
    }
  }

  /** One step of a bulk loop: `set_expand()` on row `k`. */
  lemma ExpandStep(g: Graph, k: int)
    requires Consistent(g) && IsRow(g, k)
    ensures SkipTargetOk(g, k) && Consistent(Expand(g, k)) && SameLinks(g, Expand(g, k))
    ensures forall i :: 0 <= i < |g.rows| ==> Expand(g, k).rows[i].collapsed == (i != k && g.rows[i].collapsed)
  {
    ExpandKeepsConsistent(g, k);
    if g.rows[k].collapsed {
      ExpandEffect(g, k);
    }
  }

  /** The `'-'` key as the source writes it: `set_collapse()` on every row
      from position `k` on, whatever its kind. */
  function CollapseEvery(g: Graph, k: nat): (h: Graph)
    requires Consistent(g) && k <= |g.rows|
    ensures Consistent(h) && SameLinks(g, h)
    ensures forall i :: 0 <= i < |g.rows| ==> h.rows[i].collapsed == (g.rows[i].collapsed || k <= i)
    decreases |g.rows| - k
  {
    if k == |g.rows| then g
    else
      CollapseStep(g, k);
      var h := CollapseEvery(Collapse(g, k), k + 1);
      SameLinksTrans(g, Collapse(g, k), h);
      h
  }

  /** The `'-'` key as intended: `set_collapse()` on every container row
      from position `k` on. */
  function CollapseFrom(g: Graph, k: nat): (h: Graph)
    requires NavOk(g) && k <= |g.rows|
    ensures NavOk(h) && SameLinks(g, h)
    ensures forall i :: 0 <= i < |g.rows| ==>
      h.rows[i].collapsed == (g.rows[i].collapsed || (k <= i && IsCollapsible(g.rows[i].entry.kind)))
    decreases |g.rows| - k
  {
    if k == |g.rows| then g
    else if IsCollapsible(g.rows[k].entry.kind) then
      CollapseKeepsNav(g, k);
      CollapseStep(g, k);
      var g1 := Collapse(g, k);
      SameLinksRows(g, g1);
      var h := CollapseFrom(g1, k + 1);
      SameLinksTrans(g, g1, h);
      CollapseFromJoin(g, g1, h, k);
      h
    else
      CollapseFrom(g, k + 1)
  }

  /** The flags after collapsing row `k` and then every container after it
      are those of collapsing every container from `k` on. */
  lemma CollapseFromJoin(g: Graph, g1: Graph, h: Graph, k: int)
    requires 0 <= k < |g.rows| == |g1.rows| == |h.rows| && IsCollapsible(g.rows[k].entry.kind)
    requires forall i :: 0 <= i < |g.rows| ==>
      g1.rows[i].entry == g.rows[i].entry && g1.rows[i].collapsed == (i == k || g.rows[i].collapsed)
    requires forall i :: 0 <= i < |g1.rows| ==>
      h.rows[i].collapsed == (g1.rows[i].collapsed || (k + 1 <= i && IsCollapsible(g1.rows[i].entry.kind)))
    ensures forall i :: 0 <= i < |g.rows| ==>
      h.rows[i].collapsed == (g.rows[i].collapsed || (k <= i && IsCollapsible(g.rows[i].entry.kind)))
  {
  }

  /** The `'+'` key: `set_expand()` on every row from position `k` on. */
  function ExpandFrom(g: Graph, k: nat): (h: Graph)
    requires NavOk(g) && k <= |g.rows|
    ensures NavOk(h) && SameLinks(g, h)
    ensures forall i :: 0 <= i < |g.rows| ==> h.rows[i].collapsed == (g.rows[i].collapsed && i < k)
    decreases |g.rows| - k
  {
    if k == |g.rows| then g
    else
      ExpandKeepsNav(g, k);
      ExpandStep(g, k);
      var g1 := Expand(g, k);
      var h := ExpandFrom(g1, k + 1);
      SameLinksTrans(g, g1, h);
      h
  }

  /** With the source's `'-'`, a primitive row ends up collapsed with a
      null skip: `forward()` from it is null, and drawing from a cursor on
      it dereferences that null. */
  lemma CollapseEveryLosesForward(g: Graph, p: Ptr)
    requires Consistent(g) && IsRow(g, p) && !IsCollapsible(g.rows[p].entry.kind)
    ensures IsRow(CollapseEvery(g, 0), p) && Forward(CollapseEvery(g, 0), p) == Nil
  {
    var h := CollapseEvery(g, 0);
    SameLinksRows(g, h);
  }

  /** With collapse-all restricted to containers, `forward()` from every row
      still reaches a later row or the tail. */
  lemma CollapseFromKeepsForward(g: Graph, p: Ptr)
    requires NavOk(g) && IsRow(g, p)
    ensures var h := CollapseFrom(g, 0);
      IsRow(h, p) && (IsRow(h, Forward(h, p)) || Forward(h, p) == DummyTail) && p < Pos(h, Forward(h, p))
  {
    ForwardAdvances(CollapseFrom(g, 0), p);
  }

  /** A consistent model with nothing collapsed has no backward skips. */
  lemma NoBackwardSkips(g: Graph)
    requires Consistent(g) && NoneCollapsed(g)
    ensures forall t :: IsNode(g, t) ==> At(g, t).backwardSkips == map[]
  {
    forall t | IsNode(g, t) ensures At(g, t).backwardSkips == map[] {
      var m := At(g, t).backwardSkips;
      assert BackwardSkipsSound(g, t);
      assert forall k :: k !in m;
      assert m.Keys == {};
    }
  }

  /** Expand-all brings back the freshly loaded model, whatever was
      collapsed since: collapsing changes only flags and backward skips. */
  lemma ExpandAllRestores(g0: Graph, g: Graph)
    requires NavOk(g0) && NoneCollapsed(g0) && NavOk(g) && SameLinks(g0, g)
    ensures ExpandFrom(g, 0) == g0
  {
    var h := ExpandFrom(g, 0);
    SameLinksTrans(g0, g, h);
    NoBackwardSkips(g0);
    assert NoneCollapsed(h);
    NoBackwardSkips(h);
    SameWhenFlat(g0, h);
  }

  /** Two models with the same links, nothing collapsed and no backward
      skips are the same model. */
  lemma SameWhenFlat(g: Graph, h: Graph)
    requires SameLinks(g, h) && NoneCollapsed(g) && NoneCollapsed(h)
    requires !g.head.collapsed && !h.head.collapsed && !g.tail.collapsed && !h.tail.collapsed
    requires forall t :: IsNode(g, t) ==> At(g, t).backwardSkips == map[]
    requires forall t :: IsNode(h, t) ==> At(h, t).backwardSkips == map[]
    ensures h == g
  {
    SameLinksRows(g, h);
    forall i | 0 <= i < |g.rows| ensures h.rows[i] == g.rows[i] {
      assert At(h, i) == h.rows[i] && At(g, i) == g.rows[i];
    }
    assert h.rows == g.rows;
    assert At(h, DummyHead) == h.head && At(g, DummyHead) == g.head;
    assert At(h, DummyTail) == h.tail && At(g, DummyTail) == g.tail;
  }

  /** `forward()` from `p` at most `k` times, stopping at the tail: the node a
      click reaches. */
  function Reach(g: Graph, p: Ptr, k: int): (q: Ptr)
    requires Advancing(g) && (IsRow(g, p) || p == DummyTail)
    ensures (IsRow(g, q) || q == DummyTail) && Pos(g, p) <= Pos(g, q)
    decreases |g.rows| - Pos(g, p)
  {
    if k <= 0 || p == DummyTail then p
    else Reach(g, Forward(g, p), k - 1)
  }

  /** What a click does to the container row `p`: expand it when it is
      collapsed, collapse it otherwise. */
  function Toggle(g: Graph, p: Ptr): (h: Graph)
    requires NavOk(g) && IsRow(g, p) && IsCollapsible(g.rows[p].entry.kind)
    ensures NavOk(h) && SameLinks(g, h) && IsRow(h, p)
    ensures h.rows[p].collapsed == !g.rows[p].collapsed
    ensures h.tail.entry == g.tail.entry && h.rows[p].entry == g.rows[p].entry
    ensures forall x {:trigger Forward(h, x)} :: IsRow(g, x) && x != p ==> Forward(h, x) == Forward(g, x)
  {
    if g.rows[p].collapsed then
      ExpandKeepsNav(g, p);
      ExpandStep(g, p);
      SameLinksRows(g, Expand(g, p));
      OtherForwards(g, Expand(g, p), p);
      Expand(g, p)
    else
      CollapseKeepsNav(g, p);
      CollapseStep(g, p);
      SameLinksRows(g, Collapse(g, p));
      OtherForwards(g, Collapse(g, p), p);
      Collapse(g, p)
  }

  /** Two models with the same links and the same flags outside row `p`
      agree on `forward()` outside `p`. */
  lemma OtherForwards(g: Graph, h: Graph, p: Ptr)
    requires SameLinks(g, h)
    requires forall i :: 0 <= i < |g.rows| && i != p ==> h.rows[i].collapsed == g.rows[i].collapsed
    ensures forall x {:trigger Forward(h, x)} :: IsRow(g, x) && x != p ==> Forward(h, x) == Forward(g, x)
  {
    SameLinksRows(g, h);
    forall x | IsRow(g, x) && x != p ensures Forward(h, x) == Forward(g, x) {
      assert At(h, x) == h.rows[x] && At(g, x) == g.rows[x];
    }
  }

  /** Toggling the same row twice gives back the same model. */
  lemma ToggleTwice(g: Graph, p: Ptr)
    requires NavOk(g) && IsRow(g, p) && IsCollapsible(g.rows[p].entry.kind)
    ensures Toggle(Toggle(g, p), p) == g
  {
    var h := Toggle(g, p);
    if g.rows[p].collapsed {
      assert h == Expand(g, p) && !h.rows[p].collapsed;
      assert Toggle(h, p) == Collapse(h, p);
      CollapseUndoesExpand(g, p);
    } else {
      assert h == Collapse(g, p) && h.rows[p].collapsed;
      assert Toggle(h, p) == Expand(h, p);
      ExpandUndoesCollapse(g, p);
    }
  }

  /** The left click on screen row `y` of `mouse()`: walk from the cursor
      at most `y` steps and at most `screenRows - 1`, stopping at the tail,
      and toggle the node reached when it is a container. */
  function ClickEffect(g: Graph, cur: Ptr, y: int, screenRows: int): (h: Graph)
    requires NavOk(g) && IsRow(g, cur) && !IsCollapsible(g.tail.entry.kind)
    ensures NavOk(h) && SameLinks(g, h) && !IsCollapsible(h.tail.entry.kind)
  {
    NavSteps(g);
    var p := Reach(g, cur, Min(screenRows - 1, y));
    if IsCollapsible(At(g, p).entry.kind) then Toggle(g, p) else g
  }

  /** Two models that agree on `forward()` everywhere but at `p` reach the
      same node, as long as the walk ends at `p`. */
  lemma {:induction false} ReachAgree(g: Graph, h: Graph, q: Ptr, k: int, p: Ptr)
    requires Advancing(g) && Advancing(h) && |h.rows| == |g.rows| && (IsRow(g, q) || q == DummyTail)
    requires Reach(g, q, k) == p
    requires forall x {:trigger Forward(h, x)} :: IsRow(g, x) && x != p ==> Forward(h, x) == Forward(g, x)
    ensures Reach(h, q, k) == p
    decreases |g.rows| - Pos(g, q)
  {
    if !(k <= 0 || q == DummyTail) {
      assert q != p;
      assert Forward(h, q) == Forward(g, q);
      ReachAgree(g, h, Forward(g, q), k - 1, p);
    }
  }

  /** Clicking the same screen row twice gives back the same model: the
      walk is the same since only the clicked row changed, and collapse
      and expand undo each other. */
  lemma ClickTwice(g: Graph, cur: Ptr, y: int, screenRows: int)
    requires NavOk(g) && IsRow(g, cur) && !IsCollapsible(g.tail.entry.kind)
    ensures ClickEffect(ClickEffect(g, cur, y, screenRows), cur, y, screenRows) == g
  {
    NavMoves(g);
    var k := Min(screenRows - 1, y);
    var p := Reach(g, cur, k);
    if IsCollapsible(At(g, p).entry.kind) {
      var h := Toggle(g, p);
      NavMoves(h);
      ReachAgree(g, h, cur, k, p);
      ToggleTwice(g, p);
      assert At(h, p) == h.rows[p];
    }
  }
}
