/** What `forward()` and `backward()` mean on a view model built by `load`:
    collapsing a container hides the rows of its subtree, and both moves go
    to the nearest row that is not hidden. Also: collapse and expand undo
    each other, and collapsing a primitive row loses its successor. */
module Navigation {

  import opened JsonDoc
  import opened Landing
  import opened ViewModel

  /** The list position of a node: rows by index, the dummy tail one past
      the last row, the dummy head one before the first. */
  function Pos(g: Graph, p: Ptr): int
  {
    if p == DummyHead then -1 else if p == DummyTail then |g.rows| else p
  }

  /** Row `j` (or the tail, at `j == |g.rows|`) lies strictly inside the
      subtree of some collapsed row. */
  ghost predicate Hidden(g: Graph, j: int)
  {
    exists c :: HiddenBy(g, c, j)
  }

  /** Position `j` lies strictly inside the subtree of collapsed row `c`. */
  ghost predicate HiddenBy(g: Graph, c: int, j: int)
  {
    0 <= c < j && c < |g.rows| && g.rows[c].collapsed && j < LandOf(g, c)
  }

  /** A view model as `load` leaves it and as the key handlers keep it:
      consistent, every container skipping just past its subtree, and only
      container rows collapsed. */
  ghost predicate NavOk(g: Graph)
  {
    && Consistent(g) && Skipped(g) && !g.head.collapsed && !g.tail.collapsed
    && forall i :: 0 <= i < |g.rows| && g.rows[i].collapsed ==> IsCollapsible(g.rows[i].entry.kind)
  }

  lemma PosOfRowOrTail(g: Graph, j: int)
    requires 0 <= j <= |g.rows|
    ensures Pos(g, RowOrTail(g, j)) == j
  {
  }

  /** The tail is never hidden: no subtree reaches past the last row. */
  lemma TailVisible(g: Graph)
    ensures !Hidden(g, |g.rows|)
  {
  }

  /** The skip of a collapsed row `c` lands at position `LandOf(g, c)`. */
  lemma CollapsedSkip(g: Graph, c: int)
    requires NavOk(g) && 0 <= c < |g.rows| && g.rows[c].collapsed
    ensures g.rows[c].forwardSkip == RowOrTail(g, LandOf(g, c)) && g.rows[c].forwardSkip != Nil
    ensures Pos(g, g.rows[c].forwardSkip) == LandOf(g, c)
  {
  }

  /** The subtree of a collapsed row before a visible position ends at or
      before that position. */
  lemma EndsBefore(g: Graph, t: int, c: int)
    requires !Hidden(g, t) && 0 <= c < t && c < |g.rows| && g.rows[c].collapsed
    ensures LandOf(g, c) <= t
  {
    assert !HiddenBy(g, c, t);
  }

  /** A collapsed row is registered under its indent at the node where its
      subtree ends. */
  lemma LandedRegistered(g: Graph, c: int)
    requires NavOk(g) && 0 <= c < |g.rows| && g.rows[c].collapsed
    ensures var p := RowOrTail(g, LandOf(g, c)); var k := g.rows[c].entry.indent;
      k in At(g, p).backwardSkips && At(g, p).backwardSkips[k] == c
  {
    CollapsedSkip(g, c);
  }

  /** From a visible row, `forward()` moves to the next visible position:
      every row passed over is hidden. */
  lemma ForwardNextVisible(g: Graph, i: int)
    requires NavOk(g) && 0 <= i < |g.rows| && !Hidden(g, i)
    ensures var f := Pos(g, Forward(g, i));
      && i < f <= |g.rows| && !Hidden(g, f)
      && forall m :: i < m < f ==> Hidden(g, m)
  {
    if g.rows[i].collapsed {
      ForwardCollapsed(g, i);
    } else {
      ForwardExpanded(g, i);
    }
  }

  /** `ForwardNextVisible` from a collapsed row: it skips to the end of its
      subtree, which no earlier collapsed row hides. */
  lemma ForwardCollapsed(g: Graph, i: int)
    requires NavOk(g) && 0 <= i < |g.rows| && !Hidden(g, i) && g.rows[i].collapsed
    ensures var f := Pos(g, Forward(g, i));
      && i < f <= |g.rows| && !Hidden(g, f)
      && forall m :: i < m < f ==> Hidden(g, m)
  {
    CollapsedSkip(g, i);
    var l := LandOf(g, i);
    assert Pos(g, Forward(g, i)) == l;
    forall m | i < m < l ensures Hidden(g, m) {
      assert HiddenBy(g, i, m);
    }
    forall c | 0 <= c < l && c < |g.rows| && g.rows[c].collapsed ensures l >= LandOf(g, c) {
      CollapsedBefore(g, i, c);
    }
  }

  /** A collapsed row before the end of the subtree of a visible collapsed
      row `i` ends no later than that subtree. */
  lemma CollapsedBefore(g: Graph, i: int, c: int)
    requires 0 <= i < |g.rows| && !Hidden(g, i) && g.rows[i].collapsed
    requires 0 <= c < LandOf(g, i) && c < |g.rows| && g.rows[c].collapsed
    ensures LandOf(g, i) >= LandOf(g, c)
  {
    if c < i {
      EndsBefore(g, i, c);
    } else if i < c {
      LandNested(Indents(Entries(g)), i, c);
    }
  }

  /** `ForwardNextVisible` from an expanded row: it moves to the next
      position, which no collapsed row hides. */
  lemma ForwardExpanded(g: Graph, i: int)
    requires NavOk(g) && 0 <= i < |g.rows| && !Hidden(g, i) && !g.rows[i].collapsed
    ensures var f := Pos(g, Forward(g, i));
      && i < f <= |g.rows| && !Hidden(g, f)
      && forall m :: i < m < f ==> Hidden(g, m)
  {
    assert Forward(g, i) == RowOrTail(g, i + 1);
    PosOfRowOrTail(g, i + 1);
    NextVisible(g, i);
  }

  /** The position after a visible expanded row is visible. */
  lemma NextVisible(g: Graph, i: int)
    requires 0 <= i < |g.rows| && !Hidden(g, i) && !g.rows[i].collapsed
    ensures !Hidden(g, i + 1)
  {
    forall c | 0 <= c < i + 1 && c < |g.rows| && g.rows[c].collapsed ensures i + 1 >= LandOf(g, c) {
      assert c != i;
      assert !HiddenBy(g, c, i);
    }
  }

  /** From the dummy head, `forward()` moves to the first row, which is
      never hidden. */
  lemma ForwardFromHead(g: Graph)
    requires NavOk(g)
    ensures Pos(g, Forward(g, DummyHead)) == 0 && !Hidden(g, 0)
  {
  }

  /** From a visible row or the tail, `backward()` moves to the previous
      visible row, or to the dummy head when there is none: every row
      passed over is hidden. The outermost collapsed container ending here
      is that row; its inner ones are hidden inside it. */
  lemma BackwardPrevVisible(g: Graph, t: int)
    requires NavOk(g) && 0 <= t <= |g.rows| && !Hidden(g, t)
    ensures var b := Pos(g, Backward(g, RowOrTail(g, t)));
      && -1 <= b < t && (b >= 0 ==> !Hidden(g, b))
      && forall m :: b < m < t ==> Hidden(g, m)
  {
    var p := RowOrTail(g, t);
    var m := At(g, p).backwardSkips;
    if m == map[] {
      BackwardNoSkip(g, t);
    } else {
      BackwardSkip(g, t);
    }
  }

  lemma BackwardNoSkip(g: Graph, t: int)
    requires NavOk(g) && 0 <= t <= |g.rows| && !Hidden(g, t)
    requires At(g, RowOrTail(g, t)).backwardSkips == map[]
    ensures Pos(g, Backward(g, RowOrTail(g, t))) == t - 1
    ensures t > 0 ==> !Hidden(g, t - 1)
  {
    NoSkipPrev(g, t);
    if t > 0 {
      NoSkipVisible(g, t);
    }
  }

  /** Without backward skips, `backward()` is the previous node. */
  lemma NoSkipPrev(g: Graph, t: int)
    requires Linked(g) && 0 <= t <= |g.rows|
    requires At(g, RowOrTail(g, t)).backwardSkips == map[]
    ensures Pos(g, Backward(g, RowOrTail(g, t))) == t - 1
  {
    var p := RowOrTail(g, t);
    assert Backward(g, p) == At(g, p).prev == RowOrHead(t - 1);
  }

  /** The node before a visible node without backward skips is visible. */
  lemma NoSkipVisible(g: Graph, t: int)
    requires NavOk(g) && 0 < t <= |g.rows| && !Hidden(g, t)
    requires At(g, RowOrTail(g, t)).backwardSkips == map[]
    ensures !Hidden(g, t - 1)
  {
    forall c | 0 <= c < t - 1 && c < |g.rows| && g.rows[c].collapsed ensures t - 1 >= LandOf(g, c) {
      NoSkipBefore(g, t, c);
    }
  }

  /** A collapsed row before a visible node without backward skips ends
      before that node: had it ended there, it would be registered there. */
  lemma NoSkipBefore(g: Graph, t: int, c: int)
    requires NavOk(g) && 0 < t <= |g.rows| && !Hidden(g, t)
    requires At(g, RowOrTail(g, t)).backwardSkips == map[]
    requires 0 <= c < t - 1 && g.rows[c].collapsed
    ensures LandOf(g, c) <= t - 1
  {
    EndsBefore(g, t, c);
    LandedRegistered(g, c);
    assert RowOrTail(g, LandOf(g, c)) != RowOrTail(g, t);
    PosOfRowOrTail(g, t);
    PosOfRowOrTail(g, LandOf(g, c));
  }

  lemma BackwardSkip(g: Graph, t: int)
    requires NavOk(g) && 0 <= t <= |g.rows| && !Hidden(g, t)
    requires At(g, RowOrTail(g, t)).backwardSkips != map[]
    ensures var b := Pos(g, Backward(g, RowOrTail(g, t)));
      && 0 <= b < t && LandOf(g, b) == t && !Hidden(g, b)
      && forall m :: b < m < t ==> Hidden(g, m)
  {
    var c0 := BackwardTarget(g, t);
    forall d | 0 <= d < |g.rows| && g.rows[d].collapsed
      ensures g.rows[d].entry.indent in At(g, RowOrTail(g, LandOf(g, d))).backwardSkips
    {
      LandedRegistered(g, d);
    }
    OutermostVisible(g, t, c0);
  }

  /** The node `backward()` goes to from a node with backward skips: a
      collapsed row whose subtree ends there, of the least indent among
      those registered. */
  lemma BackwardTarget(g: Graph, t: int) returns (c0: int)
    requires NavOk(g) && 0 <= t <= |g.rows|
    requires At(g, RowOrTail(g, t)).backwardSkips != map[]
    ensures c0 == Backward(g, RowOrTail(g, t)) == Pos(g, Backward(g, RowOrTail(g, t)))
    ensures 0 <= c0 < |g.rows| && g.rows[c0].collapsed && LandOf(g, c0) == t
    ensures forall k :: k in At(g, RowOrTail(g, t)).backwardSkips ==> g.rows[c0].entry.indent <= k
  {
    SoundAt(g, RowOrTail(g, t));
    c0 := OutermostLands(g, t);
  }

  /** `BackwardTarget` from the facts it needs: the backward skips at the
      node are sound and collapsed rows skip just past their subtrees. */
  lemma OutermostLands(g: Graph, t: int) returns (c0: int)
    requires 0 <= t <= |g.rows| && IsNode(g, RowOrTail(g, t))
    requires BackwardSkipsSound(g, RowOrTail(g, t)) && At(g, RowOrTail(g, t)).backwardSkips != map[]
    requires Skipped(g) && forall i :: 0 <= i < |g.rows| && g.rows[i].collapsed ==> IsCollapsible(g.rows[i].entry.kind)
    ensures c0 == Backward(g, RowOrTail(g, t)) == Pos(g, Backward(g, RowOrTail(g, t)))
    ensures 0 <= c0 < |g.rows| && g.rows[c0].collapsed && LandOf(g, c0) == t
    ensures forall k :: k in At(g, RowOrTail(g, t)).backwardSkips ==> g.rows[c0].entry.indent <= k
  {
    var p := RowOrTail(g, t);
    c0 := Outermost(g, p);
    assert Pos(g, c0) == c0;
    LandsAt(g, t, c0);
  }

  lemma SoundAt(g: Graph, p: Ptr)
    requires Consistent(g) && IsNode(g, p)
    ensures BackwardSkipsSound(g, p)
  {
  }

  /** A collapsed row whose forward skip is the node at position `t` has
      its subtree end at `t`. */
  lemma LandsAt(g: Graph, t: int, c: int)
    requires Skipped(g) && 0 <= t <= |g.rows|
    requires 0 <= c < |g.rows| && IsCollapsible(g.rows[c].entry.kind) && g.rows[c].forwardSkip == RowOrTail(g, t)
    ensures LandOf(g, c) == t
  {
    PosOfRowOrTail(g, t);
    PosOfRowOrTail(g, LandOf(g, c));
  }

  /** The row `backward()` picks among registered backward skips: a
      collapsed row skipping to `p`, of least indent among them. */
  lemma Outermost(g: Graph, p: Ptr) returns (c0: int)
    requires IsNode(g, p) && BackwardSkipsSound(g, p) && At(g, p).backwardSkips != map[]
    ensures c0 == Backward(g, p) && Registered(g, c0, p, g.rows[c0].entry.indent)
    ensures forall k :: k in At(g, p).backwardSkips ==> g.rows[c0].entry.indent <= k
  {
    var m := At(g, p).backwardSkips;
    var k0 := MinKey(m);
    c0 := m[k0];
    assert Registered(g, c0, p, k0);
  }

  /** The outermost collapsed row ending at a visible position is visible,
      and hides every row up to that position. */
  lemma OutermostVisible(g: Graph, t: int, c0: int)
    requires 0 <= t <= |g.rows| && !Hidden(g, t)
    requires 0 <= c0 < |g.rows| && g.rows[c0].collapsed && LandOf(g, c0) == t
    requires forall k :: k in At(g, RowOrTail(g, t)).backwardSkips ==> g.rows[c0].entry.indent <= k
    requires forall d :: 0 <= d < |g.rows| && g.rows[d].collapsed ==>
      g.rows[d].entry.indent in At(g, RowOrTail(g, LandOf(g, d))).backwardSkips
    ensures !Hidden(g, c0) && forall m :: c0 < m < t ==> Hidden(g, m)
  {
    forall j | c0 < j < t ensures Hidden(g, j) {
      assert HiddenBy(g, c0, j);
    }
    forall d | 0 <= d < c0 && d < |g.rows| && g.rows[d].collapsed ensures c0 >= LandOf(g, d) {
      NoOuterCollapsed(g, t, c0, d);
    }
  }

  /** No collapsed row before the outermost collapsed row ending at `t`
      has `c0` inside its subtree: it would end at `t` too, with a smaller
      indent. */
  lemma NoOuterCollapsed(g: Graph, t: int, c0: int, d: int)
    requires 0 <= t <= |g.rows| && !Hidden(g, t)
    requires 0 <= c0 < |g.rows| && LandOf(g, c0) == t
    requires forall k :: k in At(g, RowOrTail(g, t)).backwardSkips ==> g.rows[c0].entry.indent <= k
    requires 0 <= d < c0 && g.rows[d].collapsed
    requires g.rows[d].entry.indent in At(g, RowOrTail(g, LandOf(g, d))).backwardSkips
    ensures LandOf(g, d) <= c0
  {
    var ind := Indents(Entries(g));
    EndsBefore(g, t, d);
    LandNestedIf(ind, d, c0);
    var kd, kc := g.rows[d].entry.indent, g.rows[c0].entry.indent;
    assert ind[d] == kd && ind[c0] == kc;
    assert LandOf(g, d) == t ==> kc <= kd;
  }

  /** `forward()` applied `k` times, stopping at a null pointer. */
  function ForwardN(g: Graph, p: Ptr, k: nat): Ptr
    decreases k
  {
    if k == 0 || !IsNode(g, p) then p else ForwardN(g, Forward(g, p), k - 1)
  }

  /** On a freshly loaded model nothing is collapsed, so `forward()` from a
      row goes through every later row in order and then to the tail. */
  lemma {:induction false} FreshWalk(g: Graph, j: int, k: nat)
    requires Linked(g) && NoneCollapsed(g) && 0 <= j && j + k <= |g.rows|
    ensures ForwardN(g, RowOrTail(g, j), k) == RowOrTail(g, j + k)
    decreases k
  {
    if k > 0 {
      assert Forward(g, j) == RowOrTail(g, j + 1);
      FreshWalk(g, j + 1, k - 1);
    }
  }

  /** From the head of a freshly loaded model, `k + 1` forward steps reach
      row `k`, and `|rows| + 1` steps reach the tail. */
  lemma FreshWalkFromHead(g: Graph, k: nat)
    requires Linked(g) && NoneCollapsed(g) && !g.head.collapsed && k <= |g.rows|
    ensures ForwardN(g, DummyHead, k + 1) == RowOrTail(g, k)
  {
    assert Forward(g, DummyHead) == RowOrTail(g, 0);
    FreshWalk(g, 0, k);
  }

  /** Collapsing a row and expanding it again gives back the same model:
      the collapse always inserts its indent at the skip target, and the
      expand erases exactly that entry. */
  lemma ExpandUndoesCollapse(g: Graph, p: Ptr)
    requires Consistent(g) && IsNode(g, p) && !At(g, p).collapsed
    ensures SkipTargetOk(g, p) && SkipTargetOk(Collapse(g, p), p)
    ensures Expand(Collapse(g, p), p) == g
  {
    CollapseKeepsConsistent(g, p);
    if At(g, p).forwardSkip != Nil {
      NotYetRegistered(g, p);
    }
    ExpandAfterCollapse(g, p);
  }

  /** `ExpandUndoesCollapse` on the nodes alone: it needs only that the row
      does not skip to itself and that its indent is not yet registered at
      its skip target. */
  lemma ExpandAfterCollapse(g: Graph, p: Ptr)
    requires IsNode(g, p) && !At(g, p).collapsed && SkipTargetOk(g, p) && At(g, p).forwardSkip != p
    requires At(g, p).forwardSkip != Nil ==> At(g, p).entry.indent !in At(g, At(g, p).forwardSkip).backwardSkips
    requires SkipTargetOk(Collapse(g, p), p)
    ensures Expand(Collapse(g, p), p) == g
  {
    var n := At(g, p);
    var h := Collapse(g, p);
    var e := Expand(h, p);
    if n.forwardSkip != Nil {
      var t := n.forwardSkip;
      var k := n.entry.indent;
      var mg := At(g, t).backwardSkips;
      assert At(h, t).backwardSkips == mg[k := p];
      assert At(e, t) == At(g, t) by {
        assert mg[k := p] - {k} == mg;
      }
    }
    forall q | IsNode(g, q) ensures At(e, q) == At(g, q) {
    }
    GraphExt(e, g);
  }

  /** Expanding a collapsed row and collapsing it again gives back the same
      model: the erased entry is the one the collapse puts back. */
  lemma CollapseUndoesExpand(g: Graph, p: Ptr)
    requires Consistent(g) && IsNode(g, p) && At(g, p).collapsed
    ensures SkipTargetOk(g, p) && SkipTargetOk(Expand(g, p), p)
    ensures Collapse(Expand(g, p), p) == g
  {
    ExpandKeepsConsistent(g, p);
    var n := At(g, p);
    if n.forwardSkip != Nil {
      assert IsRow(g, p) && n.forwardSkip != p;
      assert n.entry.indent in At(g, n.forwardSkip).backwardSkips;
    }
    CollapseAfterExpand(g, p);
  }

  /** `CollapseUndoesExpand` on the nodes alone: it needs only that the row
      does not skip to itself and that it is registered under its indent at
      its skip target. */
  lemma CollapseAfterExpand(g: Graph, p: Ptr)
    requires IsNode(g, p) && At(g, p).collapsed && SkipTargetOk(g, p) && At(g, p).forwardSkip != p
    requires At(g, p).forwardSkip != Nil ==>
      var m := At(g, At(g, p).forwardSkip).backwardSkips; At(g, p).entry.indent in m && m[At(g, p).entry.indent] == p
    requires SkipTargetOk(Expand(g, p), p)
    ensures Collapse(Expand(g, p), p) == g
  {
    var n := At(g, p);
    var h := Expand(g, p);
    var c := Collapse(h, p);
    if n.forwardSkip != Nil {
      var t := n.forwardSkip;
      var k := n.entry.indent;
      var mg := At(g, t).backwardSkips;
      assert At(h, t).backwardSkips == mg - {k};
      assert At(c, t) == At(g, t) by {
        assert (mg - {k})[k := p] == mg;
      }
    }
    forall q | IsNode(g, q) ensures At(c, q) == At(g, q) {
    }
    GraphExt(c, g);
  }

  /** Two models with the same rows count and the same node everywhere are
      equal. */
  lemma GraphExt(a: Graph, b: Graph)
    requires |a.rows| == |b.rows| && forall q :: IsNode(a, q) ==> At(a, q) == At(b, q)
    ensures a == b
  {
    assert At(a, DummyHead) == a.head && At(b, DummyHead) == b.head;
    assert At(a, DummyTail) == a.tail && At(b, DummyTail) == b.tail;
    forall i | 0 <= i < |a.rows| ensures a.rows[i] == b.rows[i] {
      assert At(a, i) == a.rows[i] && At(b, i) == b.rows[i];
    }
  }

  /** Collapsing a container row and expanding any row keep a model
      navigable. */
  lemma CollapseKeepsNav(g: Graph, p: Ptr)
    requires NavOk(g) && IsRow(g, p) && IsCollapsible(g.rows[p].entry.kind)
    ensures SkipTargetOk(g, p) && NavOk(Collapse(g, p))
  {
    CollapseKeepsConsistent(g, p);
    if !At(g, p).collapsed {
      CollapseEffect(g, p);
      var h := Collapse(g, p);
      CollapseDummies(g, p);
      NavCarries(g, h);
      forall i | 0 <= i < |h.rows| && h.rows[i].collapsed ensures IsCollapsible(h.rows[i].entry.kind) {
        assert h.rows[i].entry == g.rows[i].entry;
      }
    }
  }

  /** Collapsing a row leaves the flags of the dummies alone. */
  lemma CollapseDummies(g: Graph, p: Ptr)
    requires IsRow(g, p) && SkipTargetOk(g, p)
    ensures Collapse(g, p).head.collapsed == g.head.collapsed && Collapse(g, p).tail.collapsed == g.tail.collapsed
  {
    var h := Collapse(g, p);
    assert At(h, DummyHead) == h.head && At(g, DummyHead) == g.head;
    assert At(h, DummyTail) == h.tail && At(g, DummyTail) == g.tail;
  }

  lemma ExpandKeepsNav(g: Graph, p: Ptr)
    requires NavOk(g) && IsRow(g, p)
    ensures SkipTargetOk(g, p) && NavOk(Expand(g, p))
  {
    ExpandKeepsConsistent(g, p);
    if At(g, p).collapsed {
      ExpandEffect(g, p);
      NavCarries(g, Expand(g, p));
    }
  }

  /** Skips and the heads' flags carry over between models with the same
      links. */
  lemma NavCarries(g: Graph, h: Graph)
    requires Skipped(g) && SameLinks(g, h)
    requires !g.head.collapsed && !g.tail.collapsed
    requires h.head.collapsed == g.head.collapsed && h.tail.collapsed == g.tail.collapsed
    ensures Skipped(h) && !h.head.collapsed && !h.tail.collapsed
    ensures forall i :: 0 <= i < |g.rows| ==> h.rows[i].entry == g.rows[i].entry
  {
    forall i | 0 <= i < |g.rows| ensures h.rows[i].entry == g.rows[i].entry && h.rows[i].forwardSkip == g.rows[i].forwardSkip {
      assert At(h, i) == h.rows[i] && At(g, i) == g.rows[i];
    }
    assert Entries(h) == Entries(g);
  }

  /** Collapsing a primitive row, which the source allows, makes
      `forward()` from it return null: primitive rows have no skip. */
  lemma CollapsePrimitiveLosesForward(g: Graph, p: Ptr)
    requires Consistent(g) && IsRow(g, p) && !IsCollapsible(g.rows[p].entry.kind)
    ensures SkipTargetOk(g, p) && Forward(Collapse(g, p), p) == Nil
  {
    CollapseKeepsConsistent(g, p);
  }

  /** From any row, `forward()` moves to a later row or to the tail. */
  lemma ForwardAdvances(g: Graph, p: Ptr)
    requires NavOk(g) && IsRow(g, p)
    ensures var f := Forward(g, p);
      && (IsRow(g, f) || f == DummyTail) && f == RowOrTail(g, Pos(g, f))
      && p < Pos(g, f) <= |g.rows|
  {
    var l := if g.rows[p].collapsed then LandOf(g, p) else p + 1;
    if g.rows[p].collapsed {
      CollapsedSkip(g, p);
    } else {
      assert g.rows[p].next == RowOrTail(g, p + 1);
    }
    assert Forward(g, p) == RowOrTail(g, l);
    PosOfRowOrTail(g, l);
  }

  /** From any row but the first, `backward()` moves to an earlier row:
      a registered row skips forward to this one, so it lies before it. */
  lemma BackwardRetreats(g: Graph, p: Ptr)
    requires Consistent(g) && IsRow(g, p) && p > 0
    ensures IsRow(g, Backward(g, p)) && Backward(g, p) < p
  {
    var m := g.rows[p].backwardSkips;
    if m == map[] {
      assert Backward(g, p) == g.rows[p].prev == RowOrHead(p - 1);
    } else {
      var k := MinKey(m);
      assert BackwardSkipsSound(g, p) && At(g, p) == g.rows[p];
      assert Registered(g, m[k], p, k);
      assert g.rows[m[k]].forwardSkip == p;
    }
  }

  /** No collapsed row skips to the first row, so `backward()` from it
      goes to the dummy head. */
  lemma FirstGoesToHead(g: Graph)
    requires Consistent(g) && |g.rows| > 0
    ensures Backward(g, 0) == DummyHead
  {
    var m := g.rows[0].backwardSkips;
    assert BackwardSkipsSound(g, 0) && At(g, 0) == g.rows[0];
    assert forall k :: k in m ==> Registered(g, m[k], 0, k);
    assert forall k :: k !in m;
    assert m == map[];
    assert Backward(g, 0) == g.rows[0].prev == RowOrHead(-1);
  }

  /** `backward()` undoes `forward()` from a visible row: both moves go to
      the nearest visible row in their direction. */
  lemma ForwardThenBackward(g: Graph, p: Ptr)
    requires NavOk(g) && IsRow(g, p) && !Hidden(g, p)
    ensures IsNode(g, Forward(g, p)) && Backward(g, Forward(g, p)) == p
  {
    ForwardNextVisible(g, p);
    ForwardAdvances(g, p);
    var f := Pos(g, Forward(g, p));
    BackwardPrevVisible(g, f);
    assert Forward(g, p) == RowOrTail(g, f);
    var x := Backward(g, RowOrTail(g, f));
    Squeeze(g, p, f, Pos(g, x));
    assert x == p;
  }

  /** Two visible positions before `f` such that every position strictly
      between either of them and `f` is hidden are the same position. */
  lemma Squeeze(g: Graph, p: int, f: int, b: int)
    requires 0 <= p < f && -1 <= b < f && !Hidden(g, p) && (b >= 0 ==> !Hidden(g, b))
    requires forall m :: p < m < f ==> Hidden(g, m)
    requires forall m :: b < m < f ==> Hidden(g, m)
    ensures b == p
  {
    assert b >= p by {
      assert b < p ==> Hidden(g, p);
    }
    assert b <= p by {
      assert p < b ==> Hidden(g, b);
    }
  }

  /** `forward()` undoes `backward()` from a visible row after the first,
      or from the tail when there is a row. */
  lemma BackwardThenForward(g: Graph, t: int)
    requires NavOk(g) && 0 < t <= |g.rows| && !Hidden(g, t)
    ensures var b := Backward(g, RowOrTail(g, t));
      IsRow(g, b) && !Hidden(g, b) && Forward(g, b) == RowOrTail(g, t)
  {
    BackwardPrevVisible(g, t);
    var b := Pos(g, Backward(g, RowOrTail(g, t)));
    assert !Hidden(g, 0);
    assert b >= 0;
    assert Backward(g, RowOrTail(g, t)) == b;
    ForwardNextVisible(g, b);
    ForwardAdvances(g, b);
    var f := Pos(g, Forward(g, b));
    assert f >= t;
    assert f <= t;
  }
}
