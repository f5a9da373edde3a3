/** The `main_handler` class of `main.cpp`: a loaded view model, the cursor
    `_view_model_cur` and the hovered screen row `_row_highlight`, with the
    key and mouse handlers that move the cursor and collapse or expand
    rows, the rows `print_json` draws and the breadcrumb's labels. The
    handlers are proved against the functions of `Handler`. */
module Session {

  import opened JsonDoc
  import opened Flattener
  import opened ViewModel
  import opened Navigation
  import opened Handler
  import opened Display
  import opened Util

  /** A key press: a character, or one of the two arrow keys the handler
      knows. */
  datatype Input = Char(c: char) | KeyDown | KeyUp

  /** `app_control`: go on, or leave the event loop. */
  datatype Control = Ok | Stop

  /** What a key leaves behind: the model, the cursor, whether the event
      loop goes on, and whether the key beeped instead of moving. */
  datatype Outcome = Outcome(g: Graph, cur: Ptr, control: Control, beeped: bool)

  /** A model the handler can work on with the cursor at row `cur`:
      navigable, no negative indents, and a tail that no click can
      toggle. */
  ghost predicate HandlerOk(g: Graph, cur: Ptr)
  {
    NavOk(g) && IsRow(g, cur) && !IsCollapsible(g.tail.entry.kind) && IndentsOk(g)
  }

  /** No row has a negative indent. */
  ghost predicate IndentsOk(g: Graph)
  {
    forall i :: 0 <= i < |g.rows| ==> g.rows[i].entry.indent >= 0
  }

  /** What `HandlerOk` asks of a model carries over to one with the same
      links that is still navigable. */
  lemma HandlerCarries(g: Graph, h: Graph, cur: Ptr)
    requires HandlerOk(g, cur) && NavOk(h) && SameLinks(g, h)
    ensures HandlerOk(h, cur)
  {
    SameLinksRows(g, h);
  }

  /** `set_collapse()` on row `k` when it is a container. */
  function CollapseIfContainer(g: Graph, k: int): Graph
    requires IsRow(g, k) && SkipTargetOk(g, k)
  {
    if IsCollapsible(g.rows[k].entry.kind) then Collapse(g, k) else g
  }

  /** One step of the `'-'` loop, on row `k`: the rest of the loop from
      `k + 1` then does what the rest from `k` does, and the model stays
      navigable. */
  lemma CollapseNext(g: Graph, k: int)
    requires NavOk(g) && 0 <= k < |g.rows|
    ensures SkipTargetOk(g, k)
    ensures var h := CollapseIfContainer(g, k);
      NavOk(h) && |h.rows| == |g.rows| && CollapseFrom(h, k + 1) == CollapseFrom(g, k)
  {
    if IsCollapsible(g.rows[k].entry.kind) {
      CollapseKeepsNav(g, k);
      CollapseStep(g, k);
    }
  }

  /** One step of the `'-'` loop as written: `set_collapse()` on row `k`. */
  lemma CollapseEveryNext(g: Graph, k: int)
    requires Consistent(g) && 0 <= k < |g.rows|
    ensures SkipTargetOk(g, k) && Consistent(Collapse(g, k)) && |Collapse(g, k).rows| == |g.rows|
    ensures CollapseEvery(Collapse(g, k), k + 1) == CollapseEvery(g, k)
  {
    CollapseStep(g, k);
  }

  /** One step of the `'+'` loop: `set_expand()` on row `k`. */
  lemma ExpandNext(g: Graph, k: int)
    requires NavOk(g) && 0 <= k < |g.rows|
    ensures SkipTargetOk(g, k) && NavOk(Expand(g, k)) && |Expand(g, k).rows| == |g.rows|
    ensures ExpandFrom(Expand(g, k), k + 1) == ExpandFrom(g, k)
  {
    ExpandKeepsNav(g, k);
    ExpandStep(g, k);
  }

  /** The end of the `'-'` loop: nothing is left to do. */
  lemma CollapseDone(g: Graph, h: Graph)
    requires NavOk(g) && NavOk(h) && |h.rows| == |g.rows| && CollapseFrom(h, |h.rows|) == CollapseFrom(g, 0)
    ensures h == CollapseFrom(g, 0)
  {
  }

  /** The end of the `'-'` loop as written. */
  lemma CollapseEveryDone(g: Graph, h: Graph)
    requires Consistent(g) && Consistent(h) && |h.rows| == |g.rows| && CollapseEvery(h, |h.rows|) == CollapseEvery(g, 0)
    ensures h == CollapseEvery(g, 0)
  {
  }

  /** The end of the `'+'` loop. */
  lemma ExpandDone(g: Graph, h: Graph)
    requires NavOk(g) && NavOk(h) && |h.rows| == |g.rows| && ExpandFrom(h, |h.rows|) == ExpandFrom(g, 0)
    ensures h == ExpandFrom(g, 0)
  {
  }

  /** The keys that move the cursor down: `j`, the down arrow and Enter. */
  predicate IsDown(input: Input)
  {
    input == Char('j') || input == KeyDown || input == Char('\n')
  }

  /** The keys that move the cursor up: `k` and the up arrow. */
  predicate IsUp(input: Input)
  {
    input == Char('k') || input == KeyUp
  }

  /** The keys that scroll down and beep at the bottom. */
  predicate ScrollsDown(input: Input)
  {
    IsDown(input) || input == Char('f') || input == Char(' ') || input == Char('d')
  }

  /** The keys that scroll up and beep at the top. */
  predicate ScrollsUp(input: Input)
  {
    IsUp(input) || input == Char('b') || input == Char('u')
  }

  /** What a key asks for, before looking at the model: the cases of the
      `switch` in `key()`. */
  datatype Action = CollapseRows | ExpandRows | Down(n: int) | Up(n: int) | ToTop | ToBottom | Quit | Ignore

  /** The action of a key on a screen of `screenRows` rows: scrolling by
      one row, a screen, or half a screen (C++ division). */
  function ActionOf(input: Input, screenRows: int): Action
  {
    if input == Char('-') then CollapseRows
    else if input == Char('+') then ExpandRows
    else if IsDown(input) then Down(1)
    else if input == Char('f') || input == Char(' ') then Down(screenRows)
    else if input == Char('d') then Down(CDiv(screenRows, 2))
    else if IsUp(input) then Up(1)
    else if input == Char('b') then Up(screenRows)
    else if input == Char('u') then Up(CDiv(screenRows, 2))
    else if input == Char('g') then ToTop
    else if input == Char('G') then ToBottom
    else if input == Char('q') then Quit
    else Ignore
  }

  /** Which keys do what: `'-'` and `'+'` are the bulk actions, the
      scrolling keys scroll, `q` quits, and `j` and `k` move by one row. */
  lemma ActionKinds(input: Input, screenRows: int)
    ensures var a := ActionOf(input, screenRows);
      && (a == CollapseRows <==> input == Char('-'))
      && (a == ExpandRows <==> input == Char('+'))
      && (a.Down? <==> ScrollsDown(input))
      && (a.Up? <==> ScrollsUp(input))
      && (a == Quit <==> input == Char('q'))
      && (IsDown(input) ==> a == Down(1))
      && (IsUp(input) ==> a == Up(1))
  {
  }

  /** Carrying out an action: the bulk actions collapse every container or
      expand every row; scrolling beeps at its bound and otherwise
      scrolls; the jumps go to `head()` and to `tail()->backward()`. */
  function Apply(g: Graph, cur: Ptr, a: Action): (o: Outcome)
    requires HandlerOk(g, cur)
    ensures HandlerOk(o.g, o.cur)
  {
    NavSteps(g);
    match a
    case CollapseRows =>
      HandlerCarries(g, CollapseFrom(g, 0), cur);
      Outcome(CollapseFrom(g, 0), cur, Ok, false)
    case ExpandRows =>
      HandlerCarries(g, ExpandFrom(g, 0), cur);
      Outcome(ExpandFrom(g, 0), cur, Ok, false)
    case Down(n) =>
      if AtBottom(g, cur) then Outcome(g, cur, Ok, true) else Outcome(g, ScrollDown(g, cur, n), Ok, false)
    case Up(n) =>
      if AtTop(g, cur) then Outcome(g, cur, Ok, true) else Outcome(g, ScrollUp(g, cur, n), Ok, false)
    case ToTop => Outcome(g, g.head.next, Ok, false)
    case ToBottom =>
      BottomIsLastVisible(g);
      Outcome(g, Backward(g, DummyTail), Ok, false)
    case Quit => Outcome(g, cur, Stop, false)
    case Ignore => Outcome(g, cur, Ok, false)
  }

  /** `key()`. */
  function KeyEffect(g: Graph, cur: Ptr, input: Input, screenRows: int): (o: Outcome)
    requires HandlerOk(g, cur)
    ensures HandlerOk(o.g, o.cur)
  {
    Apply(g, cur, ActionOf(input, screenRows))
  }

  /** An action beeps exactly when it scrolls toward a bound the cursor is
      at; one that beeps changes nothing; only the bulk actions change the
      model and only `Quit` stops. */
  lemma ApplyEffects(g: Graph, cur: Ptr, a: Action)
    requires HandlerOk(g, cur)
    ensures var o := Apply(g, cur, a);
      && (o.beeped <==> (a.Down? && AtBottom(g, cur)) || (a.Up? && AtTop(g, cur)))
      && (o.beeped ==> o.g == g && o.cur == cur && o.control == Ok)
      && (a != CollapseRows && a != ExpandRows ==> o.g == g)
      && (a == CollapseRows || a == ExpandRows || a == Quit ==> o.cur == cur)
      && (o.control == Stop <==> a == Quit)
  {
  }

  /** A key beeps exactly when it scrolls toward a bound the cursor is at,
      and a key that beeps changes nothing. Only `'-'` and `'+'` change the
      model, and only `q` stops. */
  lemma KeyEffects(g: Graph, cur: Ptr, input: Input, screenRows: int)
    requires HandlerOk(g, cur)
    ensures var o := KeyEffect(g, cur, input, screenRows);
      && (o.beeped <==> (ScrollsDown(input) && AtBottom(g, cur)) || (ScrollsUp(input) && AtTop(g, cur)))
      && (o.beeped ==> o.g == g && o.cur == cur && o.control == Ok)
      && (input != Char('-') && input != Char('+') ==> o.g == g)
      && (o.control == Stop <==> input == Char('q'))
      && (input == Char('-') || input == Char('+') || input == Char('q') ==> o.cur == cur)
  {
    ActionKinds(input, screenRows);
    ApplyEffects(g, cur, ActionOf(input, screenRows));
  }

  /** Every action but collapse-all keeps the cursor on a visible row:
      scrolling moves between visible rows, the top and the bottom are
      visible, and after expand-all nothing is hidden. */
  lemma ApplyKeepsVisible(g: Graph, cur: Ptr, a: Action)
    requires HandlerOk(g, cur) && !Hidden(g, cur) && a != CollapseRows
    ensures var o := Apply(g, cur, a); !Hidden(o.g, o.cur)
  {
    var o := Apply(g, cur, a);
    match a
    case ExpandRows =>
      assert forall c :: 0 <= c < |o.g.rows| ==> !o.g.rows[c].collapsed;
    case Down(n) => ScrollVisible(g, cur, n);
    case Up(n) => ScrollVisible(g, cur, n);
    case ToTop => TopIsFirstVisible(g);
    case ToBottom => BottomIsLastVisible(g);
    case _ =>
  }

  /** Every key except `'-'` keeps the cursor on a visible row. */
  lemma KeyKeepsVisible(g: Graph, cur: Ptr, input: Input, screenRows: int)
    requires HandlerOk(g, cur) && !Hidden(g, cur) && input != Char('-')
    ensures var o := KeyEffect(g, cur, input, screenRows); !Hidden(o.g, o.cur)
  {
    ActionKinds(input, screenRows);
    ApplyKeepsVisible(g, cur, ActionOf(input, screenRows));
  }

  /** From a visible row not at the bottom, one row down and then one up
      come back to it; from one not at the top, one up and then one down
      do. */
  lemma DownUpReturns(g: Graph, cur: Ptr)
    requires HandlerOk(g, cur) && !Hidden(g, cur)
    ensures var o := Apply(g, cur, Down(1));
      !AtBottom(g, cur) ==> Apply(o.g, o.cur, Up(1)).cur == cur
    ensures var o := Apply(g, cur, Up(1));
      !AtTop(g, cur) ==> Apply(o.g, o.cur, Down(1)).cur == cur
  {
    if !AtBottom(g, cur) {
      DownThenUp(g, cur);
    }
    if !AtTop(g, cur) {
      UpThenDown(g, cur);
    }
  }

  lemma DownThenUp(g: Graph, cur: Ptr)
    requires HandlerOk(g, cur) && !Hidden(g, cur) && !AtBottom(g, cur)
    ensures var o := Apply(g, cur, Down(1)); Apply(o.g, o.cur, Up(1)).cur == cur
  {
    var f := Forward(g, cur);
    DownOne(g, cur);
    ForwardAdvances(g, cur);
    assert g.head.next == 0;
    UpOne(g, f);
    ForwardThenBackward(g, cur);
  }

  lemma UpThenDown(g: Graph, cur: Ptr)
    requires HandlerOk(g, cur) && !Hidden(g, cur) && !AtTop(g, cur)
    ensures var o := Apply(g, cur, Up(1)); Apply(o.g, o.cur, Down(1)).cur == cur
  {
    assert g.head.next == 0 && cur > 0 && RowOrTail(g, cur) == cur;
    UpOne(g, cur);
    BackwardThenForward(g, cur);
    DownOne(g, Backward(g, cur));
  }

  /** One row down from a row not at the bottom is `forward()` of it. */
  lemma DownOne(g: Graph, cur: Ptr)
    requires HandlerOk(g, cur) && !AtBottom(g, cur)
    ensures Apply(g, cur, Down(1)) == Outcome(g, Forward(g, cur), Ok, false)
  {
    NavSteps(g);
    assert ScrollDown(g, Forward(g, cur), 0) == Forward(g, cur);
  }

  /** One row up from a row not at the top is `backward()` of it. */
  lemma UpOne(g: Graph, cur: Ptr)
    requires HandlerOk(g, cur) && !AtTop(g, cur)
    ensures Apply(g, cur, Up(1)) == Outcome(g, Backward(g, cur), Ok, false)
  {
    NavSteps(g);
    assert ScrollUp(g, Backward(g, cur), 0) == Backward(g, cur);
  }

  /** From a visible row not at the bottom, `j` and then `k` come back to
      it; from one not at the top, `k` and then `j` do. */
  lemma JThenK(g: Graph, cur: Ptr, screenRows: int)
    requires HandlerOk(g, cur) && !Hidden(g, cur)
    ensures var o := KeyEffect(g, cur, Char('j'), screenRows);
      !AtBottom(g, cur) ==> KeyEffect(o.g, o.cur, Char('k'), screenRows).cur == cur
    ensures var o := KeyEffect(g, cur, Char('k'), screenRows);
      !AtTop(g, cur) ==> KeyEffect(o.g, o.cur, Char('j'), screenRows).cur == cur
  {
    ActionKinds(Char('j'), screenRows);
    ActionKinds(Char('k'), screenRows);
    DownUpReturns(g, cur);
  }

  /** On a model as loaded, `'-'` and then `'+'` give the same model back. */
  lemma MinusThenPlus(g: Graph, cur: Ptr, screenRows: int)
    requires HandlerOk(g, cur) && NoneCollapsed(g)
    ensures var o := KeyEffect(g, cur, Char('-'), screenRows);
      KeyEffect(o.g, o.cur, Char('+'), screenRows).g == g
  {
    var h := CollapseFrom(g, 0);
    ExpandAllRestores(g, h);
  }

  /** The nodes `print_json` draws: from `p` on, following `forward()`, at
      most `n` of them and none from the tail on. */
  function Screen(g: Graph, p: Ptr, n: int): (s: seq<Ptr>)
    requires Advancing(g) && (IsRow(g, p) || p == DummyTail)
    ensures |s| <= (if n < 0 then 0 else n)
    ensures forall i :: 0 <= i < |s| ==> IsRow(g, s[i]) && Pos(g, p) <= s[i]
    decreases |g.rows| - Pos(g, p)
  {
    if n <= 0 || p == DummyTail then [] else [p] + Screen(g, Forward(g, p), n - 1)
  }

  /** Stepping within `v`: from a row of `v`, `forward()` moves to the
      next position of `v`, passing over none. */
  ghost predicate Jumps(g: Graph, v: set<int>)
    requires Advancing(g)
  {
    forall p {:trigger Forward(g, p)} :: IsRow(g, p) && p in v ==>
      var f := Pos(g, Forward(g, p)); f in v && forall m :: p < m < f ==> m !in v
  }

  /** Position `j` is within what screen `s` of at most `n` rows covers:
      anywhere when it stopped short of `n` rows, otherwise up to its last
      row. */
  predicate ScreenReaches(s: seq<Ptr>, n: int, j: int)
  {
    |s| < n || (s != [] && j <= s[|s| - 1])
  }

  /** The screen starts at `p` and goes strictly forward. */
  lemma {:induction false} ScreenOrdered(g: Graph, p: Ptr, n: int)
    requires Advancing(g) && (IsRow(g, p) || p == DummyTail)
    ensures var s := Screen(g, p, n);
      && (|s| > 0 ==> s[0] == p)
      && (forall i, j :: 0 <= i < j < |s| ==> s[i] < s[j])
    decreases |g.rows| - Pos(g, p)
  {
    if !(n <= 0 || p == DummyTail) {
      var f := Forward(g, p);
      ScreenOrdered(g, f, n - 1);
      var s := Screen(g, p, n);
      var t := Screen(g, f, n - 1);
      assert s == [p] + t;
      forall i, j | 0 <= i < j < |s|
        ensures s[i] < s[j]
      {
        assert s[j] == t[j - 1];
        if i > 0 {
          assert s[i] == t[i - 1];
        }
      }
    }
  }

  /** From a position of `v`, the screen shows only positions of `v`. */
  lemma {:induction false} ScreenInside(g: Graph, v: set<int>, p: Ptr, n: int)
    requires Advancing(g) && Jumps(g, v) && (IsRow(g, p) || p == DummyTail) && Pos(g, p) in v
    ensures forall i :: 0 <= i < |Screen(g, p, n)| ==> Screen(g, p, n)[i] in v
    decreases |g.rows| - Pos(g, p)
  {
    if !(n <= 0 || p == DummyTail) {
      var f := Forward(g, p);
      assert Pos(g, f) in v;
      ScreenInside(g, v, f, n - 1);
      var s := Screen(g, p, n);
      var t := Screen(g, f, n - 1);
      assert s == [p] + t;
      forall i | 0 < i < |s|
        ensures s[i] in v
      {
        assert s[i] == t[i - 1];
      }
    }
  }

  /** From a position of `v`, the screen leaves out no position of `v` up
      to its last row, and none at all when it stops short of `n` rows. */
  lemma {:induction false} ScreenNoGap(g: Graph, v: set<int>, p: Ptr, n: int)
    requires Advancing(g) && Jumps(g, v) && (IsRow(g, p) || p == DummyTail) && Pos(g, p) in v
    ensures forall j :: Pos(g, p) <= j < |g.rows| && j in v && ScreenReaches(Screen(g, p, n), n, j) ==> j in Screen(g, p, n)
    decreases |g.rows| - Pos(g, p)
  {
    if !(n <= 0 || p == DummyTail) {
      var f := Forward(g, p);
      assert Pos(g, f) in v && forall m :: p < m < Pos(g, f) ==> m !in v;
      ScreenNoGap(g, v, f, n - 1);
      var s := Screen(g, p, n);
      var t := Screen(g, f, n - 1);
      assert s == [p] + t;
      forall j | Pos(g, p) <= j < |g.rows| && j in v && ScreenReaches(s, n, j)
        ensures j in s
      {
        if j != p {
          assert Pos(g, f) <= j;
          if |s| < n {
            assert |t| < n - 1;
          } else {
            assert t != [] && s[|s| - 1] == t[|t| - 1];
          }
          assert ScreenReaches(t, n - 1, j);
        }
      }
    }
  }

  /** The screen from a visible node shows the visible rows from it on, in
      order and without a gap, and stops short of `n` rows only when there
      is no further visible row. */
  lemma ScreenShowsVisible(g: Graph, p: Ptr, n: int)
    requires NavOk(g) && (IsRow(g, p) || p == DummyTail) && !Hidden(g, Pos(g, p))
    ensures Advancing(g)
    ensures var s := Screen(g, p, n);
      && (|s| > 0 ==> s[0] == p)
      && (forall i :: 0 <= i < |s| ==> !Hidden(g, s[i]))
      && (forall i, j :: 0 <= i < j < |s| ==> s[i] < s[j])
      && (forall j :: Pos(g, p) <= j < |g.rows| && !Hidden(g, j) && ScreenReaches(s, n, j) ==> j in s)
  {
    NavSteps(g);
    var v := Shown(g);
    forall q | IsRow(g, q) && q in v
      ensures var f := Pos(g, Forward(g, q)); f in v && forall m :: q < m < f ==> m !in v
    {
      ForwardNextVisible(g, q);
    }
    assert Jumps(g, v);
    ScreenOrdered(g, p, n);
    ScreenInside(g, v, p, n);
    ScreenNoGap(g, v, p, n);
  }

  /** The lines drawn for the rows `s`. */
  function RowLines(g: Graph, s: seq<Ptr>, cols: int, wide: char -> bool): (lines: seq<string>)
    requires IndentsOk(g) && forall i :: 0 <= i < |s| ==> IsRow(g, s[i])
    ensures |lines| == |s|
  {
    seq(|s|, i requires 0 <= i < |s| && IsRow(g, s[i]) => RowText(g.rows[s[i]].entry, g.rows[s[i]].collapsed, cols, wide))
  }

  /** A step of the drawing loop: the screen from `p` is `p` followed by the
      screen from `forward()`. */
  lemma ScreenStep(g: Graph, s: seq<Ptr>, i: int, p: Ptr, k: int)
    requires Advancing(g) && IsRow(g, p) && k > 0 && 0 <= i <= |s| && Screen(g, p, k) == s[i..]
    ensures i < |s| && s[i] == p && Screen(g, Forward(g, p), k - 1) == s[i + 1..]
  {
    assert s[i..] == [p] + Screen(g, Forward(g, p), k - 1);
    assert s[i..][1..] == s[i + 1..];
  }

  /** The end of the drawing loop: the screen from the tail, or of no rows,
      is empty. */
  lemma ScreenStop(g: Graph, s: seq<Ptr>, i: int, p: Ptr, k: int)
    requires Advancing(g) && (IsRow(g, p) || p == DummyTail) && (k <= 0 || p == DummyTail)
    requires 0 <= i <= |s| && Screen(g, p, k) == s[i..]
    ensures i == |s|
  {
  }

  lemma RowLinesStep(g: Graph, s: seq<Ptr>, i: int, cols: int, wide: char -> bool)
    requires IndentsOk(g) && 0 <= i < |s| && forall k :: 0 <= k < |s| ==> IsRow(g, s[k])
    ensures RowLines(g, s[..i + 1], cols, wide)
      == RowLines(g, s[..i], cols, wide) + [RowText(g.rows[s[i]].entry, g.rows[s[i]].collapsed, cols, wide)]
  {
  }

  /** `n` lines of `~`, none when `n` is negative. */
  function Tildes(n: int): (lines: seq<string>)
    ensures |lines| == (if n < 0 then 0 else n) && forall i :: 0 <= i < |lines| ==> lines[i] == "~"
  {
    seq(if n < 0 then 0 else n, i => "~")
  }

  /** The lines `print_json` draws: nothing on a screen narrower than
      `MinimumWidth`, otherwise the rows of the screen followed by `~`
      lines up to `rows - 2`. */
  function ScreenText(g: Graph, cur: Ptr, cols: int, screenRows: int, wide: char -> bool): (lines: seq<string>)
    requires HandlerOk(g, cur)
  {
    if cols < MinimumWidth then []
    else
      NavSteps(g);
      var s := Screen(g, cur, screenRows - 2);
      RowLines(g, s, cols, wide) + Tildes(screenRows - 2 - |s|)
  }

  /** A screen too narrow shows nothing; otherwise there are `rows - 2`
      lines, the rows drawn fit the width when their indent leaves room,
      and the rest are `~`. */
  lemma ScreenLines(g: Graph, cur: Ptr, cols: int, screenRows: int, wide: char -> bool)
    requires HandlerOk(g, cur) && NarrowMarks(wide)
    ensures var lines := ScreenText(g, cur, cols, screenRows, wide);
      && (cols < MinimumWidth ==> lines == [])
      && (cols >= MinimumWidth ==> |lines| == (if screenRows < 2 then 0 else screenRows - 2))
      && (cols >= MinimumWidth ==> var s := Screen(g, cur, screenRows - 2);
            && |s| <= |lines|
            && (forall i :: 0 <= i < |s| ==> 0 <= s[i] < |g.rows|)
            && (forall i :: 0 <= i < |s| && g.rows[s[i]].entry.indent <= cols - 8 ==>
                  Columns(lines[i], wide) <= cols)
            && (forall i :: |s| <= i < |lines| ==> lines[i] == "~"))
  {
    if cols >= MinimumWidth {
      NavSteps(g);
      var s := Screen(g, cur, screenRows - 2);
      var lines := ScreenText(g, cur, cols, screenRows, wide);
      forall i | 0 <= i < |s| && g.rows[s[i]].entry.indent <= cols - 8
        ensures Columns(lines[i], wide) <= cols
      {
        RowFits(g.rows[s[i]].entry, g.rows[s[i]].collapsed, cols, wide);
      }
    }
  }

  /** The label of a row in the breadcrumb: its key, or for a row without
      one, or with an empty one, `{` for an object, `[` for an array and
      `.` for a primitive. */
  function Label(e: Entry): string
  {
    if e.key.None? || e.key.value == "" then
      (if e.kind == ObjectOpen then "{" else if e.kind == ArrayOpen then "[" else ".")
    else e.key.value
  }

  /** Parent links: every row's parent is null or an earlier row; the
      dummies have none. */
  predicate ParentsOk(g: Graph, parents: seq<Ptr>)
  {
    |parents| == |g.rows| && forall i :: 0 <= i < |g.rows| ==> parents[i] == Nil || 0 <= parents[i] < i
  }

  function ParentOf(g: Graph, parents: seq<Ptr>, p: Ptr): (q: Ptr)
    requires ParentsOk(g, parents)
    ensures q == Nil || (IsRow(g, q) && IsRow(g, p) && q < p)
  {
    if IsRow(g, p) then parents[p] else Nil
  }

  /** The nodes from `p` up the parent chain: `p`, its parent, and so on
      until a node without one. */
  function Chain(g: Graph, parents: seq<Ptr>, p: Ptr): (c: seq<Ptr>)
    requires ParentsOk(g, parents) && (IsNode(g, p) || p == Nil)
    ensures (c == []) == (p == Nil)
    ensures c != [] ==> c[0] == p && ParentOf(g, parents, c[|c| - 1]) == Nil
    ensures forall i :: 0 <= i < |c| ==> IsNode(g, c[i])
    ensures forall i :: 0 < i < |c| ==> c[i] == ParentOf(g, parents, c[i - 1])
    decreases if p == Nil then 0 else if IsRow(g, p) then p + 2 else 1
  {
    if p == Nil then [] else [p] + Chain(g, parents, ParentOf(g, parents, p))
  }

  /** `forward()` `k` times from `p`, giving up (`None`) when it meets a
      null pointer before the last step. */
  function HoverFrom(g: Graph, p: Ptr, k: int): (r: Option<Ptr>)
    requires Advancing(g) && Forward(g, DummyTail) == Nil && (IsRow(g, p) || p == DummyTail || p == Nil)
    ensures r.Some? ==> IsRow(g, r.value) || r.value == DummyTail || r.value == Nil
    decreases if k < 0 then 0 else k
  {
    if k <= 0 then Some(p)
    else if p == Nil then None
    else HoverFrom(g, Forward(g, p), k - 1)
  }

  /** The labels of a chain of nodes, in order. */
  function Labels(g: Graph, c: seq<Ptr>): (ls: seq<string>)
    requires forall i :: 0 <= i < |c| ==> IsNode(g, c[i])
    ensures |ls| == |c| && forall i :: 0 <= i < |c| ==> ls[i] == Label(At(g, c[i]).entry)
  {
    seq(|c|, i requires 0 <= i < |c| => Label(At(g, c[i]).entry))
  }

  /** The breadcrumb for the hovered screen row `highlight`: nothing when
      no row is hovered or the walk to it meets a null pointer; otherwise
      the labels from the root down to the hovered node. */
  function Crumbs(g: Graph, parents: seq<Ptr>, cur: Ptr, highlight: int): Option<seq<string>>
    requires HandlerOk(g, cur) && ParentsOk(g, parents)
  {
    if highlight < 0 then None
    else
      NavSteps(g);
      match HoverFrom(g, cur, highlight)
      case None => None
      case Some(p) => Some(Reverse(Labels(g, Chain(g, parents, p))))
  }

  /** `path` goes from a root, a node without a parent, down one parent
      link at a time to `p`, and `crumbs` are the labels of its nodes. */
  ghost predicate RootPath(g: Graph, parents: seq<Ptr>, path: seq<Ptr>, crumbs: seq<string>, p: Ptr)
    requires ParentsOk(g, parents)
  {
    && |path| == |crumbs|
    && (forall i :: 0 <= i < |path| ==> IsNode(g, path[i]) && crumbs[i] == Label(At(g, path[i]).entry))
    && (path != [] ==> ParentOf(g, parents, path[0]) == Nil && path[|path| - 1] == p)
    && (forall i :: 0 < i < |path| ==> path[i - 1] == ParentOf(g, parents, path[i]))
    && (path == [] <==> p == Nil)
  }

  /** The breadcrumb starts at a root, a node without a parent, and goes
      down one parent link at a time to the hovered node, which comes
      last. */
  lemma CrumbsPath(g: Graph, parents: seq<Ptr>, cur: Ptr, highlight: int)
    requires HandlerOk(g, cur) && ParentsOk(g, parents) && highlight >= 0
    ensures Advancing(g)
    ensures var h := HoverFrom(g, cur, highlight);
      Crumbs(g, parents, cur, highlight).Some? <==> h.Some?
    ensures var h := HoverFrom(g, cur, highlight);
      h.Some? ==>
        var crumbs := Crumbs(g, parents, cur, highlight).value;
        exists path :: RootPath(g, parents, path, crumbs, h.value)
  {
    NavSteps(g);
    var h := HoverFrom(g, cur, highlight);
    if h.Some? {
      assert Crumbs(g, parents, cur, highlight).value == Reverse(Labels(g, Chain(g, parents, h.value)));
      ChainPath(g, parents, h.value);
    }
  }

  /** The reversed labels of the chain above `p` are read off a root-first
      path of parent links ending at `p`. */
  lemma ChainPath(g: Graph, parents: seq<Ptr>, p: Ptr)
    requires ParentsOk(g, parents) && (IsNode(g, p) || p == Nil)
    ensures exists path :: RootPath(g, parents, path, Reverse(Labels(g, Chain(g, parents, p))), p)
  {
    var c := Chain(g, parents, p);
    var path := Reverse(c);
    var crumbs := Reverse(Labels(g, c));
    ReversedLabels(g, c);
    ReversedLinks(g, parents, c);
    assert path != [] ==> path[0] == c[|c| - 1] && path[|path| - 1] == c[0];
    assert RootPath(g, parents, path, crumbs, p);
  }

  /** The labels of a sequence of nodes, read backwards, are the labels of
      the sequence read backwards. */
  lemma ReversedLabels(g: Graph, c: seq<Ptr>)
    requires forall i :: 0 <= i < |c| ==> IsNode(g, c[i])
    ensures forall i :: 0 <= i < |c| ==>
      IsNode(g, Reverse(c)[i]) && Reverse(Labels(g, c))[i] == Label(At(g, Reverse(c)[i]).entry)
  {
    var path := Reverse(c);
    var ls := Labels(g, c);
    forall i | 0 <= i < |c|
      ensures IsNode(g, path[i]) && Reverse(ls)[i] == Label(At(g, path[i]).entry)
    {
      assert path[i] == c[|c| - 1 - i] && Reverse(ls)[i] == ls[|c| - 1 - i];
    }
  }

  /** A chain going up the parent links, read backwards, goes down them. */
  lemma ReversedLinks(g: Graph, parents: seq<Ptr>, c: seq<Ptr>)
    requires ParentsOk(g, parents)
    requires forall i :: 0 < i < |c| ==> c[i] == ParentOf(g, parents, c[i - 1])
    ensures forall i :: 0 < i < |c| ==> Reverse(c)[i - 1] == ParentOf(g, parents, Reverse(c)[i])
  {
    var path := Reverse(c);
    forall i | 0 < i < |c|
      ensures path[i - 1] == ParentOf(g, parents, path[i])
    {
      assert path[i - 1] == c[|c| - i] && path[i] == c[|c| - 1 - i];
    }
  }


  /** `main_handler` over a loaded view model. */
  class MainHandler {
    const model: Model
    var cur: Ptr
    var rowHighlight: int

    ghost predicate Valid()
      reads this, model
    {
      HandlerOk(model.State(), cur)
    }

    /** The constructor followed by `start()`: the cursor on `head()`, no
        row hovered. */
    constructor (m: Model)
      requires HandlerOk(m.State(), 0)
      ensures model == m && cur == 0 && rowHighlight == -1 && Valid()
    {
      model := m;
      cur := m.Head();
      rowHighlight := -1;
    }

    /** `scroll_forward(n)`. */
    method ScrollForward(n: int)
      modifies this
      requires Advancing(model.State()) && IsRow(model.State(), cur)
      ensures cur == ScrollDown(model.State(), old(cur), n) && rowHighlight == old(rowHighlight)
    {
      ghost var g := model.State();
      var i := 0;
      while i < n && Forward(model.State(), cur) != DummyTail
        invariant model.State() == g && IsRow(g, cur) && rowHighlight == old(rowHighlight)
        invariant ScrollDown(g, cur, n - i) == ScrollDown(g, old(cur), n)
        decreases |g.rows| - cur
      {
        cur := Forward(model.State(), cur);
        i := i + 1;
      }
    }

    /** `scroll_backward(n)`. */
    method ScrollBackward(n: int)
      modifies this
      requires Retreating(model.State()) && IsRow(model.State(), cur)
      ensures cur == ScrollUp(model.State(), old(cur), n) && rowHighlight == old(rowHighlight)
    {
      ghost var g := model.State();
      var i := 0;
      while i < n && cur != model.head.next
        invariant model.State() == g && IsRow(g, cur) && rowHighlight == old(rowHighlight)
        invariant ScrollUp(g, cur, n - i) == ScrollUp(g, old(cur), n)
        decreases cur
      {
        cur := Backward(model.State(), cur);
        i := i + 1;
      }
    }

    /** `at_top()`. */
    function AtTopNow(): (b: bool)
      reads this, model
      requires Valid()
      ensures b <==> AtTop(model.State(), cur)
    {
      cur == model.Head()
    }

    /** `at_bottom()`. */
    function AtBottomNow(): (b: bool)
      reads this, model
      requires Valid()
      ensures b <==> AtBottom(model.State(), cur)
    {
      Forward(model.State(), cur) == model.Tail()
    }

    /** The `'-'` key with collapse restricted to container rows:
        `set_collapse()` on every container row in `next` order. */
    method CollapseAll()
      modifies model
      requires Valid()
      ensures Valid() && model.State() == CollapseFrom(old(model.State()), 0)
    {
      ghost var g0 := model.State();
      CollapseEachContainer();
      HandlerCarries(g0, model.State(), cur);
    }

    /** The loop of `CollapseAll`, on any navigable model. */
    method CollapseEachContainer()
      modifies model
      requires NavOk(model.State())
      ensures NavOk(model.State()) && model.State() == CollapseFrom(old(model.State()), 0)
    {
      ghost var g0 := model.State();
      ghost var target := CollapseFrom(g0, 0);
      var p := model.Head();
      ghost var k := 0;
      while p != model.Tail()
        invariant 0 <= k <= |g0.rows| == |model.rows| && NavOk(model.State())
        invariant p == RowOrTail(g0, k) && CollapseFrom(model.State(), k) == target
        decreases |g0.rows| - k
      {
        CollapseRow(p);
        p := model.rows[p].next;
        k := k + 1;
      }
      CollapseDone(g0, model.State());
    }

    /** The `'-'` key as the source writes it: `set_collapse()` on every
        row, primitives included. The model stays consistent but, as soon
        as there is a primitive row, not navigable. */
    method CollapseAllAsWritten()
      modifies model
      requires model.Valid()
      ensures model.Valid() && model.State() == CollapseEvery(old(model.State()), 0)
    {
      ghost var g0 := model.State();
      ghost var target := CollapseEvery(g0, 0);
      var p := model.Head();
      ghost var k := 0;
      while p != model.Tail()
        invariant 0 <= k <= |g0.rows| == |model.rows| && model.Valid()
        invariant p == RowOrTail(g0, k) && CollapseEvery(model.State(), k) == target
        decreases |g0.rows| - k
      {
        CollapseAnyRow(p);
        p := model.rows[p].next;
        k := k + 1;
      }
      CollapseEveryDone(g0, model.State());
    }

    /** The `'+'` key: `set_expand()` on every row in `next` order. */
    method ExpandAll()
      modifies model
      requires Valid()
      ensures Valid() && model.State() == ExpandFrom(old(model.State()), 0)
    {
      ghost var g0 := model.State();
      ExpandEachRow();
      HandlerCarries(g0, model.State(), cur);
    }

    /** The loop of `ExpandAll`, on any navigable model. */
    method ExpandEachRow()
      modifies model
      requires NavOk(model.State())
      ensures NavOk(model.State()) && model.State() == ExpandFrom(old(model.State()), 0)
    {
      ghost var g0 := model.State();
      ghost var target := ExpandFrom(g0, 0);
      var p := model.Head();
      ghost var k := 0;
      while p != model.Tail()
        invariant 0 <= k <= |g0.rows| == |model.rows| && NavOk(model.State())
        invariant p == RowOrTail(g0, k) && ExpandFrom(model.State(), k) == target
        decreases |g0.rows| - k
      {
        ExpandRow(p);
        p := model.rows[p].next;
        k := k + 1;
      }
      ExpandDone(g0, model.State());
    }

    /** The body of the `'-'` loop: `set_collapse()` on row `p` when it is
        a container. */
    method CollapseRow(p: Ptr)
      modifies model
      requires NavOk(model.State()) && IsRow(model.State(), p)
      ensures NavOk(model.State()) && |model.rows| == old(|model.rows|)
      ensures SkipTargetOk(old(model.State()), p) && model.State() == CollapseIfContainer(old(model.State()), p)
      ensures CollapseFrom(model.State(), p + 1) == CollapseFrom(old(model.State()), p)
      ensures model.rows[p].next == RowOrTail(model.State(), p + 1)
    {
      CollapseNext(model.State(), p);
      if IsCollapsible(model.rows[p].entry.kind) {
        model.SetCollapse(p);
      }
    }

    /** The body of the `'-'` loop as written: `set_collapse()` on row `p`. */
    method CollapseAnyRow(p: Ptr)
      modifies model
      requires model.Valid() && IsRow(model.State(), p)
      ensures model.Valid() && |model.rows| == old(|model.rows|)
      ensures model.State() == Collapse(old(model.State()), p)
      ensures CollapseEvery(model.State(), p + 1) == CollapseEvery(old(model.State()), p)
      ensures model.rows[p].next == RowOrTail(model.State(), p + 1)
    {
      CollapseEveryNext(model.State(), p);
      model.SetCollapse(p);
    }

    /** The body of the `'+'` loop: `set_expand()` on row `p`. */
    method ExpandRow(p: Ptr)
      modifies model
      requires NavOk(model.State()) && IsRow(model.State(), p)
      ensures NavOk(model.State()) && |model.rows| == old(|model.rows|)
      ensures model.State() == Expand(old(model.State()), p)
      ensures ExpandFrom(model.State(), p + 1) == ExpandFrom(old(model.State()), p)
      ensures model.rows[p].next == RowOrTail(model.State(), p + 1)
    {
      ExpandNext(model.State(), p);
      model.SetExpand(p);
    }

    /** The left click of `mouse()` on screen row `y`. */
    method Click(y: int, screenRows: int)
      modifies model
      requires Valid()
      ensures Valid() && model.State() == ClickEffect(old(model.State()), cur, y, screenRows)
    {
      ghost var g := model.State();
      NavSteps(g);
      var p := ClickTarget(y, screenRows);
      if IsCollapsible(At(model.State(), p).entry.kind) {
        ToggleRow(p);
      }
      assert model.State() == ClickEffect(g, cur, y, screenRows);
      HandlerCarries(g, model.State(), cur);
    }

    /** The toggle of a click: `set_expand()` on a collapsed container row,
        `set_collapse()` on an expanded one. */
    method ToggleRow(p: Ptr)
      modifies model
      requires NavOk(model.State()) && IsRow(model.State(), p) && IsCollapsible(model.rows[p].entry.kind)
      ensures model.State() == Toggle(old(model.State()), p)
    {
      ghost var g := model.State();
      if model.rows[p].collapsed {
        ExpandStep(g, p);
        model.SetExpand(p);
      } else {
        CollapseStep(g, p);
        model.SetCollapse(p);
      }
    }

    /** The walk of a click on screen row `y`: `forward()` from the cursor
        for at most `y` and at most `screenRows - 1` steps, stopping at the
        tail. */
    method ClickTarget(y: int, screenRows: int) returns (p: Ptr)
      requires Advancing(model.State()) && IsRow(model.State(), cur)
      ensures p == Reach(model.State(), cur, Min(screenRows - 1, y))
    {
      ghost var g := model.State();
      p := cur;
      var i := 0;
      while i < screenRows - 1 && i < y && p != DummyTail
        invariant 0 <= i && (IsRow(g, p) || p == DummyTail)
        invariant Reach(g, p, Min(screenRows - 1, y) - i) == Reach(g, cur, Min(screenRows - 1, y))
        decreases |g.rows| - Pos(g, p)
      {
        p := Forward(model.State(), p);
        i := i + 1;
      }
    }

    /** `mouse()`: a left click toggles the clicked container; a move
        makes the row under the pointer the hovered one. */
    method Mouse(leftDown: bool, moved: bool, y: int, screenRows: int)
      modifies this, model
      requires Valid()
      ensures Valid() && cur == old(cur)
      ensures model.State() == if leftDown then ClickEffect(old(model.State()), old(cur), y, screenRows) else old(model.State())
      ensures rowHighlight == if moved then y else old(rowHighlight)
    {
      if leftDown {
        Click(y, screenRows);
      }
      if moved && rowHighlight != y {
        rowHighlight := y;
      }
    }

    /** `key()`, with `'-'` restricted to container rows. */
    method Key(input: Input, screenRows: int) returns (control: Control, beeped: bool)
      modifies this, model
      requires Valid()
      ensures Valid() && rowHighlight == old(rowHighlight)
      ensures Outcome(model.State(), cur, control, beeped) == KeyEffect(old(model.State()), old(cur), input, screenRows)
    {
      ghost var g := model.State();
      NavSteps(g);
      control, beeped := Ok, false;
      match ActionOf(input, screenRows)
      case CollapseRows => CollapseAll();
      case ExpandRows => ExpandAll();
      case Down(n) =>
        if AtBottomNow() {
          beeped := true;
        } else {
          ScrollForward(n);
        }
      case Up(n) =>
        if AtTopNow() {
          beeped := true;
        } else {
          ScrollBackward(n);
        }
      case ToTop => cur := model.Head();
      case ToBottom =>
        BottomIsLastVisible(g);
        cur := Backward(model.State(), model.Tail());
      case Quit => control := Stop;
      case Ignore =>
    }

    /** `print_json`. */
    method PrintJson(cols: int, screenRows: int, wide: char -> bool) returns (lines: seq<string>)
      requires Valid()
      ensures lines == ScreenText(model.State(), cur, cols, screenRows, wide)
    {
      if cols < MinimumWidth {
        return [];
      }
      NavSteps(model.State());
      lines := DrawRows(cols, screenRows - 2, wide);
    }

    /** The drawing loop of `print_json`: a line for each row from the
        cursor on, following `forward()`, until `rowEnd` lines or the tail,
        then `~` lines up to `rowEnd`. */
    method DrawRows(cols: int, rowEnd: int, wide: char -> bool) returns (lines: seq<string>)
      requires Advancing(model.State()) && IsRow(model.State(), cur) && IndentsOk(model.State())
      ensures var s := Screen(model.State(), cur, rowEnd);
        lines == RowLines(model.State(), s, cols, wide) + Tildes(rowEnd - |s|)
    {
      var g := model.State();
      ghost var s := Screen(g, cur, rowEnd);
      var p := cur;
      var i := 0;
      lines := [];
      while i < rowEnd && p != DummyTail
        invariant 0 <= i <= |s| && (IsRow(g, p) || p == DummyTail)
        invariant Screen(g, p, rowEnd - i) == s[i..]
        invariant lines == RowLines(g, s[..i], cols, wide)
        decreases |g.rows| - Pos(g, p)
      {
        ScreenStep(g, s, i, p, rowEnd - i);
        RowLinesStep(g, s, i, cols, wide);
        var line := RenderRow(g.rows[p].entry, g.rows[p].collapsed, cols, wide);
        lines := lines + [line];
        p := Forward(g, p);
        i := i + 1;
      }
      ScreenStop(g, s, i, p, rowEnd - i);
      assert s[..i] == s;
      lines := PadTildes(lines, i, rowEnd);
    }

    /** `print_breadcrumb`, up to the labels: walk to the hovered row,
        collect the labels up the parent chain, and reverse them. `None`
        when it returns without drawing. */
    method Breadcrumb(parents: seq<Ptr>) returns (crumbs: Option<seq<string>>)
      requires Valid() && ParentsOk(model.State(), parents)
      ensures crumbs == Crumbs(model.State(), parents, cur, rowHighlight)
    {
      if rowHighlight < 0 {
        return None;
      }
      NavSteps(model.State());
      var hovered := Hover();
      if hovered.None? {
        return None;
      }
      var buffer := CollectLabels(parents, hovered.value);
      buffer := ReverseLabels(buffer);
      crumbs := Some(buffer);
    }

    /** The walk of `print_breadcrumb` to the hovered row: `forward()`
        `rowHighlight` times from the cursor, giving up on a null pointer. */
    method Hover() returns (r: Option<Ptr>)
      requires Advancing(model.State()) && Forward(model.State(), DummyTail) == Nil
      requires IsRow(model.State(), cur) && rowHighlight >= 0
      ensures r == HoverFrom(model.State(), cur, rowHighlight)
    {
      ghost var g := model.State();
      var p := cur;
      var i := 0;
      while i < rowHighlight
        invariant 0 <= i <= rowHighlight && (IsRow(g, p) || p == DummyTail || p == Nil)
        invariant HoverFrom(g, p, rowHighlight - i) == HoverFrom(g, cur, rowHighlight)
      {
        if p == Nil {
          return None;
        }
        p := Forward(model.State(), p);
        i := i + 1;
      }
      return Some(p);
    }

    /** The label loop of `print_breadcrumb`: the labels of `top` and of
        each parent above it, nearest first. */
    method CollectLabels(parents: seq<Ptr>, top: Ptr) returns (buffer: seq<string>)
      requires ParentsOk(model.State(), parents) && (IsNode(model.State(), top) || top == Nil)
      ensures buffer == Labels(model.State(), Chain(model.State(), parents, top))
    {
      ghost var g := model.State();
      ghost var c := Chain(g, parents, top);
      ghost var k := 0;
      var p := top;
      buffer := [];
      while p != Nil
        invariant 0 <= k <= |c| && (IsNode(g, p) || p == Nil)
        invariant Chain(g, parents, p) == c[k..]
        invariant buffer == Labels(g, c[..k])
        decreases |c| - k
      {
        ChainStep(g, parents, c, k, p);
        LabelsStep(g, c, k);
        buffer := buffer + [Label(At(model.State(), p).entry)];
        p := ParentOf(model.State(), parents, p);
        k := k + 1;
      }
      assert c[..k] == c;
    }
  }

  /** The `~` loop of `print_json`: from line `drawn` on, a `~` line for
      each line left up to `rowEnd`. */
  method PadTildes(lines: seq<string>, drawn: int, rowEnd: int) returns (r: seq<string>)
    requires 0 <= drawn
    ensures r == lines + Tildes(rowEnd - drawn)
  {
    var i := drawn;
    r := lines;
    while i < rowEnd
      invariant drawn <= i && (i <= rowEnd || i == drawn)
      invariant r == lines + Tildes(i - drawn)
    {
      assert Tildes(i + 1 - drawn) == Tildes(i - drawn) + ["~"];
      r := r + ["~"];
      i := i + 1;
    }
    assert Tildes(i - drawn) == Tildes(rowEnd - drawn);
  }

  /** A step of the label loop: the chain from `p` is `p` followed by the
      chain from its parent. */
  lemma ChainStep(g: Graph, parents: seq<Ptr>, c: seq<Ptr>, k: int, p: Ptr)
    requires ParentsOk(g, parents) && IsNode(g, p) && 0 <= k <= |c| && Chain(g, parents, p) == c[k..]
    ensures k < |c| && c[k] == p && Chain(g, parents, ParentOf(g, parents, p)) == c[k + 1..]
  {
    assert c[k..] == [p] + Chain(g, parents, ParentOf(g, parents, p));
    assert c[k..][1..] == c[k + 1..];
  }

  lemma LabelsStep(g: Graph, c: seq<Ptr>, k: int)
    requires 0 <= k < |c| && forall i :: 0 <= i < |c| ==> IsNode(g, c[i])
    ensures Labels(g, c[..k + 1]) == Labels(g, c[..k]) + [Label(At(g, c[k]).entry)]
  {
  }

  /** `std::reverse` on the label buffer, by swapping from both ends. */
  method ReverseLabels(b: seq<string>) returns (r: seq<string>)
    ensures r == Reverse(b)
  {
    var lo, hi := 0, |b|;
    r := b;
    while lo + 1 < hi
      invariant 0 <= lo && lo <= hi <= |b| && lo + hi == |b| && |r| == |b|
      invariant forall j :: 0 <= j < lo || hi <= j < |b| ==> r[j] == b[|b| - 1 - j]
      invariant forall j :: lo <= j < hi ==> r[j] == b[j]
      decreases hi - lo
    {
      var t := r[lo];
      r := r[lo := r[hi - 1]][hi - 1 := t];
      lo, hi := lo + 1, hi - 1;
    }
  }

  /** `main_handler` built from a document: `load()` and then `start()`.
      `None` when loading throws on a value of unknown type; otherwise the
      rows are the document's in pre-order, nothing is collapsed, and the
      cursor is on the first row with no row hovered. */
  method Open(doc: Json) returns (r: Option<MainHandler>)
    ensures r.None? <==> !WellFormed(doc)
    ensures r.Some? ==> fresh(r.value) && fresh(r.value.model) && r.value.Valid()
    ensures r.Some? ==> var g := r.value.model.State();
      && Entries(g) == Flatten(doc, None, 0).rows && NoneCollapsed(g)
      && r.value.cur == 0 && r.value.rowHighlight == -1
  {
    var m := Load(doc);
    if m.None? {
      return None;
    }
    ghost var g := m.value.State();
    FlattenDepth(doc, None, 0);
    assert forall i :: 0 <= i < |g.rows| ==> g.rows[i].entry.indent >= 0 by {
      assert forall i :: 0 <= i < |g.rows| ==> g.rows[i].entry == Flatten(doc, None, 0).rows[i];
    }
    var h := new MainHandler(m.value);
    return Some(h);
  }
}
