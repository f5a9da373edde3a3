/** The view model of `json.hpp`: a doubly linked list of display rows between
    a dummy head and a dummy tail, where a collapsed container row skips
    forward past its subtree and the row it skips to remembers, per indent,
    which collapsed row skips to it.

    Nodes live in an arena: rows are numbered `0 .. n-1` in list order and a
    pointer is a row number or one of three sentinels. `Graph` is a snapshot
    of every node; the class `Model` holds the same three parts as fields. */
module ViewModel {

  import opened JsonDoc
  import opened Landing
  import opened Flattener

  type Ptr = int

  /** `nullptr`. */
  const Nil: Ptr := -1
  const DummyHead: Ptr := -2
  const DummyTail: Ptr := -3

  /** `view_model_node`: its entry, the collapsed flag, the backward skips
      (`std::map<int, node *>` from indent to node), the forward skip and the
      two list links. */
  datatype Node = Node(entry: Entry, collapsed: bool, backwardSkips: map<int, Ptr>, forwardSkip: Ptr, next: Ptr, prev: Ptr)

  datatype Graph = Graph(head: Node, rows: seq<Node>, tail: Node)

  predicate IsRow(g: Graph, p: Ptr)
  {
    0 <= p < |g.rows|
  }

  predicate IsNode(g: Graph, p: Ptr)
  {
    p == DummyHead || p == DummyTail || IsRow(g, p)
  }

  function At(g: Graph, p: Ptr): Node
    requires IsNode(g, p)
  {
    if p == DummyHead then g.head else if p == DummyTail then g.tail else g.rows[p]
  }

  function SetAt(g: Graph, p: Ptr, n: Node): (h: Graph)
    requires IsNode(g, p)
    ensures |h.rows| == |g.rows| && At(h, p) == n
    ensures forall q :: IsNode(g, q) && q != p ==> At(h, q) == At(g, q)
  {
    if p == DummyHead then g.(head := n)
    else if p == DummyTail then g.(tail := n)
    else g.(rows := g.rows[p := n])
  }

  /** The node at list position `j`, where position `n` is the dummy tail. */
  function RowOrTail(g: Graph, j: int): Ptr
  {
    if 0 <= j < |g.rows| then j else DummyTail
  }

  /** The node at list position `j`, where position `-1` is the dummy head. */
  function RowOrHead(j: int): Ptr
  {
    if j >= 0 then j else DummyHead
  }

  function Entries(g: Graph): (es: seq<Entry>)
    ensures |es| == |g.rows| && forall i :: 0 <= i < |g.rows| ==> es[i] == g.rows[i].entry
  {
    seq(|g.rows|, i requires 0 <= i < |g.rows| => g.rows[i].entry)
  }

  /** The landing position of row `i`'s subtree. */
  function LandOf(g: Graph, i: int): int
    requires IsRow(g, i)
  {
    Land(Indents(Entries(g)), i)
  }

  /** The least key of a non-empty map: what `cbegin()` of a `std::map`
      yields. */
  function MinKey(m: map<int, Ptr>): (k: int)
    requires m != map[]
    ensures k in m && forall x :: x in m ==> k <= x
  {
    MinExists(m.Keys);
    var k :| k in m && forall x :: x in m ==> k <= x;
    k
  }

  lemma NonEmpty(s: set<int>)
    requires s != {}
    ensures exists y :: y in s
  {
    assert (forall y :: y !in s) ==> s == {};
  }

  lemma {:induction false} MinExists(s: set<int>)
    requires s != {}
    ensures exists k :: k in s && forall x :: x in s ==> k <= x
    decreases |s|
  {
    NonEmpty(s);
    var y :| y in s;
    var r := s - {y};
    if r == {} {
      assert forall x :: x in s ==> x == y by {
        forall x | x in s ensures x == y {
          assert x !in r;
        }
      }
      assert y in s && forall x :: x in s ==> y <= x;
    } else {
      MinLess(s, r, y);
    }
  }

  /** The least element of `s` is that of `s` without `y`, or `y`. */
  lemma {:induction false} MinLess(s: set<int>, r: set<int>, y: int)
    requires y in s && r == s - {y} && r != {}
    ensures exists k :: k in s && forall x :: x in s ==> k <= x
    decreases |s|, 0
  {
    assert |r| < |s|;
    MinExists(r);
    var k :| k in r && forall x :: x in r ==> k <= x;
    var least := if y < k then y else k;
    forall x | x in s ensures least <= x {
      if x != y {
        assert x in r;
      }
    }
    assert least in s;
  }

  /** `forward()`: the skip of a collapsed node, otherwise its successor. */
  function Forward(g: Graph, p: Ptr): Ptr
    requires IsNode(g, p)
  {
    var n := At(g, p);
    if n.collapsed then n.forwardSkip else n.next
  }

  /** `backward()`: the backward skip with the least indent, that is the
      outermost collapsed row skipping to this node, otherwise its
      predecessor. */
  function Backward(g: Graph, p: Ptr): Ptr
    requires IsNode(g, p)
  {
    var n := At(g, p);
    if n.backwardSkips == map[] then n.prev else n.backwardSkips[MinKey(n.backwardSkips)]
  }

  /** The forward skip of `p` is null or a node. */
  predicate SkipTargetOk(g: Graph, p: Ptr)
    requires IsNode(g, p)
  {
    At(g, p).forwardSkip == Nil || IsNode(g, At(g, p).forwardSkip)
  }

  /** `set_collapse()`: a no-op on a collapsed node; otherwise set the flag
      and, when there is a forward skip, register this node under its indent
      at the skip target unless that indent is already registered there
      (`std::map::insert` does not overwrite). */
  function Collapse(g: Graph, p: Ptr): (h: Graph)
    requires IsNode(g, p) && SkipTargetOk(g, p)
  {
    var n := At(g, p);
    if n.collapsed then g
    else
      var g1 := SetAt(g, p, n.(collapsed := true));
      if n.forwardSkip == Nil then g1
      else
        var t := At(g1, n.forwardSkip);
        if n.entry.indent in t.backwardSkips then g1
        else SetAt(g1, n.forwardSkip, t.(backwardSkips := t.backwardSkips[n.entry.indent := p]))
  }

  /** `set_expand()`: a no-op on an expanded node; otherwise clear the flag
      and, when there is a forward skip, erase this node's indent at the skip
      target. */
  function Expand(g: Graph, p: Ptr): (h: Graph)
    requires IsNode(g, p) && SkipTargetOk(g, p)
  {
    var n := At(g, p);
    if !n.collapsed then g
    else
      var g1 := SetAt(g, p, n.(collapsed := false));
      if n.forwardSkip == Nil then g1
      else
        var t := At(g1, n.forwardSkip);
        SetAt(g1, n.forwardSkip, t.(backwardSkips := t.backwardSkips - {n.entry.indent}))
  }

  /** The list links: head, rows in order, tail. */
  ghost predicate Linked(g: Graph)
  {
    var n := |g.rows|;
    && g.head.prev == Nil && g.head.next == RowOrTail(g, 0)
    && g.tail.next == Nil && g.tail.prev == RowOrHead(n - 1)
    && (forall i :: 0 <= i < n ==> g.rows[i].next == RowOrTail(g, i + 1) && g.rows[i].prev == RowOrHead(i - 1))
  }

  /** Forward skips go from a container row to a later row or the tail;
      primitive rows and the dummies have none; no two rows of the same
      indent skip to the same node. */
  ghost predicate SkipsWellFormed(g: Graph)
  {
    var n := |g.rows|;
    && g.head.forwardSkip == Nil && g.tail.forwardSkip == Nil && g.head.backwardSkips == map[]
    && (forall i :: 0 <= i < n ==> var s := g.rows[i].forwardSkip; s == Nil || s == DummyTail || i < s < n)
    && (forall i :: 0 <= i < n && !IsCollapsible(g.rows[i].entry.kind) ==> g.rows[i].forwardSkip == Nil)
    && (forall i, j :: 0 <= i < j < n && g.rows[i].forwardSkip == g.rows[j].forwardSkip != Nil ==>
          g.rows[i].entry.indent != g.rows[j].entry.indent)
  }

  /** Row `c` is collapsed, has indent `k` and skips to `t`. */
  predicate Registered(g: Graph, c: Ptr, t: Ptr, k: int)
  {
    IsRow(g, c) && g.rows[c].collapsed && g.rows[c].forwardSkip == t && g.rows[c].entry.indent == k
  }

  /** Every backward skip held by node `t` names a collapsed row of that
      indent skipping to `t`. */
  ghost predicate BackwardSkipsSound(g: Graph, t: Ptr)
    requires IsNode(g, t)
  {
    var m := At(g, t).backwardSkips;
    forall k :: k in m ==> Registered(g, m[k], t, k)
  }

  /** Every collapsed row with a skip is registered at its skip target. */
  ghost predicate BackwardSkipsComplete(g: Graph)
  {
    forall c :: 0 <= c < |g.rows| && g.rows[c].collapsed && g.rows[c].forwardSkip != Nil ==>
      var t := g.rows[c].forwardSkip;
      IsNode(g, t) && g.rows[c].entry.indent in At(g, t).backwardSkips && At(g, t).backwardSkips[g.rows[c].entry.indent] == c
  }

  /** The invariant every operation of the view model keeps. */
  ghost predicate Consistent(g: Graph)
  {
    && Linked(g) && SkipsWellFormed(g)
    && (forall t :: IsNode(g, t) ==> BackwardSkipsSound(g, t))
    && BackwardSkipsComplete(g)
  }

  /** What `add_skips` establishes: each container row skips to the row
      just past its subtree, or to the tail. */
  ghost predicate Skipped(g: Graph)
  {
    forall i :: 0 <= i < |g.rows| && IsCollapsible(g.rows[i].entry.kind) ==> g.rows[i].forwardSkip == RowOrTail(g, LandOf(g, i))
  }

  ghost predicate NoneCollapsed(g: Graph)
  {
    forall i :: 0 <= i < |g.rows| ==> !g.rows[i].collapsed
  }

  /** The positions of the collapsed rows. */
  ghost function CollapsedRows(g: Graph): (s: set<int>)
    ensures s == {} <==> NoneCollapsed(g)
  {
    var s := set i | 0 <= i < |g.rows| && g.rows[i].collapsed;
    assert forall i :: 0 <= i < |g.rows| && g.rows[i].collapsed ==> i in s;
    s
  }

  /** The graph after `append`: a fresh expanded row without skips is linked
      in between the old last node and the tail. */
  function AppendRow(g: Graph, e: Entry): (h: Graph)
    requires Linked(g)
    ensures Linked(h)
  {
    var id := |g.rows|;
    var added := Node(e, false, map[], Nil, DummyTail, g.tail.prev);
    var rows := if id == 0 then g.rows else g.rows[id - 1 := g.rows[id - 1].(next := id)];
    Graph(if id == 0 then g.head.(next := id) else g.head, rows + [added], g.tail.(prev := id))
  }

  /** The graph after appending `es` one by one. */
  function AppendRows(g: Graph, es: seq<Entry>): (h: Graph)
    requires Linked(g)
    ensures Linked(h)
    decreases |es|
  {
    if es == [] then g else AppendRow(AppendRows(g, es[..|es| - 1]), es[|es| - 1])
  }

  lemma {:induction false} AppendRowsConcat(g: Graph, a: seq<Entry>, b: seq<Entry>)
    requires Linked(g)
    ensures AppendRows(AppendRows(g, a), b) == AppendRows(g, a + b)
    decreases |b|
  {
    if b == [] {
      assert a + b == a;
    } else {
      assert (a + b)[..|a + b| - 1] == a + b[..|b| - 1];
      AppendRowsConcat(g, a, b[..|b| - 1]);
    }
  }

  /** Appending adds exactly the given entries, as new expanded rows. */
  lemma {:induction false} AppendRowsAdds(g: Graph, es: seq<Entry>)
    requires Linked(g)
    ensures Entries(AppendRows(g, es)) == Entries(g) + es
    ensures CollapsedRows(AppendRows(g, es)) == CollapsedRows(g)
    ensures var h := AppendRows(g, es);
      && h.head.entry == g.head.entry && h.head.collapsed == g.head.collapsed
      && h.tail.entry == g.tail.entry && h.tail.collapsed == g.tail.collapsed
    decreases |es|
  {
    if es != [] {
      var h := AppendRows(g, es[..|es| - 1]);
      AppendRowsAdds(g, es[..|es| - 1]);
      AppendRowAdds(h, es[|es| - 1]);
      assert es == es[..|es| - 1] + [es[|es| - 1]];
    }
  }

  lemma AppendRowAdds(g: Graph, e: Entry)
    requires Linked(g)
    ensures Entries(AppendRow(g, e)) == Entries(g) + [e]
    ensures CollapsedRows(AppendRow(g, e)) == CollapsedRows(g)
  {
    var h := AppendRow(g, e);
    assert forall i :: 0 <= i < |g.rows| ==> h.rows[i].entry == g.rows[i].entry && h.rows[i].collapsed == g.rows[i].collapsed;
  }

  /** Entry of a dummy node: the source sets only the key and leaves
      indent and kind uninitialised; here they are fixed at 0 and `null`. */
  function DummyEntry(name: string): Entry
  {
    Entry(0, NullValue, Some(name), "")
  }

  function EmptyGraph(): Graph
  {
    Graph(Node(DummyEntry("[HEAD]"), false, map[], Nil, DummyTail, Nil), [],
          Node(DummyEntry("[TAIL]"), false, map[], Nil, Nil, DummyHead))
  }

  /** `view_model`: the list and its two dummies. */
  class Model {
    var head: Node
    var rows: seq<Node>
    var tail: Node

    function State(): Graph
      reads this
    {
      Graph(head, rows, tail)
    }

    ghost predicate Valid()
      reads this
    {
      Consistent(State())
    }

    /** The empty model: the dummy head linked to the dummy tail. */
    constructor ()
      ensures State() == EmptyGraph() && Valid()
    {
      head := Node(DummyEntry("[HEAD]"), false, map[], Nil, DummyTail, Nil);
      rows := [];
      tail := Node(DummyEntry("[TAIL]"), false, map[], Nil, Nil, DummyHead);
    }

    /** `head()`: the first row, or the tail when there is none. */
    function Head(): (p: Ptr)
      reads this
      requires Valid()
      ensures p == RowOrTail(State(), 0)
      ensures p == DummyTail <==> rows == []
    {
      head.next
    }

    /** `tail()`: the dummy tail, the one node without a successor. */
    function Tail(): (p: Ptr)
      reads this
      requires Valid()
      ensures IsNode(State(), p) && At(State(), p).next == Nil
      ensures p == RowOrTail(State(), |rows|)
    {
      DummyTail
    }

    /** `append()`: link a new row in before the tail. */
    method Append(e: Entry)
      modifies this
      requires Valid()
      ensures State() == AppendRow(old(State()), e) && Valid()
    {
      var id := |rows|;
      var node := Node(e, false, map[], Nil, DummyTail, tail.prev);
      if tail.prev == DummyHead {
        head := head.(next := id);
      } else {
        rows := rows[tail.prev := rows[tail.prev].(next := id)];
      }
      rows := rows + [node];
      tail := tail.(prev := id);
      AppendKeepsConsistent(old(State()), e);
    }

    /** `set_collapse()` on node `p`. */
    method SetCollapse(p: Ptr)
      modifies this
      requires Valid() && IsNode(State(), p)
      ensures State() == Collapse(old(State()), p) && Valid()
    {
      CollapseKeepsConsistent(State(), p);
      var n := At(State(), p);
      if n.collapsed {
        return;
      }
      SetNode(p, n.(collapsed := true));
      if n.forwardSkip != Nil {
        var t := At(State(), n.forwardSkip);
        if n.entry.indent !in t.backwardSkips {
          SetNode(n.forwardSkip, t.(backwardSkips := t.backwardSkips[n.entry.indent := p]));
        }
      }
    }

    /** `set_expand()` on node `p`. */
    method SetExpand(p: Ptr)
      modifies this
      requires Valid() && IsNode(State(), p)
      ensures State() == Expand(old(State()), p) && Valid()
    {
      ExpandKeepsConsistent(State(), p);
      var n := At(State(), p);
      if !n.collapsed {
        return;
      }
      SetNode(p, n.(collapsed := false));
      if n.forwardSkip != Nil {
        var t := At(State(), n.forwardSkip);
        SetNode(n.forwardSkip, t.(backwardSkips := t.backwardSkips - {n.entry.indent}));
      }
    }

    /** Overwrite node `p` in place. */
    method SetNode(p: Ptr, n: Node)
      modifies this
      requires IsNode(State(), p)
      ensures State() == SetAt(old(State()), p, n)
    {
      if p == DummyHead {
        head := n;
      } else if p == DummyTail {
        tail := n;
      } else {
        rows := rows[p := n];
      }
    }

    /** `doc_to_view_model(model, v, key, level)`: append the rows of `v`;
        `ok` is false when a value of unknown type made it throw, in which
        case the rows appended before the throw stay. */
    method DocToViewModel(v: Json, key: Option<string>, level: int) returns (ok: bool)
      modifies this
      requires Valid()
      ensures Valid()
      ensures State() == AppendRows(old(State()), Flatten(v, key, level).rows)
      ensures ok == Flatten(v, key, level).ok
      decreases v, 0
    {
      ghost var g0 := State();
      match v
      case Object(fields) =>
        Append(RowOf(v, key, level));
        ok := FieldsToViewModel(fields, level + 1);
        AppendRowsConcat(g0, [RowOf(v, key, level)], FlattenFields(fields, level + 1).rows);
      case Array(items) =>
        Append(RowOf(v, key, level));
        ok := ItemsToViewModel(items, level + 1);
        AppendRowsConcat(g0, [RowOf(v, key, level)], FlattenItems(items, level + 1).rows);
      case Unknown =>
        ok := false;
      case _ =>
        Append(RowOf(v, key, level));
        ok := true;
    }

    /** The loop of `doc_to_view_model` over the fields of an object. */
    method FieldsToViewModel(fields: seq<(string, Json)>, level: int) returns (ok: bool)
      modifies this
      requires Valid()
      ensures Valid()
      ensures State() == AppendRows(old(State()), FlattenFields(fields, level).rows)
      ensures ok == FlattenFields(fields, level).ok
      decreases fields, 2
    {
      ghost var g0 := State();
      var i := 0;
      while i < |fields|
        invariant 0 <= i <= |fields| && Valid() && Linked(g0)
        invariant FlattenFields(fields[..i], level).ok
        invariant State() == AppendRows(g0, FlattenFields(fields[..i], level).rows)
      {
        ok := FieldToViewModel(fields, i, level, g0);
        if !ok {
          FieldsStop(fields, i + 1, level);
          return;
        }
        i := i + 1;
      }
      assert fields[..i] == fields;
      ok := true;
    }

    /** One turn of the loop over the fields: append the rows of field `i`. */
    method FieldToViewModel(fields: seq<(string, Json)>, i: int, level: int, ghost g0: Graph) returns (ok: bool)
      modifies this
      requires Valid() && Linked(g0) && 0 <= i < |fields| && FlattenFields(fields[..i], level).ok
      requires State() == AppendRows(g0, FlattenFields(fields[..i], level).rows)
      ensures Valid()
      ensures State() == AppendRows(g0, FlattenFields(fields[..i + 1], level).rows)
      ensures ok == FlattenFields(fields[..i + 1], level).ok
      decreases fields, 1
    {
      var f := fields[i];
      assert f in fields && f.1 < f;
      ghost var done := FlattenFields(fields[..i], level).rows;
      ok := DocToViewModel(f.1, Some(f.0), level);
      AppendRowsConcat(g0, done, Flatten(f.1, Some(f.0), level).rows);
      FieldsSnoc(fields, i, level);
    }

    /** The loop of `doc_to_view_model` over the items of an array. */
    method ItemsToViewModel(items: seq<Json>, level: int) returns (ok: bool)
      modifies this
      requires Valid()
      ensures Valid()
      ensures State() == AppendRows(old(State()), FlattenItems(items, level).rows)
      ensures ok == FlattenItems(items, level).ok
      decreases items, 2
    {
      ghost var g0 := State();
      var i := 0;
      while i < |items|
        invariant 0 <= i <= |items| && Valid() && Linked(g0)
        invariant FlattenItems(items[..i], level).ok
        invariant State() == AppendRows(g0, FlattenItems(items[..i], level).rows)
      {
        ok := ItemToViewModel(items, i, level, g0);
        if !ok {
          ItemsStop(items, i + 1, level);
          return;
        }
        i := i + 1;
      }
      assert items[..i] == items;
      ok := true;
    }

    /** One turn of the loop over the items: append the rows of item `i`. */
    method ItemToViewModel(items: seq<Json>, i: int, level: int, ghost g0: Graph) returns (ok: bool)
      modifies this
      requires Valid() && Linked(g0) && 0 <= i < |items| && FlattenItems(items[..i], level).ok
      requires State() == AppendRows(g0, FlattenItems(items[..i], level).rows)
      ensures Valid()
      ensures State() == AppendRows(g0, FlattenItems(items[..i + 1], level).rows)
      ensures ok == FlattenItems(items[..i + 1], level).ok
      decreases items, 1
    {
      var x := items[i];
      assert x in items;
      ghost var done := FlattenItems(items[..i], level).rows;
      ok := DocToViewModel(x, None, level);
      AppendRowsConcat(g0, done, Flatten(x, None, level).rows);
      ItemsSnoc(items, i, level);
    }

    /** `add_skips`: one pass over the rows with a stack of open containers.
        A row shallower than the running indent pops every stacked container
        at least as deep and makes it skip to this row; containers left on
        the stack at the end skip to the tail. Only forward skips of
        container rows change; on the rows of a document every container
        then skips just past its subtree. */
    method AddSkips()
      modifies this
      requires Valid()
      ensures SameButSkips(old(State()), State())
      ensures Shaped(Entries(old(State()))) ==> Skipped(State())
      ensures Shaped(Entries(old(State()))) && NoneCollapsed(old(State())) ==> Valid()
    {
      ghost var g0 := State();
      var stack, indent := ScanRows();
      ghost var mid := State();
      ScanFacts(g0, mid, stack, |g0.rows|, indent);
      SkipToTail(stack);
      ScanFinish(g0, mid, State(), stack, indent);
    }

    /** The main loop of `add_skips`: walk the rows with a stack of open
        containers, popping (and making skip to the current row) those at
        least as deep as it, and pushing each container row. */
    method ScanRows() returns (stack: seq<Ptr>, indent: int)
      modifies this
      requires Linked(State())
      ensures Scanned(old(State()), State(), stack, |old(rows)|, indent)
    {
      ghost var g0 := State();
      stack := [];
      var cur := head.next;
      indent := 0;
      ghost var k := 0;
      while cur != DummyTail
        invariant Scanned(g0, State(), stack, k, indent) && cur == RowOrTail(State(), k)
        decreases |rows| - k
      {
        stack, indent := ScanRow(cur, stack, indent, g0, k);
        cur := rows[cur].next;
        k := k + 1;
      }
      ScanFacts(g0, State(), stack, k, indent);
      assert k == |g0.rows| && g0 == old(State());
    }

    /** One pass of the main loop of `add_skips`, at row `cur`, which is
        row `k`. */
    method ScanRow(cur: Ptr, stack: seq<Ptr>, indent: int, ghost g0: Graph, ghost k: int)
      returns (stack': seq<Ptr>, indent': int)
      modifies this
      requires Scanned(g0, State(), stack, k, indent) && k < |g0.rows| && cur == k
      ensures Scanned(g0, State(), stack', k + 1, indent')
      ensures k < |rows| && rows[k].next == RowOrTail(State(), k + 1)
    {
      ghost var before := State();
      ScanFacts(g0, before, stack, k, indent);
      var e := rows[cur].entry;
      stack' := stack;
      indent' := indent;
      if e.indent < indent {
        stack' := PopSkips(stack, cur, e.indent);
        indent' := e.indent;
      }
      ghost var rest := stack';
      if e.kind == ObjectOpen || e.kind == ArrayOpen {
        stack' := stack' + [cur];
        indent' := indent' + 1;
      }
      ScanStep(g0, before, State(), stack, rest, k, indent, stack', indent');
    }

    /** The inner loop of `add_skips`: pop the containers at least `depth`
        deep off the top of the stack, making each skip to `cur`. */
    method PopSkips(stack: seq<Ptr>, cur: Ptr, depth: int) returns (rest: seq<Ptr>)
      modifies this
      requires forall a :: 0 <= a < |stack| ==> IsRow(State(), stack[a])
      ensures Popped(old(State()), State(), stack, rest, cur, depth)
    {
      rest := stack;
      while rest != []
        invariant |rest| <= |stack| && rest == stack[..|rest|]
        invariant head == old(head) && tail == old(tail) && |rows| == |old(rows)|
        invariant forall a :: |rest| <= a < |stack| ==> old(rows)[stack[a]].entry.indent >= depth
        invariant forall i :: 0 <= i < |rows| ==>
          rows[i] == if i in stack[|rest|..] then old(rows)[i].(forwardSkip := cur) else old(rows)[i]
      {
        var top := rest[|rest| - 1];
        if rows[top].entry.indent < depth {
          break;
        }
        rows := rows[top := rows[top].(forwardSkip := cur)];
        assert stack[|rest| - 1..] == [top] + stack[|rest|..];
        rest := rest[..|rest| - 1];
      }
    }

    /** The final loop of `add_skips`: every container still on the stack
        skips to the tail. */
    method SkipToTail(stack: seq<Ptr>)
      modifies this
      requires forall a :: 0 <= a < |stack| ==> IsRow(State(), stack[a])
      ensures head == old(head) && tail == old(tail) && |rows| == |old(rows)|
      ensures forall j :: 0 <= j < |rows| ==>
        rows[j] == if j in stack then old(rows)[j].(forwardSkip := DummyTail) else old(rows)[j]
    {
      var i := 0;
      while i < |stack|
        invariant 0 <= i <= |stack|
        invariant head == old(head) && tail == old(tail) && |rows| == |old(rows)|
        invariant forall j :: 0 <= j < |rows| ==>
          rows[j] == if j in stack[..i] then old(rows)[j].(forwardSkip := DummyTail) else old(rows)[j]
      {
        rows := rows[stack[i] := rows[stack[i]].(forwardSkip := DummyTail)];
        assert stack[..i + 1] == stack[..i] + [stack[i]];
        i := i + 1;
      }
      assert stack[..i] == stack;
    }
  }

  /** `load()`: flatten the document into a fresh model and compute the
      skips. A value of unknown type anywhere makes it throw (`None`);
      otherwise the model holds one row per value in document order, every
      container skips just past its subtree, and nothing is collapsed. */
  method Load(doc: Json) returns (r: Option<Model>)
    ensures r.None? <==> !WellFormed(doc)
    ensures r.Some? ==> fresh(r.value) && r.value.Valid()
    ensures r.Some? ==> var g := r.value.State();
      && Entries(g) == Flatten(doc, None, 0).rows && |g.rows| > 0 && Skipped(g) && NoneCollapsed(g)
      && !g.head.collapsed && !g.tail.collapsed && g.tail.entry == DummyEntry("[TAIL]")
  {
    var m := new Model();
    var ok := m.DocToViewModel(doc, None, 0);
    FlattenThrows(doc, None, 0);
    if !ok {
      return None;
    }
    ghost var rows := Flatten(doc, None, 0).rows;
    AppendRowsAdds(EmptyGraph(), rows);
    assert Entries(EmptyGraph()) == [];
    FlattenIsPreorder(doc, None, 0);
    ghost var g := m.State();
    assert Entries(g) == rows && CollapsedRows(g) == {};
    m.AddSkips();
    SkipsKeepRows(g, m.State());
    return Some(m);
  }

  /** Changing only forward skips keeps the rows and their flags. */
  lemma SkipsKeepRows(g: Graph, h: Graph)
    requires SameButSkips(g, h)
    ensures Entries(h) == Entries(g)
    ensures NoneCollapsed(g) ==> NoneCollapsed(h)
  {
    forall i | 0 <= i < |g.rows| ensures h.rows[i].entry == g.rows[i].entry && h.rows[i].collapsed == g.rows[i].collapsed {
      assert h.rows[i] == g.rows[i].(forwardSkip := h.rows[i].forwardSkip);
    }
  }

  lemma AppendKeepsConsistent(g: Graph, e: Entry)
    requires Consistent(g)
    ensures Consistent(AppendRow(g, e))
  {
    var h := AppendRow(g, e);
    AppendGrows(g, e);
    GrowsWellFormed(g, h);
    forall t | IsNode(h, t) ensures BackwardSkipsSound(h, t) {
      GrowsSound(g, h, t);
    }
    GrowsComplete(g, h);
  }

  /** `h` is `g` with one more row, expanded and without skips, and
      otherwise the same flags, entries and skips. */
  ghost predicate Grows(g: Graph, h: Graph)
  {
    var n := |g.rows|;
    && |h.rows| == n + 1
    && h.head.forwardSkip == g.head.forwardSkip && h.head.backwardSkips == g.head.backwardSkips
    && h.tail.forwardSkip == g.tail.forwardSkip && h.tail.backwardSkips == g.tail.backwardSkips
    && (forall i :: 0 <= i < n ==>
          && h.rows[i].entry == g.rows[i].entry && h.rows[i].collapsed == g.rows[i].collapsed
          && h.rows[i].forwardSkip == g.rows[i].forwardSkip && h.rows[i].backwardSkips == g.rows[i].backwardSkips)
    && !h.rows[n].collapsed && h.rows[n].forwardSkip == Nil && h.rows[n].backwardSkips == map[]
  }

  lemma AppendGrows(g: Graph, e: Entry)
    requires Linked(g)
    ensures Grows(g, AppendRow(g, e))
  {
  }

  lemma GrowsWellFormed(g: Graph, h: Graph)
    requires SkipsWellFormed(g) && Grows(g, h)
    ensures SkipsWellFormed(h)
  {
    var n := |g.rows|;
    forall i | 0 <= i < n + 1 ensures var s := h.rows[i].forwardSkip; s == Nil || s == DummyTail || i < s < n + 1 {
      if i < n {
        assert h.rows[i].forwardSkip == g.rows[i].forwardSkip;
      }
    }
  }

  lemma GrowsSound(g: Graph, h: Graph, t: Ptr)
    requires IsNode(h, t) && Grows(g, h)
    requires forall t :: IsNode(g, t) ==> BackwardSkipsSound(g, t)
    ensures BackwardSkipsSound(h, t)
  {
    var n := |g.rows|;
    if t != n {
      assert IsNode(g, t) && BackwardSkipsSound(g, t);
      var m := At(g, t).backwardSkips;
      assert At(h, t).backwardSkips == m;
      forall k | k in m ensures Registered(h, m[k], t, k) {
        assert Registered(g, m[k], t, k);
      }
    }
  }

  lemma GrowsComplete(g: Graph, h: Graph)
    requires BackwardSkipsComplete(g) && Grows(g, h)
    ensures BackwardSkipsComplete(h)
  {
    var n := |g.rows|;
    forall c | 0 <= c < n + 1 && h.rows[c].collapsed && h.rows[c].forwardSkip != Nil
      ensures var t := h.rows[c].forwardSkip;
        IsNode(h, t) && h.rows[c].entry.indent in At(h, t).backwardSkips && At(h, t).backwardSkips[h.rows[c].entry.indent] == c
    {
      var t := g.rows[c].forwardSkip;
      assert IsNode(g, t) && At(h, t).backwardSkips == At(g, t).backwardSkips;
    }
  }

  /** `h` differs from `g` at most in collapsed flags and backward skips. */
  ghost predicate SameLinks(g: Graph, h: Graph)
  {
    && |h.rows| == |g.rows|
    && (forall p :: IsNode(g, p) ==>
          && At(h, p).entry == At(g, p).entry && At(h, p).forwardSkip == At(g, p).forwardSkip
          && At(h, p).next == At(g, p).next && At(h, p).prev == At(g, p).prev)
  }

  lemma SetAtSameLinks(g: Graph, p: Ptr, n: Node)
    requires IsNode(g, p)
    requires n.entry == At(g, p).entry && n.forwardSkip == At(g, p).forwardSkip
    requires n.next == At(g, p).next && n.prev == At(g, p).prev
    ensures SameLinks(g, SetAt(g, p, n))
  {
  }

  lemma LinksTransfer(g: Graph, h: Graph)
    requires SameLinks(g, h) && Linked(g) && SkipsWellFormed(g) && h.head.backwardSkips == map[]
    ensures Linked(h) && SkipsWellFormed(h)
  {
    assert At(h, DummyHead) == h.head && At(g, DummyHead) == g.head;
    assert At(h, DummyTail) == h.tail && At(g, DummyTail) == g.tail;
    forall i | 0 <= i < |g.rows| ensures h.rows[i].entry == g.rows[i].entry && h.rows[i].forwardSkip == g.rows[i].forwardSkip
      && h.rows[i].next == g.rows[i].next && h.rows[i].prev == g.rows[i].prev
    {
      assert At(h, i) == h.rows[i] && At(g, i) == g.rows[i];
    }
  }

  /** What collapsing an expanded row changes: its flag, and at most the
      backward skips of its skip target, which gain its indent. */
  lemma CollapseEffect(g: Graph, p: Ptr)
    requires Consistent(g) && IsNode(g, p) && !At(g, p).collapsed
    ensures SkipTargetOk(g, p)
    ensures var h := Collapse(g, p); var n := At(g, p);
      && SameLinks(g, h) && h.head.backwardSkips == map[]
      && (forall i :: 0 <= i < |g.rows| ==> h.rows[i].collapsed == (i == p || g.rows[i].collapsed))
      && (forall t :: IsNode(g, t) && (n.forwardSkip == Nil || t != n.forwardSkip) ==> At(h, t).backwardSkips == At(g, t).backwardSkips)
      && (n.forwardSkip != Nil ==> IsRow(g, p) && At(h, n.forwardSkip).backwardSkips == At(g, n.forwardSkip).backwardSkips[n.entry.indent := p])
  {
    var n := At(g, p);
    var g1 := SetAt(g, p, n.(collapsed := true));
    SetAtSameLinks(g, p, n.(collapsed := true));
    if n.forwardSkip != Nil {
      NotYetRegistered(g, p);
      var t := At(g1, n.forwardSkip);
      SetAtSameLinks(g1, n.forwardSkip, t.(backwardSkips := t.backwardSkips[n.entry.indent := p]));
    }
    var h := Collapse(g, p);
    forall i | 0 <= i < |g.rows| ensures h.rows[i].collapsed == (i == p || g.rows[i].collapsed) {
      assert At(h, i) == h.rows[i] && At(g, i) == g.rows[i];
    }
  }

  /** Collapsing keeps the invariant: the indent of an expanded row is never
      yet registered at its skip target, so the insertion always happens. */
  lemma CollapseKeepsConsistent(g: Graph, p: Ptr)
    requires Consistent(g) && IsNode(g, p)
    ensures SkipTargetOk(g, p) && Consistent(Collapse(g, p))
  {
    var n := At(g, p);
    if !n.collapsed {
      var h := Collapse(g, p);
      CollapseEffect(g, p);
      LinksTransfer(g, h);
      CollapseSound(g, p);
      CollapseComplete(g, p);
    }
  }

  lemma CollapseSound(g: Graph, p: Ptr)
    requires Consistent(g) && IsNode(g, p) && !At(g, p).collapsed
    ensures SkipTargetOk(g, p) && forall t :: IsNode(Collapse(g, p), t) ==> BackwardSkipsSound(Collapse(g, p), t)
  {
    CollapseEffect(g, p);
    var h := Collapse(g, p);
    var n := At(g, p);
    forall t | IsNode(h, t) ensures BackwardSkipsSound(h, t) {
      var mh := At(h, t).backwardSkips;
      var mg := At(g, t).backwardSkips;
      assert BackwardSkipsSound(g, t);
      forall k | k in mh ensures Registered(h, mh[k], t, k) {
        if !(n.forwardSkip != Nil && t == n.forwardSkip && k == n.entry.indent) {
          assert k in mg && mh[k] == mg[k];
          assert Registered(g, mg[k], t, k);
          assert At(h, mg[k]) == h.rows[mg[k]] && At(g, mg[k]) == g.rows[mg[k]];
        } else {
          assert At(h, p) == h.rows[p] && At(g, p) == g.rows[p];
        }
      }
    }
  }

  lemma CollapseComplete(g: Graph, p: Ptr)
    requires Consistent(g) && IsNode(g, p) && !At(g, p).collapsed
    ensures SkipTargetOk(g, p) && BackwardSkipsComplete(Collapse(g, p))
  {
    CollapseEffect(g, p);
    var h := Collapse(g, p);
    var n := At(g, p);
    forall c | 0 <= c < |h.rows| && h.rows[c].collapsed && h.rows[c].forwardSkip != Nil
      ensures var t := h.rows[c].forwardSkip;
        IsNode(h, t) && h.rows[c].entry.indent in At(h, t).backwardSkips && At(h, t).backwardSkips[h.rows[c].entry.indent] == c
    {
      assert At(h, c) == h.rows[c] && At(g, c) == g.rows[c];
      if c != p {
        var t := g.rows[c].forwardSkip;
        if n.forwardSkip != Nil && t == n.forwardSkip {
          assert g.rows[c].entry.indent != n.entry.indent by {
            assert g.rows[c].entry.indent in At(g, t).backwardSkips;
          }
        }
      }
    }
  }

  /** An expanded row's indent is not registered at its skip target: the
      row registered there would share the skip and the indent. */
  lemma NotYetRegistered(g: Graph, p: Ptr)
    requires Consistent(g) && IsNode(g, p) && !At(g, p).collapsed && At(g, p).forwardSkip != Nil
    ensures IsRow(g, p) && IsNode(g, At(g, p).forwardSkip)
    ensures At(g, p).entry.indent !in At(g, At(g, p).forwardSkip).backwardSkips
  {
    var s := At(g, p).forwardSkip;
    var m := At(g, s).backwardSkips;
    forall k | k in m ensures k != g.rows[p].entry.indent {
      assert BackwardSkipsSound(g, s);
      var c := m[k];
      assert Registered(g, c, s, k);
      if c < p {
        assert g.rows[c].forwardSkip == g.rows[p].forwardSkip != Nil;
      } else {
        assert g.rows[p].forwardSkip == g.rows[c].forwardSkip != Nil;
      }
    }
  }

  /** What expanding a collapsed row changes: its flag, and at most the
      backward skips of its skip target, which lose its indent. */
  lemma ExpandEffect(g: Graph, p: Ptr)
    requires Consistent(g) && IsNode(g, p) && At(g, p).collapsed
    ensures SkipTargetOk(g, p)
    ensures var h := Expand(g, p); var n := At(g, p);
      && SameLinks(g, h) && h.head.backwardSkips == map[]
      && (forall i :: 0 <= i < |g.rows| ==> h.rows[i].collapsed == (i != p && g.rows[i].collapsed))
      && (forall t :: IsNode(g, t) && (n.forwardSkip == Nil || t != n.forwardSkip) ==> At(h, t).backwardSkips == At(g, t).backwardSkips)
      && (n.forwardSkip != Nil ==>
            IsRow(g, p) && IsNode(g, n.forwardSkip) && At(h, n.forwardSkip).backwardSkips == At(g, n.forwardSkip).backwardSkips - {n.entry.indent})
  {
    var n := At(g, p);
    var g1 := SetAt(g, p, n.(collapsed := false));
    SetAtSameLinks(g, p, n.(collapsed := false));
    if n.forwardSkip != Nil {
      var t := At(g1, n.forwardSkip);
      SetAtSameLinks(g1, n.forwardSkip, t.(backwardSkips := t.backwardSkips - {n.entry.indent}));
    }
    var h := Expand(g, p);
    forall i | 0 <= i < |g.rows| ensures h.rows[i].collapsed == (i != p && g.rows[i].collapsed) {
      assert At(h, i) == h.rows[i] && At(g, i) == g.rows[i];
    }
  }

  /** Expanding keeps the invariant: the erased key is exactly the one that
      named this row. */
  lemma ExpandKeepsConsistent(g: Graph, p: Ptr)
    requires Consistent(g) && IsNode(g, p)
    ensures SkipTargetOk(g, p) && Consistent(Expand(g, p))
  {
    var n := At(g, p);
    if n.collapsed {
      var h := Expand(g, p);
      ExpandEffect(g, p);
      LinksTransfer(g, h);
      ExpandSound(g, p);
      ExpandComplete(g, p);
    }
  }

  lemma ExpandSound(g: Graph, p: Ptr)
    requires Consistent(g) && IsNode(g, p) && At(g, p).collapsed
    ensures SkipTargetOk(g, p) && forall t :: IsNode(Expand(g, p), t) ==> BackwardSkipsSound(Expand(g, p), t)
  {
    ExpandEffect(g, p);
    var h := Expand(g, p);
    var n := At(g, p);
    forall t | IsNode(h, t) ensures BackwardSkipsSound(h, t) {
      var mh := At(h, t).backwardSkips;
      var mg := At(g, t).backwardSkips;
      assert BackwardSkipsSound(g, t);
      forall k | k in mh ensures Registered(h, mh[k], t, k) {
        assert k in mg && mh[k] == mg[k];
        assert Registered(g, mg[k], t, k);
        assert At(h, mg[k]) == h.rows[mg[k]] && At(g, mg[k]) == g.rows[mg[k]];
      }
    }
  }

  lemma ExpandComplete(g: Graph, p: Ptr)
    requires Consistent(g) && IsNode(g, p) && At(g, p).collapsed
    ensures SkipTargetOk(g, p) && BackwardSkipsComplete(Expand(g, p))
  {
    ExpandEffect(g, p);
    var h := Expand(g, p);
    var n := At(g, p);
    forall c | 0 <= c < |h.rows| && h.rows[c].collapsed && h.rows[c].forwardSkip != Nil
      ensures var t := h.rows[c].forwardSkip;
        IsNode(h, t) && h.rows[c].entry.indent in At(h, t).backwardSkips && At(h, t).backwardSkips[h.rows[c].entry.indent] == c
    {
      assert At(h, c) == h.rows[c] && At(g, c) == g.rows[c];
      var t := g.rows[c].forwardSkip;
      if n.forwardSkip != Nil && t == n.forwardSkip {
        assert At(g, t).backwardSkips[g.rows[c].entry.indent] == c;
        assert At(g, t).backwardSkips[n.entry.indent] == p;
      }
    }
  }

  /** `h` differs from `g` at most in the forward skips of container rows. */
  ghost predicate SameButSkips(g: Graph, h: Graph)
  {
    && h.head == g.head && h.tail == g.tail && |h.rows| == |g.rows|
    && (forall i :: 0 <= i < |g.rows| ==> h.rows[i] == g.rows[i].(forwardSkip := h.rows[i].forwardSkip))
    && (forall i :: 0 <= i < |g.rows| && !IsCollapsible(g.rows[i].entry.kind) ==> h.rows[i] == g.rows[i])
  }

  lemma SameEntry(g: Graph, h: Graph, i: int)
    requires SameButSkips(g, h) && IsRow(g, i)
    ensures h.rows[i].entry == g.rows[i].entry == Entries(g)[i]
  {
    assert h.rows[i] == g.rows[i].(forwardSkip := h.rows[i].forwardSkip);
  }

  /** What the inner loop of `add_skips` did: `rest` is what is left of the
      stack, its top (if any) shallower than `depth`; every popped row was
      at least `depth` deep and now skips to `cur`; nothing else changed. */
  ghost predicate Popped(g: Graph, h: Graph, stack: seq<Ptr>, rest: seq<Ptr>, cur: Ptr, depth: int)
  {
    && h.head == g.head && h.tail == g.tail && |h.rows| == |g.rows|
    && |rest| <= |stack| && rest == stack[..|rest|]
    && (forall a :: 0 <= a < |stack| ==> IsRow(g, stack[a]))
    && (rest == [] || g.rows[rest[|rest| - 1]].entry.indent < depth)
    && (forall a :: |rest| <= a < |stack| ==> g.rows[stack[a]].entry.indent >= depth)
    && (forall i :: 0 <= i < |g.rows| ==>
          h.rows[i] == if i in stack[|rest|..] then g.rows[i].(forwardSkip := cur) else g.rows[i])
  }

  lemma {:induction false} PopKeepsSame(g0: Graph, g: Graph, h: Graph, stack: seq<Ptr>, rest: seq<Ptr>, cur: Ptr, depth: int)
    requires SameButSkips(g0, g) && Popped(g, h, stack, rest, cur, depth)
    requires forall a :: 0 <= a < |stack| ==> IsRow(g0, stack[a]) && IsCollapsible(g0.rows[stack[a]].entry.kind)
    ensures SameButSkips(g0, h)
  {
  }

  lemma {:induction false} TailKeepsSame(g0: Graph, g: Graph, h: Graph, stack: seq<Ptr>)
    requires SameButSkips(g0, g) && h.head == g.head && h.tail == g.tail && |h.rows| == |g.rows|
    requires forall a :: 0 <= a < |stack| ==> IsRow(g, stack[a]) && IsCollapsible(g0.rows[stack[a]].entry.kind)
    requires forall j :: 0 <= j < |g.rows| ==> h.rows[j] == if j in stack then g.rows[j].(forwardSkip := DummyTail) else g.rows[j]
    ensures SameButSkips(g0, h)
  {
  }

  /** The state of `add_skips` before row `k` of the rows of `g0`: only
      container skips have changed, the stack holds earlier container rows,
      and on a shaped run the stack and the finished skips are right. */
  ghost predicate Scanned(g0: Graph, g: Graph, stack: seq<Ptr>, k: int, indent: int)
  {
    && Linked(g0) && 0 <= k <= |g0.rows| && SameButSkips(g0, g)
    && (forall a :: 0 <= a < |stack| ==> 0 <= stack[a] < k && IsCollapsible(g0.rows[stack[a]].entry.kind))
    && (Shaped(Entries(g0)) ==> StackOk(Entries(g0), stack, k, indent) && DoneOk(g, Entries(g0), stack, k))
  }

  lemma ScanFacts(g0: Graph, g: Graph, stack: seq<Ptr>, k: int, indent: int)
    requires Scanned(g0, g, stack, k, indent)
    ensures |g.rows| == |g0.rows| && Linked(g)
    ensures forall a :: 0 <= a < |stack| ==> IsRow(g, stack[a])
    ensures k < |g.rows| ==> g.rows[k].entry == g0.rows[k].entry
  {
    SkippedLinked(g0, g);
    if k < |g.rows| {
      SameEntry(g0, g, k);
    }
  }

  /** One iteration of the main loop of `add_skips`, from row `k`. */
  lemma {:induction false} ScanStep(g0: Graph, g: Graph, h: Graph, stack: seq<Ptr>, rest: seq<Ptr>, k: int, indent: int,
                                    stack': seq<Ptr>, indent': int)
    requires Scanned(g0, g, stack, k, indent) && k < |g0.rows|
    requires g0.rows[k].entry.indent < indent ==> Popped(g, h, stack, rest, k, g0.rows[k].entry.indent)
    requires g0.rows[k].entry.indent >= indent ==> rest == stack && h == g
    requires var e := g0.rows[k].entry; var push := IsCollapsible(e.kind);
      && stack' == (if push then rest + [k] else rest)
      && indent' == (if e.indent < indent then e.indent else indent) + (if push then 1 else 0)
    ensures Scanned(g0, h, stack', k + 1, indent')
    ensures |h.rows| == |g0.rows| && h.rows[k].next == RowOrTail(h, k + 1)
  {
    ScanStepSame(g0, g, h, stack, rest, k, indent);
    if Shaped(Entries(g0)) {
      ScanStepShaped(g0, g, h, stack, rest, k, indent, stack', indent');
    }
  }

  lemma {:induction false} ScanStepSame(g0: Graph, g: Graph, h: Graph, stack: seq<Ptr>, rest: seq<Ptr>, k: int, indent: int)
    requires Scanned(g0, g, stack, k, indent) && k < |g0.rows|
    requires g0.rows[k].entry.indent < indent ==> Popped(g, h, stack, rest, k, g0.rows[k].entry.indent)
    requires g0.rows[k].entry.indent >= indent ==> rest == stack && h == g
    ensures SameButSkips(g0, h) && Linked(h) && |h.rows| == |g0.rows| && h.rows[k].entry == g0.rows[k].entry
    ensures var stack' := if IsCollapsible(g0.rows[k].entry.kind) then rest + [k] else rest;
      forall a :: 0 <= a < |stack'| ==> 0 <= stack'[a] < k + 1 && IsCollapsible(g0.rows[stack'[a]].entry.kind)
  {
    var e := g0.rows[k].entry;
    if e.indent < indent {
      PopKeepsSame(g0, g, h, stack, rest, k, e.indent);
    }
    var stack' := if IsCollapsible(e.kind) then rest + [k] else rest;
    forall a | 0 <= a < |stack'| ensures 0 <= stack'[a] < k + 1 && IsCollapsible(g0.rows[stack'[a]].entry.kind) {
      if a < |rest| {
        assert stack'[a] == rest[a] == stack[a];
      }
    }
    SkippedLinked(g0, h);
    SameEntry(g0, h, k);
  }

  lemma {:induction false} ScanStepShaped(g0: Graph, g: Graph, h: Graph, stack: seq<Ptr>, rest: seq<Ptr>, k: int, indent: int,
                                          stack': seq<Ptr>, indent': int)
    requires Scanned(g0, g, stack, k, indent) && k < |g0.rows| && Shaped(Entries(g0))
    requires g0.rows[k].entry.indent < indent ==> Popped(g, h, stack, rest, k, g0.rows[k].entry.indent)
    requires g0.rows[k].entry.indent >= indent ==> rest == stack && h == g
    requires var e := g0.rows[k].entry; var push := IsCollapsible(e.kind);
      && stack' == (if push then rest + [k] else rest)
      && indent' == (if e.indent < indent then e.indent else indent) + (if push then 1 else 0)
    ensures |h.rows| == |g0.rows|
    ensures StackOk(Entries(g0), stack', k + 1, indent') && DoneOk(h, Entries(g0), stack', k + 1)
  {
    var es := Entries(g0);
    assert es[k] == g0.rows[k].entry;
    ShapedStep(es, k);
    StepOk(es, g0, g, h, stack, rest, k, indent, stack', indent');
  }

  /** The end of `add_skips`: the containers left on the stack skip to the
      tail, which on a shaped run makes every skip right. */
  lemma ScanFinish(g0: Graph, g: Graph, h: Graph, stack: seq<Ptr>, indent: int)
    requires Consistent(g0) && Scanned(g0, g, stack, |g0.rows|, indent)
    requires h.head == g.head && h.tail == g.tail && |h.rows| == |g.rows|
    requires forall j :: 0 <= j < |h.rows| ==> h.rows[j] == if j in stack then g.rows[j].(forwardSkip := DummyTail) else g.rows[j]
    ensures SameButSkips(g0, h)
    ensures Shaped(Entries(g0)) ==> Skipped(h)
    ensures Shaped(Entries(g0)) && NoneCollapsed(g0) ==> Consistent(h)
  {
    TailKeepsSame(g0, g, h, stack);
    var es := Entries(g0);
    if Shaped(es) {
      FinishOk(es, g, h, stack);
      assert Entries(h) == es by {
        forall i | 0 <= i < |es| ensures Entries(h)[i] == es[i] {
          SameEntry(g0, h, i);
        }
      }
      if NoneCollapsed(g0) {
        SkippedConsistent(g0, h);
      }
    }
  }

  /** The running indent of `add_skips` on reaching row `k` of a shaped
      run: one past the previous row's indent after a container, that
      indent after a primitive. */
  function Running(es: seq<Entry>, k: int): int
    requires 0 <= k <= |es|
  {
    if k == 0 then 0 else es[k - 1].indent + (if IsCollapsible(es[k - 1].kind) then 1 else 0)
  }

  /** On a shaped run no row is deeper than the running indent. */
  lemma ShapedStep(es: seq<Entry>, k: int)
    requires Shaped(es) && 0 <= k < |es|
    ensures es[k].indent <= Running(es, k)
  {
    if k > 0 {
      assert StepsDown(es, k);
    }
  }

  /** The stack of `add_skips` before row `k`: container rows at increasing
      positions and indents, all shallower than the running indent, and
      every row since a stacked container deeper than it. */
  ghost predicate StackOk(es: seq<Entry>, stack: seq<Ptr>, k: int, indent: int)
  {
    && 0 <= k <= |es|
    && (forall a :: 0 <= a < |stack| ==> 0 <= stack[a] < k)
    && indent == Running(es, k)
    && (forall a, b :: 0 <= a < b < |stack| ==> stack[a] < stack[b] && es[stack[a]].indent < es[stack[b]].indent)
    && (forall a :: 0 <= a < |stack| ==> es[stack[a]].indent < indent)
    && (forall a, j :: 0 <= a < |stack| && stack[a] < j < k ==> es[j].indent > es[stack[a]].indent)
  }

  /** Every container before row `k` that is off the stack already skips
      just past its subtree. */
  ghost predicate DoneOk(g: Graph, es: seq<Entry>, stack: seq<Ptr>, k: int)
    requires |g.rows| == |es| && 0 <= k <= |es|
  {
    forall i :: 0 <= i < k && IsCollapsible(es[i].kind) && i !in stack ==>
      g.rows[i].forwardSkip == RowOrTail(g, Land(Indents(es), i))
  }

  /** One iteration of `add_skips` on a shaped run keeps the stack and the
      finished skips right: the popped containers end at row `k`. */
  lemma {:induction false} StepOk(es: seq<Entry>, g0: Graph, g: Graph, h: Graph, stack: seq<Ptr>, rest: seq<Ptr>, k: int, indent: int,
                                  stack': seq<Ptr>, indent': int)
    requires es == Entries(g0) && Shaped(es) && 0 <= k < |es| && SameButSkips(g0, g)
    requires StackOk(es, stack, k, indent) && DoneOk(g, es, stack, k)
    requires es[k].indent < indent ==> Popped(g, h, stack, rest, k, es[k].indent)
    requires es[k].indent >= indent ==> rest == stack && h == g
    requires var push := IsCollapsible(es[k].kind);
      stack' == (if push then rest + [k] else rest) && indent' == es[k].indent + (if push then 1 else 0)
    ensures |h.rows| == |es|
    ensures StackOk(es, stack', k + 1, indent') && DoneOk(h, es, stack', k + 1)
  {
    ShapedStep(es, k);
    if es[k].indent < indent {
      forall a | |rest| <= a < |stack| ensures es[stack[a]].indent >= es[k].indent {
        SameEntry(g0, g, stack[a]);
      }
      if rest != [] {
        SameEntry(g0, g, rest[|rest| - 1]);
      }
    }
    StepStack(es, stack, rest, k, indent, stack', indent');
    StepDone(es, g, h, stack, rest, k, indent, stack');
  }

  lemma {:induction false} StepStack(es: seq<Entry>, stack: seq<Ptr>, rest: seq<Ptr>, k: int, indent: int,
                                     stack': seq<Ptr>, indent': int)
    requires 0 <= k < |es| && StackOk(es, stack, k, indent) && es[k].indent <= indent
    requires es[k].indent < indent ==>
      |rest| <= |stack| && rest == stack[..|rest|] && (rest == [] || es[rest[|rest| - 1]].indent < es[k].indent)
    requires es[k].indent >= indent ==> rest == stack
    requires var push := IsCollapsible(es[k].kind);
      stack' == (if push then rest + [k] else rest) && indent' == es[k].indent + (if push then 1 else 0)
    ensures StackOk(es, stack', k + 1, indent')
  {
    RestBelow(es, stack, rest, k, indent);
    if IsCollapsible(es[k].kind) {
      PushedOk(es, stack, rest, k);
    } else {
      KeptOk(es, stack, rest, k);
    }
  }

  /** After a container row `k`, it goes on top of what is left of the stack. */
  lemma {:induction false} PushedOk(es: seq<Entry>, stack: seq<Ptr>, rest: seq<Ptr>, k: int)
    requires 0 <= k < |es| && IsCollapsible(es[k].kind)
    requires forall a :: 0 <= a < |stack| ==> 0 <= stack[a] < k
    requires forall a, j :: 0 <= a < |stack| && stack[a] < j < k ==> es[j].indent > es[stack[a]].indent
    requires forall a, b :: 0 <= a < b < |stack| ==> stack[a] < stack[b] && es[stack[a]].indent < es[stack[b]].indent
    requires |rest| <= |stack|
    requires forall a :: 0 <= a < |rest| ==> rest[a] == stack[a] && rest[a] < k && es[rest[a]].indent < es[k].indent
    ensures StackOk(es, rest + [k], k + 1, es[k].indent + 1)
  {
    var s := rest + [k];
    forall a | 0 <= a < |s| ensures 0 <= s[a] <= k && es[s[a]].indent <= es[k].indent {
      if a < |rest| {
        assert s[a] == rest[a] == stack[a];
      }
    }
    forall a, b | 0 <= a < b < |s| ensures s[a] < s[b] && es[s[a]].indent < es[s[b]].indent {
      if b < |rest| {
        assert s[a] == stack[a] && s[b] == stack[b];
      }
    }
    forall a, j | 0 <= a < |s| && s[a] < j < k + 1 ensures es[j].indent > es[s[a]].indent {
      assert s[a] == stack[a];
    }
  }

  /** After a primitive row `k`, the stack is what is left of it. */
  lemma {:induction false} KeptOk(es: seq<Entry>, stack: seq<Ptr>, rest: seq<Ptr>, k: int)
    requires 0 <= k < |es| && !IsCollapsible(es[k].kind)
    requires forall a :: 0 <= a < |stack| ==> 0 <= stack[a] < k
    requires forall a, j :: 0 <= a < |stack| && stack[a] < j < k ==> es[j].indent > es[stack[a]].indent
    requires forall a, b :: 0 <= a < b < |stack| ==> stack[a] < stack[b] && es[stack[a]].indent < es[stack[b]].indent
    requires |rest| <= |stack|
    requires forall a :: 0 <= a < |rest| ==> rest[a] == stack[a] && rest[a] < k && es[rest[a]].indent < es[k].indent
    ensures StackOk(es, rest, k + 1, es[k].indent)
  {
    forall a, b | 0 <= a < b < |rest| ensures rest[a] < rest[b] && es[rest[a]].indent < es[rest[b]].indent {
      assert rest[a] == stack[a] && rest[b] == stack[b];
    }
    forall a, j | 0 <= a < |rest| && rest[a] < j < k + 1 ensures es[j].indent > es[rest[a]].indent {
      assert rest[a] == stack[a];
    }
  }

  /** The containers left on the stack are shallower than row `k`. */
  lemma {:induction false} RestBelow(es: seq<Entry>, stack: seq<Ptr>, rest: seq<Ptr>, k: int, indent: int)
    requires 0 <= k < |es| && StackOk(es, stack, k, indent) && es[k].indent <= indent
    requires es[k].indent < indent ==>
      |rest| <= |stack| && rest == stack[..|rest|] && (rest == [] || es[rest[|rest| - 1]].indent < es[k].indent)
    requires es[k].indent >= indent ==> rest == stack
    ensures |rest| <= |stack| && rest == stack[..|rest|]
    ensures forall a :: 0 <= a < |rest| ==> rest[a] == stack[a] && rest[a] < k && es[rest[a]].indent < es[k].indent
  {
    forall a | 0 <= a < |rest| ensures rest[a] == stack[a] && es[rest[a]].indent < es[k].indent {
      if es[k].indent < indent && a < |rest| - 1 {
        assert es[stack[a]].indent < es[stack[|rest| - 1]].indent;
      }
    }
  }

  lemma {:induction false} StepDone(es: seq<Entry>, g: Graph, h: Graph, stack: seq<Ptr>, rest: seq<Ptr>, k: int, indent: int,
                                    stack': seq<Ptr>)
    requires 0 <= k < |es| && |g.rows| == |es| && StackOk(es, stack, k, indent) && DoneOk(g, es, stack, k)
    requires es[k].indent < indent ==>
      && |rest| <= |stack| && rest == stack[..|rest|] && |h.rows| == |g.rows|
      && (forall a :: |rest| <= a < |stack| ==> es[stack[a]].indent >= es[k].indent)
      && (forall i :: 0 <= i < |g.rows| ==>
            h.rows[i].forwardSkip == if i in stack[|rest|..] then k else g.rows[i].forwardSkip)
    requires es[k].indent >= indent ==> rest == stack && h == g
    requires stack' == if IsCollapsible(es[k].kind) then rest + [k] else rest
    ensures |h.rows| == |es|
    ensures DoneOk(h, es, stack', k + 1)
  {
    forall i | 0 <= i < k + 1 && IsCollapsible(es[i].kind) && i !in stack'
      ensures h.rows[i].forwardSkip == RowOrTail(h, Land(Indents(es), i))
    {
      DoneRow(es, g, h, stack, rest, k, indent, stack', i);
    }
  }

  /** A container row off the new stack skips just past its subtree: it was
      popped at row `k`, or it was already done. */
  lemma {:induction false} DoneRow(es: seq<Entry>, g: Graph, h: Graph, stack: seq<Ptr>, rest: seq<Ptr>, k: int, indent: int,
                                   stack': seq<Ptr>, i: int)
    requires 0 <= k < |es| && |g.rows| == |es| && StackOk(es, stack, k, indent) && DoneOk(g, es, stack, k)
    requires es[k].indent < indent ==>
      && |rest| <= |stack| && rest == stack[..|rest|] && |h.rows| == |g.rows|
      && (forall a :: |rest| <= a < |stack| ==> es[stack[a]].indent >= es[k].indent)
      && (forall i :: 0 <= i < |g.rows| ==>
            h.rows[i].forwardSkip == if i in stack[|rest|..] then k else g.rows[i].forwardSkip)
    requires es[k].indent >= indent ==> rest == stack && h == g
    requires stack' == if IsCollapsible(es[k].kind) then rest + [k] else rest
    requires 0 <= i < k + 1 && IsCollapsible(es[i].kind) && i !in stack'
    ensures |h.rows| == |es| && h.rows[i].forwardSkip == RowOrTail(h, Land(Indents(es), i))
  {
    assert i != k;
    assert i !in rest by {
      assert stack' == rest || stack' == rest + [k];
    }
    if es[k].indent < indent && i in stack[|rest|..] {
      var a := PoppedIndex(stack, rest, i);
      PoppedLands(es, stack, rest, k, indent, a);
      assert h.rows[i].forwardSkip == k == RowOrTail(h, k);
    } else {
      var l := Land(Indents(es), i);
      if es[k].indent < indent {
        NotInSplit(stack, rest, i);
        assert h.rows[i].forwardSkip == g.rows[i].forwardSkip;
      }
      assert g.rows[i].forwardSkip == RowOrTail(g, l) == RowOrTail(h, l);
    }
  }

  /** Where a row in the popped part of the stack sits on the stack. */
  lemma PoppedIndex(stack: seq<Ptr>, rest: seq<Ptr>, i: Ptr) returns (a: int)
    requires |rest| <= |stack| && i in stack[|rest|..]
    ensures |rest| <= a < |stack| && stack[a] == i
  {
    var j :| 0 <= j < |stack[|rest|..]| && stack[|rest|..][j] == i;
    a := |rest| + j;
  }

  lemma NotInSplit(stack: seq<Ptr>, rest: seq<Ptr>, i: Ptr)
    requires |rest| <= |stack| && rest == stack[..|rest|] && i !in rest && i !in stack[|rest|..]
    ensures i !in stack
  {
    assert stack == rest + stack[|rest|..];
  }

  /** A container popped at row `k` lands on row `k`. */
  lemma PoppedLands(es: seq<Entry>, stack: seq<Ptr>, rest: seq<Ptr>, k: int, indent: int, a: int)
    requires 0 <= k < |es| && StackOk(es, stack, k, indent)
    requires 0 <= a < |stack| && es[stack[a]].indent >= es[k].indent
    ensures Land(Indents(es), stack[a]) == k
  {
    var ind := Indents(es);
    var i := stack[a];
    forall m | i < m < k ensures ind[m] > ind[i] {
      assert es[m].indent > es[stack[a]].indent;
    }
    LandUnique(ind, i, k);
  }

  /** After the final loop of `add_skips` on a shaped run, every container
      skips just past its subtree. */
  lemma {:induction false} FinishOk(es: seq<Entry>, g: Graph, h: Graph, stack: seq<Ptr>)
    requires |g.rows| == |es| && |h.rows| == |es|
    requires StackOk(es, stack, |es|, Running(es, |es|)) && DoneOk(g, es, stack, |es|)
    requires forall j :: 0 <= j < |h.rows| ==> h.rows[j].forwardSkip == if j in stack then DummyTail else g.rows[j].forwardSkip
    ensures forall i :: 0 <= i < |es| && IsCollapsible(es[i].kind) ==> h.rows[i].forwardSkip == RowOrTail(h, Land(Indents(es), i))
  {
    var ind := Indents(es);
    forall i | 0 <= i < |es| && IsCollapsible(es[i].kind) && i in stack
      ensures Land(ind, i) == |es|
    {
      var a :| 0 <= a < |stack| && stack[a] == i;
      LandUnique(ind, i, |es|);
    }
  }

  /** With nothing collapsed, correct skips make a consistent graph: no
      backward skips exist, and two rows of the same indent cannot end at
      the same row. */
  lemma SkippedConsistent(g: Graph, h: Graph)
    requires Consistent(g) && NoneCollapsed(g) && SameButSkips(g, h)
    requires forall i :: 0 <= i < |h.rows| && IsCollapsible(h.rows[i].entry.kind) ==> h.rows[i].forwardSkip == RowOrTail(h, LandOf(h, i))
    ensures Consistent(h)
  {
    SkippedLinked(g, h);
    SkippedWellFormed(g, h);
    SkippedNoBackward(g, h);
  }

  lemma SkippedLinked(g: Graph, h: Graph)
    requires Linked(g) && SameButSkips(g, h)
    ensures Linked(h)
  {
    forall i | 0 <= i < |g.rows| ensures h.rows[i].next == g.rows[i].next && h.rows[i].prev == g.rows[i].prev {
      assert h.rows[i] == g.rows[i].(forwardSkip := h.rows[i].forwardSkip);
    }
  }

  lemma SkippedWellFormed(g: Graph, h: Graph)
    requires SkipsWellFormed(g) && SameButSkips(g, h)
    requires forall i :: 0 <= i < |h.rows| && IsCollapsible(h.rows[i].entry.kind) ==> h.rows[i].forwardSkip == RowOrTail(h, LandOf(h, i))
    ensures SkipsWellFormed(h)
  {
    var n := |h.rows|;
    var ind := Indents(Entries(h));
    forall i | 0 <= i < n ensures h.rows[i].entry == g.rows[i].entry {
      assert h.rows[i] == g.rows[i].(forwardSkip := h.rows[i].forwardSkip);
    }
    forall i | 0 <= i < n ensures var s := h.rows[i].forwardSkip; s == Nil || s == DummyTail || i < s < n {
      if IsCollapsible(h.rows[i].entry.kind) {
        assert LandOf(h, i) > i;
      } else {
        assert h.rows[i] == g.rows[i];
      }
    }
    forall i, j | 0 <= i < j < n && h.rows[i].forwardSkip == h.rows[j].forwardSkip != Nil
      ensures h.rows[i].entry.indent != h.rows[j].entry.indent
    {
      if IsCollapsible(h.rows[i].entry.kind) && IsCollapsible(h.rows[j].entry.kind) && h.rows[i].entry.indent == h.rows[j].entry.indent {
        LandDistinct(ind, i, j);
      }
    }
  }

  lemma SkippedNoBackward(g: Graph, h: Graph)
    requires Consistent(g) && NoneCollapsed(g) && SameButSkips(g, h)
    ensures forall t :: IsNode(h, t) ==> BackwardSkipsSound(h, t)
    ensures BackwardSkipsComplete(h)
  {
    forall t | IsNode(h, t) ensures At(h, t).backwardSkips == map[] {
      var m := At(g, t).backwardSkips;
      assert BackwardSkipsSound(g, t);
      assert forall k :: k !in m;
      assert m.Keys == {};
      if IsRow(h, t) {
        assert h.rows[t] == g.rows[t].(forwardSkip := h.rows[t].forwardSkip);
      }
    }
    forall c | 0 <= c < |h.rows| ensures !h.rows[c].collapsed {
      assert h.rows[c] == g.rows[c].(forwardSkip := h.rows[c].forwardSkip);
    }
  }
}
