/** The earlier view model of `json.cpp`: the same doubly linked list of
    rows between two dummies, but one `skip` pointer per node and no
    collapse state. It differs from the later one in three ways: `tail()`
    is the last real row rather than the dummy tail; `add_skips` walks on
    through the dummy tail, whose entry the source never initialises; and
    containers still open at the end get a null skip instead of the tail. */
module EarlyViewModel {

  import opened JsonDoc
  import opened Landing
  import opened Flattener
  import VM = ViewModel

  /** `view_model_node` of `json.cpp`. */
  datatype Node = Node(entry: Entry, next: VM.Ptr, prev: VM.Ptr, skip: VM.Ptr)

  datatype Graph = Graph(head: Node, rows: seq<Node>, tail: Node)

  predicate IsRow(g: Graph, p: VM.Ptr)
  {
    0 <= p < |g.rows|
  }

  /** The node at list position `j`, where position `n` is the dummy tail. */
  function RowOrTail(g: Graph, j: int): VM.Ptr
  {
    if 0 <= j < |g.rows| then j else VM.DummyTail
  }

  function Entries(g: Graph): (es: seq<Entry>)
    ensures |es| == |g.rows| && forall i :: 0 <= i < |g.rows| ==> es[i] == g.rows[i].entry
  {
    seq(|g.rows|, i requires 0 <= i < |g.rows| => g.rows[i].entry)
  }

  /** The list links: head, rows in order, tail. */
  ghost predicate Linked(g: Graph)
  {
    var n := |g.rows|;
    && g.head.prev == VM.Nil && g.head.next == RowOrTail(g, 0)
    && g.tail.next == VM.Nil && g.tail.prev == VM.RowOrHead(n - 1)
    && (forall i :: 0 <= i < n ==> g.rows[i].next == RowOrTail(g, i + 1) && g.rows[i].prev == VM.RowOrHead(i - 1))
  }

  /** The graph after `append`: a new row with a null skip linked in between
      the old last node and the tail. */
  function AppendRow(g: Graph, e: Entry): (h: Graph)
    requires Linked(g)
    ensures Linked(h)
  {
    var id := |g.rows|;
    var added := Node(e, VM.DummyTail, g.tail.prev, VM.Nil);
    var rows := if id == 0 then g.rows else g.rows[id - 1 := g.rows[id - 1].(next := id)];
    Graph(if id == 0 then g.head.(next := id) else g.head, rows + [added], g.tail.(prev := id))
  }

  /** The graph after appending `es` one by one. */
  function AppendRows(g: Graph, es: seq<Entry>): (h: Graph)
    requires Linked(g)
    ensures Linked(h)
    decreases |es|
  {
    if es == [] then g else AppendRow(AppendRows(g, es[..|es| - 1]), es[|es| - 1])
  }

  lemma {:induction false} AppendRowsConcat(g: Graph, a: seq<Entry>, b: seq<Entry>)
    requires Linked(g)
    ensures AppendRows(AppendRows(g, a), b) == AppendRows(g, a + b)
    decreases |b|
  {
    if b == [] {
      assert a + b == a;
    } else {
      assert (a + b)[..|a + b| - 1] == a + b[..|b| - 1];
      AppendRowsConcat(g, a, b[..|b| - 1]);
    }
  }

  /** Appending adds exactly the given entries, each with a null skip, and
      leaves the dummies' entries and skips alone. */
  lemma {:induction false} AppendRowsAdds(g: Graph, es: seq<Entry>)
    requires Linked(g)
    ensures var h := AppendRows(g, es);
      && Entries(h) == Entries(g) + es
      && h.head.entry == g.head.entry && h.tail.entry == g.tail.entry && h.tail.skip == g.tail.skip
      && forall i :: |g.rows| <= i < |h.rows| ==> h.rows[i].skip == VM.Nil
    decreases |es|
  {
    if es != [] {
      var h := AppendRows(g, es[..|es| - 1]);
      AppendRowsAdds(g, es[..|es| - 1]);
      AppendRowAdds(h, es[|es| - 1]);
      assert es == es[..|es| - 1] + [es[|es| - 1]];
    }
  }

  lemma AppendRowAdds(g: Graph, e: Entry)
    requires Linked(g)
    ensures var h := AppendRow(g, e);
      && Entries(h) == Entries(g) + [e]
      && h.head.entry == g.head.entry && h.tail.entry == g.tail.entry && h.tail.skip == g.tail.skip
      && (forall i :: 0 <= i < |g.rows| ==> h.rows[i].skip == g.rows[i].skip)
      && h.rows[|g.rows|].skip == VM.Nil
  {
    var h := AppendRow(g, e);
    assert forall i :: 0 <= i < |g.rows| ==> h.rows[i].entry == g.rows[i].entry && h.rows[i].skip == g.rows[i].skip;
  }

  /** The position of a skip target: a row, the dummy tail one past the last
      row, null beyond that. */
  function PtrOf(n: int, l: int): VM.Ptr
  {
    if 0 <= l < n then l else if l == n then VM.DummyTail else VM.Nil
  }

  /** The indents `add_skips` walks through: every row's, then the dummy
      tail's. */
  function Walked(g: Graph): seq<int>
  {
    Indents(Entries(g)) + [g.tail.entry.indent]
  }

  /** What `add_skips` of `json.cpp` establishes: each container row skips
      to the first later node, the dummy tail included, that is no deeper,
      or to null when there is none. */
  ghost predicate EarlySkipped(g: Graph)
  {
    forall i :: 0 <= i < |g.rows| && IsCollapsible(g.rows[i].entry.kind) ==>
      g.rows[i].skip == PtrOf(|g.rows|, Land(Walked(g), i))
  }

  /** `view_model` of `json.cpp`: the list and its two dummies, which are
      members rather than heap nodes. */
  class Model {
    var head: Node
    var rows: seq<Node>
    var tail: Node

    function State(): Graph
      reads this
    {
      Graph(head, rows, tail)
    }

    ghost predicate Valid()
      reads this
    {
      Linked(State())
    }

    /** The empty model: the dummies linked to each other with null outer
        links. The source leaves their entries uninitialised, so the
        entries are parameters here; their skips are null. */
    constructor (headEntry: Entry, tailEntry: Entry)
      ensures State() == Graph(Node(headEntry, VM.DummyTail, VM.Nil, VM.Nil), [], Node(tailEntry, VM.Nil, VM.DummyHead, VM.Nil))
      ensures Valid()
    {
      head := Node(headEntry, VM.DummyTail, VM.Nil, VM.Nil);
      rows := [];
      tail := Node(tailEntry, VM.Nil, VM.DummyHead, VM.Nil);
    }

    /** `head()`: the first row, or the dummy tail when there is none. */
    function Head(): (p: VM.Ptr)
      reads this
      requires Valid()
      ensures p == RowOrTail(State(), 0)
      ensures p == VM.DummyTail <==> rows == []
    {
      head.next
    }

    /** `tail()`: unlike the later model, the last real row, or the dummy
        head when there is none. */
    function Tail(): (p: VM.Ptr)
      reads this
      requires Valid()
      ensures rows != [] ==> p == |rows| - 1 && rows[p].next == VM.DummyTail
      ensures rows == [] <==> p == VM.DummyHead
    {
      tail.prev
    }

    /** `append()`: link a new row with a null skip in before the tail. */
    method Append(e: Entry)
      modifies this
      requires Valid()
      ensures State() == AppendRow(old(State()), e) && Valid()
    {
      var id := |rows|;
      var node := Node(e, VM.DummyTail, tail.prev, VM.Nil);
      if tail.prev == VM.DummyHead {
        head := head.(next := id);
      } else {
        rows := rows[tail.prev := rows[tail.prev].(next := id)];
      }
      rows := rows + [node];
      tail := tail.(prev := id);
    }

    /** `doc_to_view_model(model, v, key, level)` of `json.cpp`: the same
        rows as the later flattener; `ok` is false when it threw. */
    method DocToViewModel(v: Json, key: Option<string>, level: int) returns (ok: bool)
      modifies this
      requires Valid()
      ensures Valid()
      ensures State() == AppendRows(old(State()), Flatten(v, key, level).rows)
      ensures ok == Flatten(v, key, level).ok
      decreases v
    {
      ghost var g0 := State();
      match v
      case Object(fields) =>
        Append(RowOf(v, key, level));
        ok := FieldsToViewModel(fields, level + 1);
        AppendRowsConcat(g0, [RowOf(v, key, level)], FlattenFields(fields, level + 1).rows);
      case Array(items) =>
        Append(RowOf(v, key, level));
        ok := ItemsToViewModel(items, level + 1);
        AppendRowsConcat(g0, [RowOf(v, key, level)], FlattenItems(items, level + 1).rows);
      case Unknown =>
        ok := false;
      case _ =>
        Append(RowOf(v, key, level));
        ok := true;
    }

    method FieldsToViewModel(fields: seq<(string, Json)>, level: int) returns (ok: bool)
      modifies this
      requires Valid()
      ensures Valid()
      ensures State() == AppendRows(old(State()), FlattenFields(fields, level).rows)
      ensures ok == FlattenFields(fields, level).ok
      decreases fields
    {
      ghost var g0 := State();
      var i := 0;
      while i < |fields|
        invariant 0 <= i <= |fields| && Valid()
        invariant FlattenFields(fields[..i], level).ok
        invariant State() == AppendRows(g0, FlattenFields(fields[..i], level).rows)
      {
        var f := fields[i];
        assert f in fields && f.1 < f;
        ghost var done := FlattenFields(fields[..i], level).rows;
        ok := DocToViewModel(f.1, Some(f.0), level);
        AppendRowsConcat(g0, done, Flatten(f.1, Some(f.0), level).rows);
        FieldsSnoc(fields, i, level);
        if !ok {
          FieldsStop(fields, i + 1, level);
          return;
        }
        i := i + 1;
      }
      assert fields[..i] == fields;
      ok := true;
    }

    method ItemsToViewModel(items: seq<Json>, level: int) returns (ok: bool)
      modifies this
      requires Valid()
      ensures Valid()
      ensures State() == AppendRows(old(State()), FlattenItems(items, level).rows)
      ensures ok == FlattenItems(items, level).ok
      decreases items
    {
      ghost var g0 := State();
      var i := 0;
      while i < |items|
        invariant 0 <= i <= |items| && Valid()
        invariant FlattenItems(items[..i], level).ok
        invariant State() == AppendRows(g0, FlattenItems(items[..i], level).rows)
      {
        var x := items[i];
        assert x in items;
        ghost var done := FlattenItems(items[..i], level).rows;
        ok := DocToViewModel(x, None, level);
        AppendRowsConcat(g0, done, Flatten(x, None, level).rows);
        ItemsSnoc(items, i, level);
        if !ok {
          ItemsStop(items, i + 1, level);
          return;
        }
        i := i + 1;
      }
      assert items[..i] == items;
      ok := true;
    }

    /** `add_skips` of `json.cpp`: the pass of the later `add_skips`, but it
        runs on to the null pointer after the dummy tail, so the dummy tail
        takes part with its stale entry; the containers left on the stack
        at the end get a null skip. Only skips of containers, the dummy tail
        included, change; on the rows of a document every container row then
        skips to the first later node that is no deeper, or to null. */
    method AddSkips()
      modifies this
      requires Valid()
      ensures SameButSkips(old(State()), State())
      ensures tail.skip == if IsCollapsible(old(tail).entry.kind) then VM.Nil else old(tail).skip
      ensures Shaped(Entries(old(State()))) ==> EarlySkipped(State())
      ensures Valid()
    {
      ghost var g0 := State();
      var stack := ScanNodes();
      ghost var mid := State();
      ClearSkips(stack);
      EFinish(g0, mid, State(), stack);
      SameLinked(g0, State());
    }

    /** The main loop of `add_skips`: walk every node up to the null pointer
        after the dummy tail with a stack of open containers, popping (and
        making skip to the current node) those at least as deep as it, and
        pushing each container node. */
    method ScanNodes() returns (stack: seq<VM.Ptr>)
      modifies this
      requires Valid()
      ensures EAtEnd(old(State()), State(), stack)
    {
      ghost var g0 := State();
      ghost var n := |rows|;
      stack := [];
      var cur := head.next;
      var indent := 0;
      ghost var k := 0;
      while cur != VM.Nil
        invariant 0 <= k <= n + 1
        invariant k <= n ==> EScanned(g0, State(), stack, k, indent) && cur == RowOrTail(State(), k)
        invariant k == n + 1 ==> EAtEnd(g0, State(), stack) && cur == VM.Nil
        decreases n + 1 - k
      {
        stack, indent := ScanNode(cur, stack, indent, g0, k);
        cur := if cur == VM.DummyTail then tail.next else rows[cur].next;
        k := k + 1;
      }
      assert k == n + 1 && g0 == old(State());
    }

    /** One pass of the main loop of `add_skips`, at the node `cur`, the
        row at position `k` or the dummy tail. */
    method ScanNode(cur: VM.Ptr, stack: seq<VM.Ptr>, indent: int, ghost g0: Graph, ghost k: int)
      returns (stack': seq<VM.Ptr>, indent': int)
      modifies this
      requires k <= |g0.rows| && EScanned(g0, State(), stack, k, indent) && cur == RowOrTail(State(), k)
      ensures k < |g0.rows| ==>
        EScanned(g0, State(), stack', k + 1, indent') && k < |rows| && rows[k].next == RowOrTail(State(), k + 1)
      ensures k == |g0.rows| ==> EAtEnd(g0, State(), stack') && tail.next == VM.Nil
    {
      ghost var before := State();
      EScanFacts(g0, before, stack, k, indent);
      var e := if cur == VM.DummyTail then tail.entry else rows[cur].entry;
      stack' := stack;
      indent' := indent;
      if e.indent < indent {
        stack' := PopSkips(stack, cur, e.indent);
        indent' := e.indent;
      }
      ghost var rest := stack';
      if e.kind == ObjectOpen || e.kind == ArrayOpen {
        stack' := stack' + [cur];
        indent' := indent' + 1;
      }
      if k < |g0.rows| {
        ERowStep(g0, before, State(), stack, rest, k, indent, stack', indent');
      } else {
        ETailStep(g0, before, State(), stack, rest, indent, stack');
      }
    }

    /** The inner loop of `add_skips`: pop the containers at least `depth`
        deep off the top of the stack, making each skip to `cur`. */
    method PopSkips(stack: seq<VM.Ptr>, cur: VM.Ptr, depth: int) returns (rest: seq<VM.Ptr>)
      modifies this
      requires forall a :: 0 <= a < |stack| ==> IsRow(State(), stack[a])
      ensures EPopped(old(State()), State(), stack, rest, cur, depth)
    {
      rest := stack;
      while rest != []
        invariant |rest| <= |stack| && rest == stack[..|rest|]
        invariant head == old(head) && tail == old(tail) && |rows| == |old(rows)|
        invariant forall a :: |rest| <= a < |stack| ==> old(rows)[stack[a]].entry.indent >= depth
        invariant forall i :: 0 <= i < |rows| ==>
          rows[i] == if i in stack[|rest|..] then old(rows)[i].(skip := cur) else old(rows)[i]
      {
        var top := rest[|rest| - 1];
        if rows[top].entry.indent < depth {
          break;
        }
        rows := rows[top := rows[top].(skip := cur)];
        assert stack[|rest| - 1..] == [top] + stack[|rest|..];
        rest := rest[..|rest| - 1];
      }
    }

    /** The final loop of `add_skips`: every node still on the stack, the
        dummy tail included, gets a null skip. */
    method ClearSkips(stack: seq<VM.Ptr>)
      modifies this
      requires forall a :: 0 <= a < |stack| ==> IsRow(State(), stack[a]) || stack[a] == VM.DummyTail
      ensures head == old(head) && |rows| == |old(rows)|
      ensures tail == if VM.DummyTail in stack then old(tail).(skip := VM.Nil) else old(tail)
      ensures forall j :: 0 <= j < |rows| ==>
        rows[j] == if j in stack then old(rows)[j].(skip := VM.Nil) else old(rows)[j]
    {
      var i := 0;
      while i < |stack|
        invariant 0 <= i <= |stack|
        invariant head == old(head) && |rows| == |old(rows)|
        invariant tail == if VM.DummyTail in stack[..i] then old(tail).(skip := VM.Nil) else old(tail)
        invariant forall j :: 0 <= j < |rows| ==>
          rows[j] == if j in stack[..i] then old(rows)[j].(skip := VM.Nil) else old(rows)[j]
      {
        if stack[i] == VM.DummyTail {
          tail := tail.(skip := VM.Nil);
        } else {
          rows := rows[stack[i] := rows[stack[i]].(skip := VM.Nil)];
        }
        assert stack[..i + 1] == stack[..i] + [stack[i]];
        i := i + 1;
      }
      assert stack[..i] == stack;
    }
  }

  /** `load()` of `json.cpp`: flatten the document into a fresh model and
      compute the skips. A value of unknown type makes it throw (`None`);
      otherwise the model holds one row per value in document order, and
      every container row skips to the first later node that is no deeper,
      the dummy tail with its stale indent included, or to null. */
  method Load(doc: Json, headEntry: Entry, tailEntry: Entry) returns (r: Option<Model>)
    ensures r.None? <==> !WellFormed(doc)
    ensures r.Some? ==> fresh(r.value) && r.value.Valid()
    ensures r.Some? ==> var g := r.value.State();
      Entries(g) == Flatten(doc, None, 0).rows && g.tail.entry == tailEntry && EarlySkipped(g)
  {
    var m := new Model(headEntry, tailEntry);
    ghost var g0 := m.State();
    var ok := m.DocToViewModel(doc, None, 0);
    FlattenThrows(doc, None, 0);
    if !ok {
      return None;
    }
    ghost var g := m.State();
    LoadedRows(g0, doc);
    m.AddSkips();
    SameWalked(g, m.State());
    return Some(m);
  }

  /** Flattening a well-formed document into the empty model gives rows of
      the document's shape, and leaves the dummy tail's entry alone. */
  lemma LoadedRows(g0: Graph, doc: Json)
    requires Linked(g0) && g0.rows == [] && WellFormed(doc)
    ensures var rows := Flatten(doc, None, 0).rows; var g := AppendRows(g0, rows);
      Entries(g) == rows && Shaped(rows) && g.tail.entry == g0.tail.entry
  {
    var rows := Flatten(doc, None, 0).rows;
    AppendRowsAdds(g0, rows);
    assert Entries(g0) == [];
    FlattenIsPreorder(doc, None, 0);
  }

  /** `h` differs from `g` at most in the skips of container nodes. */
  ghost predicate SameButSkips(g: Graph, h: Graph)
  {
    && h.head == g.head && |h.rows| == |g.rows|
    && h.tail == g.tail.(skip := h.tail.skip)
    && (!IsCollapsible(g.tail.entry.kind) ==> h.tail == g.tail)
    && (forall i :: 0 <= i < |g.rows| ==> h.rows[i] == g.rows[i].(skip := h.rows[i].skip))
    && (forall i :: 0 <= i < |g.rows| && !IsCollapsible(g.rows[i].entry.kind) ==> h.rows[i] == g.rows[i])
  }

  lemma SameEntry(g: Graph, h: Graph, i: int)
    requires SameButSkips(g, h) && IsRow(g, i)
    ensures h.rows[i].entry == g.rows[i].entry == Entries(g)[i]
  {
    assert h.rows[i] == g.rows[i].(skip := h.rows[i].skip);
  }

  lemma SameLinked(g: Graph, h: Graph)
    requires Linked(g) && SameButSkips(g, h)
    ensures Linked(h)
  {
    forall i | 0 <= i < |g.rows| ensures h.rows[i].next == g.rows[i].next && h.rows[i].prev == g.rows[i].prev {
      assert h.rows[i] == g.rows[i].(skip := h.rows[i].skip);
    }
  }

  /** Changing skips changes no entry, so neither the walk nor its indents. */
  lemma SameWalked(g: Graph, h: Graph)
    requires SameButSkips(g, h)
    ensures Entries(h) == Entries(g) && Walked(h) == Walked(g)
  {
    forall i | 0 <= i < |g.rows| ensures Entries(h)[i] == Entries(g)[i] {
      SameEntry(g, h, i);
    }
  }

  /** What the inner loop of `add_skips` did: `rest` is what is left of the
      stack, its top (if any) shallower than `depth`; every popped row was
      at least `depth` deep and now skips to `cur`; nothing else changed. */
  ghost predicate EPopped(g: Graph, h: Graph, stack: seq<VM.Ptr>, rest: seq<VM.Ptr>, cur: VM.Ptr, depth: int)
  {
    && h.head == g.head && h.tail == g.tail && |h.rows| == |g.rows|
    && |rest| <= |stack| && rest == stack[..|rest|]
    && (forall a :: 0 <= a < |stack| ==> IsRow(g, stack[a]))
    && (rest == [] || g.rows[rest[|rest| - 1]].entry.indent < depth)
    && (forall a :: |rest| <= a < |stack| ==> g.rows[stack[a]].entry.indent >= depth)
    && (forall i :: 0 <= i < |g.rows| ==>
          h.rows[i] == if i in stack[|rest|..] then g.rows[i].(skip := cur) else g.rows[i])
  }

  lemma {:induction false} PopKeepsSame(g0: Graph, g: Graph, h: Graph, stack: seq<VM.Ptr>, rest: seq<VM.Ptr>, cur: VM.Ptr, depth: int)
    requires SameButSkips(g0, g) && g.tail == g0.tail && EPopped(g, h, stack, rest, cur, depth)
    requires forall a :: 0 <= a < |stack| ==> IsRow(g0, stack[a]) && IsCollapsible(g0.rows[stack[a]].entry.kind)
    ensures SameButSkips(g0, h) && h.tail == g0.tail
  {
  }

  /** Every container before row `k` that is off the stack already skips to
      its landing row, which lies before `k`. */
  ghost predicate EDoneOk(g: Graph, es: seq<Entry>, stack: seq<VM.Ptr>, k: int)
    requires |g.rows| == |es| && 0 <= k <= |es|
  {
    forall i :: 0 <= i < k && IsCollapsible(es[i].kind) && i !in stack ==>
      Land(Indents(es), i) < k && g.rows[i].skip == Land(Indents(es), i)
  }

  /** The state of `add_skips` before row `k` of the rows of `g0`: only row
      skips of containers have changed, the stack holds earlier container
      rows, and on a shaped run the stack and the finished skips are right. */
  ghost predicate EScanned(g0: Graph, g: Graph, stack: seq<VM.Ptr>, k: int, indent: int)
  {
    && Linked(g0) && 0 <= k <= |g0.rows| && SameButSkips(g0, g) && g.tail == g0.tail
    && (forall a :: 0 <= a < |stack| ==> 0 <= stack[a] < k && IsCollapsible(g0.rows[stack[a]].entry.kind))
    && (Shaped(Entries(g0)) ==> VM.StackOk(Entries(g0), stack, k, indent) && EDoneOk(g, Entries(g0), stack, k))
  }

  /** The state of `add_skips` once the walk has passed the dummy tail: the
      stack holds container rows and, when its entry is a container, the
      dummy tail; on a shaped run the rows on the stack have no landing
      node and every other container row skips to its own. */
  ghost predicate EAtEnd(g0: Graph, g: Graph, stack: seq<VM.Ptr>)
  {
    && Linked(g0) && SameButSkips(g0, g) && g.tail == g0.tail
    && (forall a :: 0 <= a < |stack| ==>
          (IsRow(g0, stack[a]) && IsCollapsible(g0.rows[stack[a]].entry.kind)) || stack[a] == VM.DummyTail)
    && (IsCollapsible(g0.tail.entry.kind) <==> VM.DummyTail in stack)
    && (Shaped(Entries(g0)) ==>
          && (forall a :: 0 <= a < |stack| && stack[a] >= 0 ==> Land(Walked(g0), stack[a]) == |g0.rows| + 1)
          && (forall i :: 0 <= i < |g0.rows| && IsCollapsible(g0.rows[i].entry.kind) && i !in stack ==>
                g.rows[i].skip == PtrOf(|g0.rows|, Land(Walked(g0), i))))
  }

  lemma EScanFacts(g0: Graph, g: Graph, stack: seq<VM.Ptr>, k: int, indent: int)
    requires EScanned(g0, g, stack, k, indent)
    ensures |g.rows| == |g0.rows| && Linked(g) && g.tail == g0.tail
    ensures forall a :: 0 <= a < |stack| ==> IsRow(g, stack[a])
    ensures k < |g.rows| ==> g.rows[k].entry == g0.rows[k].entry
  {
    SameLinked(g0, g);
    if k < |g.rows| {
      SameEntry(g0, g, k);
    }
  }

  /** One iteration of the main loop of `add_skips`, at row `k`. */
  lemma {:induction false} ERowStep(g0: Graph, g: Graph, h: Graph, stack: seq<VM.Ptr>, rest: seq<VM.Ptr>, k: int, indent: int,
                                    stack': seq<VM.Ptr>, indent': int)
    requires EScanned(g0, g, stack, k, indent) && k < |g0.rows|
    requires g0.rows[k].entry.indent < indent ==> EPopped(g, h, stack, rest, k, g0.rows[k].entry.indent)
    requires g0.rows[k].entry.indent >= indent ==> rest == stack && h == g
    requires var e := g0.rows[k].entry; var push := IsCollapsible(e.kind);
      && stack' == (if push then rest + [k] else rest)
      && indent' == (if e.indent < indent then e.indent else indent) + (if push then 1 else 0)
    ensures EScanned(g0, h, stack', k + 1, indent')
    ensures |h.rows| == |g0.rows| && h.rows[k].next == RowOrTail(h, k + 1) && h.tail == g0.tail
  {
    ERowStepSame(g0, g, h, stack, rest, k, indent);
    if Shaped(Entries(g0)) {
      ERowStepShaped(g0, g, h, stack, rest, k, indent, stack', indent');
    }
  }

  lemma {:induction false} ERowStepSame(g0: Graph, g: Graph, h: Graph, stack: seq<VM.Ptr>, rest: seq<VM.Ptr>, k: int, indent: int)
    requires EScanned(g0, g, stack, k, indent) && k < |g0.rows|
    requires g0.rows[k].entry.indent < indent ==> EPopped(g, h, stack, rest, k, g0.rows[k].entry.indent)
    requires g0.rows[k].entry.indent >= indent ==> rest == stack && h == g
    ensures SameButSkips(g0, h) && h.tail == g0.tail && Linked(h) && |h.rows| == |g0.rows|
    ensures var stack' := if IsCollapsible(g0.rows[k].entry.kind) then rest + [k] else rest;
      forall a :: 0 <= a < |stack'| ==> 0 <= stack'[a] < k + 1 && IsCollapsible(g0.rows[stack'[a]].entry.kind)
  {
    var e := g0.rows[k].entry;
    if e.indent < indent {
      PopKeepsSame(g0, g, h, stack, rest, k, e.indent);
    }
    var stack' := if IsCollapsible(e.kind) then rest + [k] else rest;
    forall a | 0 <= a < |stack'| ensures 0 <= stack'[a] < k + 1 && IsCollapsible(g0.rows[stack'[a]].entry.kind) {
      if a < |rest| {
        assert stack'[a] == rest[a] == stack[a];
      }
    }
    SameLinked(g0, h);
  }

  lemma {:induction false} ERowStepShaped(g0: Graph, g: Graph, h: Graph, stack: seq<VM.Ptr>, rest: seq<VM.Ptr>, k: int, indent: int,
                                          stack': seq<VM.Ptr>, indent': int)
    requires EScanned(g0, g, stack, k, indent) && k < |g0.rows| && Shaped(Entries(g0))
    requires g0.rows[k].entry.indent < indent ==> EPopped(g, h, stack, rest, k, g0.rows[k].entry.indent)
    requires g0.rows[k].entry.indent >= indent ==> rest == stack && h == g
    requires var e := g0.rows[k].entry; var push := IsCollapsible(e.kind);
      && stack' == (if push then rest + [k] else rest)
      && indent' == (if e.indent < indent then e.indent else indent) + (if push then 1 else 0)
    ensures |h.rows| == |g0.rows|
    ensures VM.StackOk(Entries(g0), stack', k + 1, indent') && EDoneOk(h, Entries(g0), stack', k + 1)
  {
    var es := Entries(g0);
    VM.ShapedStep(es, k);
    assert es[k] == g0.rows[k].entry;
    EStepOk(es, g0, g, h, stack, rest, k, indent, stack', indent');
  }

  /** One iteration of `add_skips` at a row of a shaped run keeps the stack
      and the finished skips right: the popped containers land on row `k`. */
  lemma {:induction false} EStepOk(es: seq<Entry>, g0: Graph, g: Graph, h: Graph, stack: seq<VM.Ptr>, rest: seq<VM.Ptr>, k: int, indent: int,
                                   stack': seq<VM.Ptr>, indent': int)
    requires es == Entries(g0) && Shaped(es) && 0 <= k < |es| && SameButSkips(g0, g)
    requires VM.StackOk(es, stack, k, indent) && EDoneOk(g, es, stack, k)
    requires es[k].indent < indent ==> EPopped(g, h, stack, rest, k, es[k].indent)
    requires es[k].indent >= indent ==> rest == stack && h == g
    requires var push := IsCollapsible(es[k].kind);
      stack' == (if push then rest + [k] else rest) && indent' == es[k].indent + (if push then 1 else 0)
    ensures |h.rows| == |es|
    ensures VM.StackOk(es, stack', k + 1, indent') && EDoneOk(h, es, stack', k + 1)
  {
    VM.ShapedStep(es, k);
    if es[k].indent < indent {
      forall a | |rest| <= a < |stack| ensures es[stack[a]].indent >= es[k].indent {
        SameEntry(g0, g, stack[a]);
      }
      if rest != [] {
        SameEntry(g0, g, rest[|rest| - 1]);
      }
    }
    VM.StepStack(es, stack, rest, k, indent, stack', indent');
    EStepDone(es, g, h, stack, rest, k, indent, stack');
  }

  lemma {:induction false} EStepDone(es: seq<Entry>, g: Graph, h: Graph, stack: seq<VM.Ptr>, rest: seq<VM.Ptr>, k: int, indent: int,
                                     stack': seq<VM.Ptr>)
    requires 0 <= k < |es| && |g.rows| == |es| && VM.StackOk(es, stack, k, indent) && EDoneOk(g, es, stack, k)
    requires es[k].indent < indent ==>
      && |rest| <= |stack| && rest == stack[..|rest|] && |h.rows| == |g.rows|
      && (forall a :: |rest| <= a < |stack| ==> es[stack[a]].indent >= es[k].indent)
      && (forall i :: 0 <= i < |g.rows| ==> h.rows[i].skip == if i in stack[|rest|..] then k else g.rows[i].skip)
    requires es[k].indent >= indent ==> rest == stack && h == g
    requires stack' == if IsCollapsible(es[k].kind) then rest + [k] else rest
    ensures |h.rows| == |es|
    ensures EDoneOk(h, es, stack', k + 1)
  {
    forall i | 0 <= i < k + 1 && IsCollapsible(es[i].kind) && i !in stack'
      ensures Land(Indents(es), i) < k + 1 && h.rows[i].skip == Land(Indents(es), i)
    {
      EDoneRow(es, g, h, stack, rest, k, indent, stack', i);
    }
  }

  /** A container row off the new stack has its skip: it was popped at row
      `k`, or it was already done. */
  lemma {:induction false} EDoneRow(es: seq<Entry>, g: Graph, h: Graph, stack: seq<VM.Ptr>, rest: seq<VM.Ptr>, k: int, indent: int,
                                    stack': seq<VM.Ptr>, i: int)
    requires 0 <= k < |es| && |g.rows| == |es| && VM.StackOk(es, stack, k, indent) && EDoneOk(g, es, stack, k)
    requires es[k].indent < indent ==>
      && |rest| <= |stack| && rest == stack[..|rest|] && |h.rows| == |g.rows|
      && (forall a :: |rest| <= a < |stack| ==> es[stack[a]].indent >= es[k].indent)
      && (forall i :: 0 <= i < |g.rows| ==> h.rows[i].skip == if i in stack[|rest|..] then k else g.rows[i].skip)
    requires es[k].indent >= indent ==> rest == stack && h == g
    requires stack' == if IsCollapsible(es[k].kind) then rest + [k] else rest
    requires 0 <= i < k + 1 && IsCollapsible(es[i].kind) && i !in stack'
    ensures |h.rows| == |es| && Land(Indents(es), i) < k + 1 && h.rows[i].skip == Land(Indents(es), i)
  {
    assert i != k;
    assert i !in rest by {
      assert stack' == rest || stack' == rest + [k];
    }
    if es[k].indent < indent && i in stack[|rest|..] {
      var a := VM.PoppedIndex(stack, rest, i);
      VM.PoppedLands(es, stack, rest, k, indent, a);
    } else {
      if es[k].indent < indent {
        VM.NotInSplit(stack, rest, i);
      }
      EDoneAt(es, g, stack, k, i);
    }
  }

  lemma EDoneAt(es: seq<Entry>, g: Graph, stack: seq<VM.Ptr>, k: int, i: int)
    requires 0 <= k <= |es| && |g.rows| == |es| && EDoneOk(g, es, stack, k)
    requires 0 <= i < k && IsCollapsible(es[i].kind) && i !in stack
    ensures Land(Indents(es), i) < k && g.rows[i].skip == Land(Indents(es), i)
  {
  }

  /** The last iteration of the main loop of `add_skips`, at the dummy
      tail, whose stale entry decides what is popped and whether it is
      pushed. */
  lemma {:induction false} ETailStep(g0: Graph, g: Graph, h: Graph, stack: seq<VM.Ptr>, rest: seq<VM.Ptr>, indent: int,
                                     stack': seq<VM.Ptr>)
    requires EScanned(g0, g, stack, |g0.rows|, indent)
    requires g0.tail.entry.indent < indent ==> EPopped(g, h, stack, rest, VM.DummyTail, g0.tail.entry.indent)
    requires g0.tail.entry.indent >= indent ==> rest == stack && h == g
    requires stack' == if IsCollapsible(g0.tail.entry.kind) then rest + [VM.DummyTail] else rest
    ensures EAtEnd(g0, h, stack')
  {
    ETailFrame(g0, g, h, stack, rest, indent, stack');
    if Shaped(Entries(g0)) {
      ETailLands(g0, g, h, stack, rest, indent, stack');
    }
  }

  /** The dummy tail step keeps every entry and puts only the dummy tail
      itself on the stack beside the container rows left there. */
  lemma {:induction false} ETailFrame(g0: Graph, g: Graph, h: Graph, stack: seq<VM.Ptr>, rest: seq<VM.Ptr>, indent: int,
                                      stack': seq<VM.Ptr>)
    requires EScanned(g0, g, stack, |g0.rows|, indent)
    requires g0.tail.entry.indent < indent ==> EPopped(g, h, stack, rest, VM.DummyTail, g0.tail.entry.indent)
    requires g0.tail.entry.indent >= indent ==> rest == stack && h == g
    requires stack' == if IsCollapsible(g0.tail.entry.kind) then rest + [VM.DummyTail] else rest
    ensures Linked(g0) && SameButSkips(g0, h) && h.tail == g0.tail
    ensures forall a :: 0 <= a < |stack'| ==>
              (IsRow(g0, stack'[a]) && IsCollapsible(g0.rows[stack'[a]].entry.kind)) || stack'[a] == VM.DummyTail
    ensures IsCollapsible(g0.tail.entry.kind) <==> VM.DummyTail in stack'
  {
    if g0.tail.entry.indent < indent {
      PopKeepsSame(g0, g, h, stack, rest, VM.DummyTail, g0.tail.entry.indent);
    }
    forall a | 0 <= a < |rest| ensures rest[a] == stack[a] {
    }
    assert VM.DummyTail !in rest;
  }

  /** On a shaped run, the dummy tail step leaves the rows still on the
      stack without a landing node and every other container row skipping
      to its own. */
  lemma {:induction false} ETailLands(g0: Graph, g: Graph, h: Graph, stack: seq<VM.Ptr>, rest: seq<VM.Ptr>, indent: int,
                                      stack': seq<VM.Ptr>)
    requires EScanned(g0, g, stack, |g0.rows|, indent) && Shaped(Entries(g0))
    requires g0.tail.entry.indent < indent ==> EPopped(g, h, stack, rest, VM.DummyTail, g0.tail.entry.indent)
    requires g0.tail.entry.indent >= indent ==> rest == stack && h == g
    requires stack' == if IsCollapsible(g0.tail.entry.kind) then rest + [VM.DummyTail] else rest
    requires forall a :: 0 <= a < |stack'| ==> stack'[a] < |g0.rows|
    ensures forall a :: 0 <= a < |stack'| && stack'[a] >= 0 ==> Land(Walked(g0), stack'[a]) == |g0.rows| + 1
    ensures forall i :: 0 <= i < |g0.rows| && IsCollapsible(g0.rows[i].entry.kind) && i !in stack' ==>
              h.rows[i].skip == PtrOf(|g0.rows|, Land(Walked(g0), i))
  {
    var es := Entries(g0);
    var t := g0.tail.entry;
    ETailPre(g0, g, h, stack, rest, indent);
    ETailShaped(es, t, g, h, stack, rest, indent);
    ETailStack(es, t, h, rest, stack');
    forall i | 0 <= i < |g0.rows| ensures g0.rows[i].entry == es[i] {
    }
  }

  /** The popping at the dummy tail, stated over the entries of the rows. */
  lemma {:induction false} ETailPre(g0: Graph, g: Graph, h: Graph, stack: seq<VM.Ptr>, rest: seq<VM.Ptr>, indent: int)
    requires EScanned(g0, g, stack, |g0.rows|, indent) && Shaped(Entries(g0))
    requires g0.tail.entry.indent < indent ==> EPopped(g, h, stack, rest, VM.DummyTail, g0.tail.entry.indent)
    requires g0.tail.entry.indent >= indent ==> rest == stack && h == g
    ensures var es := Entries(g0); var t := g0.tail.entry;
      && |g.rows| == |es| && VM.StackOk(es, stack, |es|, indent) && EDoneOk(g, es, stack, |es|)
      && (t.indent < indent ==>
        && |rest| <= |stack| && rest == stack[..|rest|] && |h.rows| == |g.rows|
        && (rest == [] || es[rest[|rest| - 1]].indent < t.indent)
        && (forall a :: |rest| <= a < |stack| ==> es[stack[a]].indent >= t.indent)
        && (forall i :: 0 <= i < |g.rows| ==> h.rows[i].skip == if i in stack[|rest|..] then VM.DummyTail else g.rows[i].skip))
      && (t.indent >= indent ==> rest == stack && h == g)
  {
    var es := Entries(g0);
    var t := g0.tail.entry;
    if t.indent < indent {
      forall a | |rest| <= a < |stack| ensures es[stack[a]].indent >= t.indent {
        SameEntry(g0, g, stack[a]);
      }
      if rest != [] {
        SameEntry(g0, g, rest[|rest| - 1]);
      }
      forall i | 0 <= i < |g.rows|
        ensures h.rows[i].skip == if i in stack[|rest|..] then VM.DummyTail else g.rows[i].skip
      {
      }
    }
  }

  /** The facts about `rest` carried over to the stack with the dummy tail
      pushed or not. */
  lemma {:induction false} ETailStack(es: seq<Entry>, t: Entry, h: Graph, rest: seq<VM.Ptr>, stack': seq<VM.Ptr>)
    requires |h.rows| == |es|
    requires stack' == rest || stack' == rest + [VM.DummyTail]
    requires var w := Indents(es) + [t.indent];
      && (forall a :: 0 <= a < |rest| ==> 0 <= rest[a] < |es| && Land(w, rest[a]) == |es| + 1)
      && (forall i :: 0 <= i < |es| && IsCollapsible(es[i].kind) && i !in rest ==> h.rows[i].skip == PtrOf(|es|, Land(w, i)))
    ensures var w := Indents(es) + [t.indent];
      && (forall a :: 0 <= a < |stack'| && stack'[a] >= 0 ==> Land(w, stack'[a]) == |es| + 1)
      && (forall i :: 0 <= i < |es| && IsCollapsible(es[i].kind) && i !in stack' ==> h.rows[i].skip == PtrOf(|es|, Land(w, i)))
  {
    var w := Indents(es) + [t.indent];
    forall a | 0 <= a < |stack'| && stack'[a] >= 0 ensures Land(w, stack'[a]) == |es| + 1 {
      assert a < |rest| && stack'[a] == rest[a];
    }
    forall i | 0 <= i < |es| && IsCollapsible(es[i].kind) && i !in stack' ensures h.rows[i].skip == PtrOf(|es|, Land(w, i)) {
      assert i !in rest by { assert forall a :: 0 <= a < |rest| ==> stack'[a] == rest[a]; }
    }
  }

  /** At the dummy tail of a shaped run: the containers left on the stack
      have no landing node, the popped ones land on the dummy tail, and
      the others keep their landing rows. */
  lemma {:induction false} ETailShaped(es: seq<Entry>, t: Entry, g: Graph, h: Graph, stack: seq<VM.Ptr>, rest: seq<VM.Ptr>, indent: int)
    requires |g.rows| == |es| && VM.StackOk(es, stack, |es|, indent) && EDoneOk(g, es, stack, |es|)
    requires t.indent < indent ==>
      && |rest| <= |stack| && rest == stack[..|rest|] && |h.rows| == |g.rows|
      && (rest == [] || es[rest[|rest| - 1]].indent < t.indent)
      && (forall a :: |rest| <= a < |stack| ==> es[stack[a]].indent >= t.indent)
      && (forall i :: 0 <= i < |g.rows| ==> h.rows[i].skip == if i in stack[|rest|..] then VM.DummyTail else g.rows[i].skip)
    requires t.indent >= indent ==> rest == stack && h == g
    ensures |h.rows| == |es|
    ensures var w := Indents(es) + [t.indent];
      && (forall a :: 0 <= a < |rest| ==> 0 <= rest[a] < |es| && Land(w, rest[a]) == |es| + 1)
      && (forall i :: 0 <= i < |es| && IsCollapsible(es[i].kind) && i !in rest ==> h.rows[i].skip == PtrOf(|es|, Land(w, i)))
  {
    var w := Indents(es) + [t.indent];
    forall a | 0 <= a < |rest| ensures 0 <= rest[a] < |es| && Land(w, rest[a]) == |es| + 1 {
      TailKept(es, t, stack, rest, indent, a);
    }
    forall i | 0 <= i < |es| && IsCollapsible(es[i].kind) && i !in rest ensures h.rows[i].skip == PtrOf(|es|, Land(w, i)) {
      TailOther(es, t, g, h, stack, rest, indent, i);
    }
  }

  /** A container left on the stack at the dummy tail has every later node
      deeper than it, the dummy tail included. */
  lemma {:induction false} TailKept(es: seq<Entry>, t: Entry, stack: seq<VM.Ptr>, rest: seq<VM.Ptr>, indent: int, a: int)
    requires VM.StackOk(es, stack, |es|, indent)
    requires t.indent < indent ==>
      |rest| <= |stack| && rest == stack[..|rest|] && (rest == [] || es[rest[|rest| - 1]].indent < t.indent)
    requires t.indent >= indent ==> rest == stack
    requires 0 <= a < |rest|
    ensures 0 <= rest[a] < |es| && Land(Indents(es) + [t.indent], rest[a]) == |es| + 1
  {
    var n := |es|;
    var w := Indents(es) + [t.indent];
    var i := rest[a];
    assert i == stack[a];
    if t.indent < indent && a < |rest| - 1 {
      assert es[stack[a]].indent < es[stack[|rest| - 1]].indent;
    }
    forall j | i < j < n + 1 ensures w[j] > w[i] {
      if j < n {
        assert w[j] == es[j].indent;
      }
    }
    LandUnique(w, i, n + 1);
  }

  /** A container row not left on the stack at the dummy tail skips to its
      landing node: the dummy tail when it was popped there, its landing row
      otherwise. */
  lemma {:induction false} TailOther(es: seq<Entry>, t: Entry, g: Graph, h: Graph, stack: seq<VM.Ptr>, rest: seq<VM.Ptr>, indent: int, i: int)
    requires |g.rows| == |es| && VM.StackOk(es, stack, |es|, indent) && EDoneOk(g, es, stack, |es|)
    requires t.indent < indent ==>
      && |rest| <= |stack| && rest == stack[..|rest|] && |h.rows| == |g.rows|
      && (forall a :: |rest| <= a < |stack| ==> es[stack[a]].indent >= t.indent)
      && (forall i :: 0 <= i < |g.rows| ==> h.rows[i].skip == if i in stack[|rest|..] then VM.DummyTail else g.rows[i].skip)
    requires t.indent >= indent ==> rest == stack && h == g
    requires 0 <= i < |es| && IsCollapsible(es[i].kind) && i !in rest
    ensures h.rows[i].skip == PtrOf(|es|, Land(Indents(es) + [t.indent], i))
  {
    if i in stack[|rest|..] {
      assert t.indent < indent;
      var a := VM.PoppedIndex(stack, rest, i);
      TailPopped(es, t, stack, indent, a);
    } else {
      VM.NotInSplit(stack, rest, i);
      TailUntouched(es, t, g, stack, i);
    }
  }

  /** A finished container row keeps its landing row once the dummy tail is
      walked as well. */
  lemma TailUntouched(es: seq<Entry>, t: Entry, g: Graph, stack: seq<VM.Ptr>, i: int)
    requires |g.rows| == |es| && EDoneOk(g, es, stack, |es|)
    requires 0 <= i < |es| && IsCollapsible(es[i].kind) && i !in stack
    ensures g.rows[i].skip == PtrOf(|es|, Land(Indents(es) + [t.indent], i))
  {
    LandPrefix(Indents(es), [t.indent], i);
  }

  /** A row popped at the dummy tail runs to the end of the rows. */
  lemma {:induction false} TailPopped(es: seq<Entry>, t: Entry, stack: seq<VM.Ptr>, indent: int, a: int)
    requires VM.StackOk(es, stack, |es|, indent) && 0 <= a < |stack| && es[stack[a]].indent >= t.indent
    ensures Land(Indents(es) + [t.indent], stack[a]) == |es|
  {
    var n := |es|;
    var w := Indents(es) + [t.indent];
    var i := stack[a];
    forall m | i < m < n ensures w[m] > w[i] {
      assert w[m] == es[m].indent;
    }
    assert w[i] == es[i].indent && w[n] == t.indent;
    LandUnique(w, i, n);
  }

  /** The end of `add_skips`: the nodes left on the stack get a null skip,
      which on a shaped run makes every row skip right. */
  lemma {:induction false} EFinish(g0: Graph, g: Graph, h: Graph, stack: seq<VM.Ptr>)
    requires EAtEnd(g0, g, stack)
    requires h.head == g.head && |h.rows| == |g.rows|
    requires h.tail == if VM.DummyTail in stack then g.tail.(skip := VM.Nil) else g.tail
    requires forall j :: 0 <= j < |h.rows| ==> h.rows[j] == if j in stack then g.rows[j].(skip := VM.Nil) else g.rows[j]
    ensures SameButSkips(g0, h)
    ensures h.tail.skip == if IsCollapsible(g0.tail.entry.kind) then VM.Nil else g0.tail.skip
    ensures Shaped(Entries(g0)) ==> EarlySkipped(h)
  {
    assert SameButSkips(g0, h);
    SameWalked(g0, h);
    if Shaped(Entries(g0)) {
      forall i | 0 <= i < |h.rows| && IsCollapsible(h.rows[i].entry.kind)
        ensures h.rows[i].skip == PtrOf(|h.rows|, Land(Walked(h), i))
      {
        SameEntry(g0, h, i);
        if i in stack {
          var a :| 0 <= a < |stack| && stack[a] == i;
        }
      }
    }
  }

  /** Where the early and the later skips part: a row lands where it did on
      the rows alone unless it runs to the end of the rows; then it lands on
      the dummy tail when the tail's indent is no deeper, and nowhere when
      it is deeper. */
  lemma WalkedLand(es: seq<Entry>, t: int, i: nat)
    requires i < |es|
    ensures var l := Land(Indents(es), i);
      PtrOf(|es|, Land(Indents(es) + [t], i)) == if l == |es| && t > es[i].indent then VM.Nil else PtrOf(|es|, l)
  {
    var ind := Indents(es);
    var w := ind + [t];
    var l := Land(ind, i);
    if l < |es| {
      LandPrefix(ind, [t], i);
    } else if t > es[i].indent {
      forall j | i < j < |es| + 1 ensures w[j] > w[i] {
        if j < |es| {
          assert w[j] == ind[j];
        }
      }
      LandUnique(w, i, |es| + 1);
    } else {
      LandAcross(ind, [t], i);
    }
  }

  /** The early skips against the later ones on the same rows: they agree,
      except that a container running to the end of the rows skips to null
      instead of the tail when the dummy tail's stale indent is deeper. */
  lemma EarlyAgainstLater(h: Graph, g: VM.Graph, i: int)
    requires EarlySkipped(h) && VM.Skipped(g) && Entries(h) == VM.Entries(g)
    requires 0 <= i < |h.rows| && IsCollapsible(h.rows[i].entry.kind)
    ensures h.rows[i].skip ==
      if VM.LandOf(g, i) == |h.rows| && h.tail.entry.indent > h.rows[i].entry.indent then VM.Nil
      else g.rows[i].forwardSkip
  {
    var es := Entries(h);
    assert es[i] == h.rows[i].entry == g.rows[i].entry;
    WalkedLand(es, h.tail.entry.indent, i);
  }

  /** The problem the source notes on its final loop: once a document whose
      root is a container is loaded, the root row skips to null when the
      dummy tail's stale indent is above zero, and to the dummy tail
      otherwise. */
  lemma EarlyRootSkip(doc: Json, h: Graph)
    requires WellFormed(doc) && IsCollapsible(KindOf(doc))
    requires Entries(h) == Flatten(doc, None, 0).rows && EarlySkipped(h)
    ensures |h.rows| > 0
    ensures h.rows[0].skip == if h.tail.entry.indent > 0 then VM.Nil else VM.DummyTail
  {
    var es := Entries(h);
    RootLandsAtEnd(doc);
    assert es[0] == h.rows[0].entry;
    WalkedLand(es, h.tail.entry.indent, 0);
  }

  /** The later `add_skips` on the same rows: the root row skips to the
      dummy tail whatever the tail's entry holds. */
  lemma LaterRootSkip(doc: Json, g: VM.Graph)
    requires WellFormed(doc) && IsCollapsible(KindOf(doc))
    requires VM.Entries(g) == Flatten(doc, None, 0).rows && VM.Skipped(g)
    ensures |g.rows| > 0 && g.rows[0].forwardSkip == VM.DummyTail
  {
    RootLandsAtEnd(doc);
    assert VM.Entries(g)[0] == g.rows[0].entry;
  }

  /** The rows of a document: the first is the root at indent 0, and it
      lands just past the last row. */
  lemma RootLandsAtEnd(doc: Json)
    requires WellFormed(doc)
    ensures var es := Flatten(doc, None, 0).rows;
      |es| > 0 && es[0] == RowOf(doc, None, 0) && es[0].indent == 0 && Land(Indents(es), 0) == |es|
  {
    FlattenIsPreorder(doc, None, 0);
  }
}
