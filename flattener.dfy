/** `doc_to_view_model` as a specification: the rows a JSON value flattens
    to, in document pre-order, and what is proved about them. The imperative
    flatteners that append these rows to a view model live with the view
    models themselves. */
module Flattener {

  import opened JsonDoc
  import opened Util
  import opened Landing

  /** The rows appended by a flattening call, and whether it finished
      (`ok`) or threw on a value of unknown type after appending `rows`. */
  datatype Emitted = Emitted(rows: seq<Entry>, ok: bool)

  /** No value of unknown type anywhere in the tree. */
  predicate WellFormed(v: Json)
    decreases v
  {
    match v
    case Object(fields) => WellFormedFields(fields)
    case Array(items) => WellFormedItems(items)
    case Unknown => false
    case _ => true
  }

  predicate WellFormedFields(fields: seq<(string, Json)>)
    decreases fields
  {
    fields == [] || (var f := fields[0]; assert f.1 < f; WellFormed(f.1) && WellFormedFields(fields[1..]))
  }

  predicate WellFormedItems(items: seq<Json>)
    decreases items
  {
    items == [] || (WellFormed(items[0]) && WellFormedItems(items[1..]))
  }

  function KindOf(v: Json): Kind
    requires v != Unknown
  {
    match v
    case Object(_) => ObjectOpen
    case Array(_) => ArrayOpen
    case String(_) => StringValue
    case Number(_) => NumberValue
    case Boolean(_) => BooleanValue
    case Null(_) => NullValue
  }

  /** The text shown for a value: an opening bracket for a container, the
      raw token trimmed of JSON whitespace for a primitive. */
  function DisplayOf(v: Json): string
    requires v != Unknown
  {
    match v
    case Object(_) => "{"
    case Array(_) => "["
    case String(raw) => TrimSpace(raw)
    case Number(raw) => TrimSpace(raw)
    case Boolean(raw) => TrimSpace(raw)
    case Null(raw) => TrimSpace(raw)
  }

  /** The row appended for value `v` reached under `key` at depth `level`. */
  function RowOf(v: Json, key: Option<string>, level: int): Entry
    requires v != Unknown
  {
    Entry(level, KindOf(v), key, DisplayOf(v))
  }

  function Prepend(e: Entry, r: Emitted): Emitted
  {
    Emitted([e] + r.rows, r.ok)
  }

  /** The rows `doc_to_view_model(model, v, key, level)` appends: the row
      of `v` itself, then for a container the rows of each child in
      document order, object children under their field name and array
      children without a key, one level deeper. */
  function Flatten(v: Json, key: Option<string>, level: int): Emitted
    decreases v
  {
    match v
    case Object(fields) => Prepend(RowOf(v, key, level), FlattenFields(fields, level + 1))
    case Array(items) => Prepend(RowOf(v, key, level), FlattenItems(items, level + 1))
    case Unknown => Emitted([], false)
    case _ => Emitted([RowOf(v, key, level)], true)
  }

  /** The children of an object, stopping at the first child that throws. */
  function FlattenFields(fields: seq<(string, Json)>, level: int): Emitted
    decreases fields
  {
    if fields == [] then Emitted([], true)
    else
      var f := fields[0];
      assert f.1 < f;
      var first := Flatten(f.1, Some(f.0), level);
      if !first.ok then first
      else
        var rest := FlattenFields(fields[1..], level);
        Emitted(first.rows + rest.rows, rest.ok)
  }

  /** The children of an array, stopping at the first child that throws. */
  function FlattenItems(items: seq<Json>, level: int): Emitted
    decreases items
  {
    if items == [] then Emitted([], true)
    else
      var first := Flatten(items[0], None, level);
      if !first.ok then first
      else
        var rest := FlattenItems(items[1..], level);
        Emitted(first.rows + rest.rows, rest.ok)
  }

  /** A value met in a pre-order walk, with the key and depth it is met at. */
  datatype Visit = Visit(value: Json, key: Option<string>, level: int)

  /** The pre-order walk of a tree: the value, then the walks of its children. */
  function Preorder(v: Json, key: Option<string>, level: int): seq<Visit>
    decreases v
  {
    match v
    case Object(fields) => [Visit(v, key, level)] + PreorderFields(fields, level + 1)
    case Array(items) => [Visit(v, key, level)] + PreorderItems(items, level + 1)
    case _ => [Visit(v, key, level)]
  }

  function PreorderFields(fields: seq<(string, Json)>, level: int): seq<Visit>
    decreases fields
  {
    if fields == [] then []
    else
      var f := fields[0];
      assert f.1 < f;
      Preorder(f.1, Some(f.0), level) + PreorderFields(fields[1..], level)
  }

  function PreorderItems(items: seq<Json>, level: int): seq<Visit>
    decreases items
  {
    if items == [] then [] else Preorder(items[0], None, level) + PreorderItems(items[1..], level)
  }

  /** The number of values in a tree. */
  function Count(v: Json): nat
    decreases v
  {
    match v
    case Object(fields) => 1 + CountFields(fields)
    case Array(items) => 1 + CountItems(items)
    case _ => 1
  }

  function CountFields(fields: seq<(string, Json)>): nat
    decreases fields
  {
    if fields == [] then 0 else var f := fields[0]; assert f.1 < f; Count(f.1) + CountFields(fields[1..])
  }

  function CountItems(items: seq<Json>): nat
    decreases items
  {
    if items == [] then 0 else Count(items[0]) + CountItems(items[1..])
  }

  /** Row `i` is the row of the `i`-th value met, at its key and depth, and
      no value met lies above `level`. */
  ghost predicate RowsFollowWalk(rows: seq<Entry>, walk: seq<Visit>, level: int)
  {
    && |rows| == |walk|
    && (forall i :: 0 <= i < |walk| ==> walk[i].value != Unknown && walk[i].level >= level)
    && (forall i :: 0 <= i < |walk| ==> rows[i] == RowOf(walk[i].value, walk[i].key, walk[i].level))
  }

  /** The skip of row `i` lands just past the subtree of the `i`-th value. */
  ghost predicate SkipsFollowWalk(rows: seq<Entry>, walk: seq<Visit>)
    requires |rows| == |walk|
  {
    forall i {:trigger Land(Indents(rows), i)} :: 0 <= i < |walk| ==> Land(Indents(rows), i) == i + Count(walk[i].value)
  }

  ghost predicate MatchesWalk(rows: seq<Entry>, walk: seq<Visit>, level: int)
  {
    RowsFollowWalk(rows, walk, level) && SkipsFollowWalk(rows, walk) && Descends(rows)
  }

  /** A well-formed tree flattens without throwing to one row per value, in
      pre-order, the first row being the value's own at `level` and every
      later row deeper; each container row's skip lands on the row right
      after its subtree. */
  lemma {:induction false} FlattenIsPreorder(v: Json, key: Option<string>, level: int)
    requires WellFormed(v)
    ensures var r := Flatten(v, key, level); var w := Preorder(v, key, level);
      && r.ok && MatchesWalk(r.rows, w, level) && |w| == Count(v)
      && w[0] == Visit(v, key, level)
      && forall i :: 0 < i < |w| ==> w[i].level > level
    decreases v
  {
    match v
    case Object(fields) =>
      FieldsArePreorder(fields, level + 1);
      var c := FlattenFields(fields, level + 1);
      assert Flatten(v, key, level).rows == [RowOf(v, key, level)] + c.rows;
      assert Preorder(v, key, level) == [Visit(v, key, level)] + PreorderFields(fields, level + 1);
      ContainerMatches(v, key, level, c.rows, PreorderFields(fields, level + 1));
    case Array(items) =>
      ItemsArePreorder(items, level + 1);
      var c := FlattenItems(items, level + 1);
      assert Flatten(v, key, level).rows == [RowOf(v, key, level)] + c.rows;
      assert Preorder(v, key, level) == [Visit(v, key, level)] + PreorderItems(items, level + 1);
      ContainerMatches(v, key, level, c.rows, PreorderItems(items, level + 1));
    case _ =>
      PrimitiveMatches(v, key, level);
  }

  /** A primitive is a single row whose walk is the value alone. */
  lemma PrimitiveMatches(v: Json, key: Option<string>, level: int)
    requires !v.Object? && !v.Array? && v != Unknown
    ensures Flatten(v, key, level) == Emitted([RowOf(v, key, level)], true)
    ensures Preorder(v, key, level) == [Visit(v, key, level)] && Count(v) == 1
    ensures MatchesWalk([RowOf(v, key, level)], [Visit(v, key, level)], level)
  {
    LandUnique(Indents([RowOf(v, key, level)]), 0, 1);
  }

  /** The container case: one row for the container, then its children's
      rows, all deeper, so the container's own skip lands past the end. */
  lemma ContainerMatches(v: Json, key: Option<string>, level: int, c: seq<Entry>, cw: seq<Visit>)
    requires v.Object? || v.Array?
    requires MatchesWalk(c, cw, level + 1) && (cw != [] ==> cw[0].level == level + 1)
    requires |cw| + 1 == Count(v)
    ensures MatchesWalk([RowOf(v, key, level)] + c, [Visit(v, key, level)] + cw, level)
    ensures forall i :: 0 < i < |cw| + 1 ==> ([Visit(v, key, level)] + cw)[i].level > level
  {
    var e := RowOf(v, key, level);
    assert c != [] ==> c[0] == RowOf(cw[0].value, cw[0].key, cw[0].level);
    ContainerRows(e, Visit(v, key, level), c, cw, level);
    ContainerSkips(e, Visit(v, key, level), c, cw, level);
    ContainerSteps(e, c, level);
  }

  lemma ContainerRows(e: Entry, x: Visit, c: seq<Entry>, cw: seq<Visit>, level: int)
    requires x.value != Unknown && x.level == level && e == RowOf(x.value, x.key, x.level)
    requires RowsFollowWalk(c, cw, level + 1)
    ensures RowsFollowWalk([e] + c, [x] + cw, level)
  {
    var rows := [e] + c;
    var w := [x] + cw;
    forall i | 0 < i < |w| ensures rows[i] == c[i - 1] && w[i] == cw[i - 1] {
    }
  }

  lemma ContainerSkips(e: Entry, x: Visit, c: seq<Entry>, cw: seq<Visit>, level: int)
    requires e.indent == level && |cw| + 1 == Count(x.value)
    requires RowsFollowWalk(c, cw, level + 1) && SkipsFollowWalk(c, cw)
    ensures |[e] + c| == |[x] + cw| && SkipsFollowWalk([e] + c, [x] + cw)
  {
    var rows := [e] + c;
    var w := [x] + cw;
    var ind := Indents(rows);
    IndentsAppend([e], c);
    assert ind == [level] + Indents(c);
    forall k | 0 < k < |ind| ensures ind[k] > ind[0] {
      assert ind[k] == c[k - 1].indent;
      assert c[k - 1] == RowOf(cw[k - 1].value, cw[k - 1].key, cw[k - 1].level);
    }
    LandUnique(ind, 0, |ind|);
    forall i | 0 < i < |w| ensures Land(ind, i) == i + Count(w[i].value) {
      assert w[i] == cw[i - 1];
      LandSuffix([level], Indents(c), i - 1);
    }
  }

  lemma ContainerSteps(e: Entry, c: seq<Entry>, level: int)
    requires e.indent == level && IsCollapsible(e.kind)
    requires Descends(c) && (c != [] ==> c[0].indent == level + 1)
    ensures Descends([e] + c)
  {
    var rows := [e] + c;
    forall k | 0 < k < |rows| ensures StepsDown(rows, k) {
      if k > 1 {
        assert rows[k] == c[k - 1] && rows[k - 1] == c[k - 2] && StepsDown(c, k - 1);
      }
    }
  }

  /** Walks of consecutive siblings glue together: a sibling's last rows land
      on the next sibling's first row, which sits at the siblings' depth. */
  lemma SiblingsMatch(a: seq<Entry>, aw: seq<Visit>, b: seq<Entry>, bw: seq<Visit>, level: int)
    requires MatchesWalk(a, aw, level) && MatchesWalk(b, bw, level)
    requires b != [] ==> b[0].indent == level
    ensures MatchesWalk(a + b, aw + bw, level)
  {
    SiblingRows(a, aw, b, bw, level);
    SiblingSkips(a, aw, b, bw, level);
    SiblingSteps(a, b, level);
  }

  lemma SiblingSteps(a: seq<Entry>, b: seq<Entry>, level: int)
    requires Descends(a) && Descends(b)
    requires forall i :: 0 <= i < |a| ==> a[i].indent >= level
    requires b != [] ==> b[0].indent == level
    ensures Descends(a + b)
  {
    var rows := a + b;
    forall k | 0 < k < |rows| ensures StepsDown(rows, k) {
      if k < |a| {
        assert rows[k] == a[k] && rows[k - 1] == a[k - 1] && StepsDown(a, k);
      } else if k == |a| {
        assert rows[k - 1] == a[k - 1];
      } else {
        assert rows[k] == b[k - |a|] && rows[k - 1] == b[k - 1 - |a|] && StepsDown(b, k - |a|);
      }
    }
  }

  lemma SiblingRows(a: seq<Entry>, aw: seq<Visit>, b: seq<Entry>, bw: seq<Visit>, level: int)
    requires RowsFollowWalk(a, aw, level) && RowsFollowWalk(b, bw, level)
    ensures RowsFollowWalk(a + b, aw + bw, level)
  {
    var rows := a + b;
    var w := aw + bw;
    forall i | 0 <= i < |a| ensures rows[i] == a[i] && w[i] == aw[i] {
    }
    forall i | |a| <= i < |w| ensures rows[i] == b[i - |a|] && w[i] == bw[i - |a|] {
    }
  }

  lemma SiblingSkips(a: seq<Entry>, aw: seq<Visit>, b: seq<Entry>, bw: seq<Visit>, level: int)
    requires RowsFollowWalk(a, aw, level) && RowsFollowWalk(b, bw, level)
    requires SkipsFollowWalk(a, aw) && SkipsFollowWalk(b, bw)
    requires b != [] ==> b[0].indent == level
    ensures |a + b| == |aw + bw| && SkipsFollowWalk(a + b, aw + bw)
  {
    IndentsAppend(a, b);
    forall i | 0 <= i < |aw + bw| ensures Land(Indents(a) + Indents(b), i) == i + Count((aw + bw)[i].value) {
      SiblingAt(a, aw, b, bw, level, i);
    }
  }

  /** Row `i` of two siblings side by side lands where it did in its own
      sibling, shifted when it belongs to the later one. */
  lemma SiblingAt(a: seq<Entry>, aw: seq<Visit>, b: seq<Entry>, bw: seq<Visit>, level: int, i: int)
    requires RowsFollowWalk(a, aw, level) && SkipsFollowWalk(a, aw)
    requires |b| == |bw| && SkipsFollowWalk(b, bw)
    requires b != [] ==> b[0].indent == level
    requires 0 <= i < |aw + bw|
    ensures Land(Indents(a) + Indents(b), i) == i + Count((aw + bw)[i].value)
  {
    var ia, ib := Indents(a), Indents(b);
    if i < |a| {
      SiblingLeft(a, aw, ib, level, i);
      assert (aw + bw)[i] == aw[i];
    } else {
      assert |ia| == |a|;
      SiblingRight(ia, b, bw, i);
      assert (aw + bw)[i] == bw[i - |ia|];
    }
  }

  /** A row of the later sibling lands where it did on its own, shifted. */
  lemma SiblingRight(ia: seq<int>, b: seq<Entry>, bw: seq<Visit>, i: int)
    requires |b| == |bw| && SkipsFollowWalk(b, bw) && |ia| <= i < |ia| + |b|
    ensures Land(ia + Indents(b), i) == i + Count(bw[i - |ia|].value)
  {
    var j := i - |ia|;
    LandSuffix(ia, Indents(b), j);
    assert Land(Indents(b), j) == j + Count(bw[j].value);
  }

  /** A row of the earlier sibling lands where it did on its own. */
  lemma SiblingLeft(a: seq<Entry>, aw: seq<Visit>, ib: seq<int>, level: int, i: int)
    requires RowsFollowWalk(a, aw, level) && SkipsFollowWalk(a, aw)
    requires ib != [] ==> ib[0] == level
    requires 0 <= i < |a|
    ensures Land(Indents(a) + ib, i) == i + Count(aw[i].value)
  {
    var ia := Indents(a);
    assert a[i] == RowOf(aw[i].value, aw[i].key, aw[i].level);
    assert ia[i] == a[i].indent >= level;
    SiblingLand(ia, ib, i, level);
  }

  /** A row of an earlier sibling lands where it did within that sibling. */
  lemma SiblingLand(ia: seq<int>, ib: seq<int>, i: nat, level: int)
    requires i < |ia| && ia[i] >= level
    requires ib != [] ==> ib[0] == level
    ensures Land(ia + ib, i) == Land(ia, i)
  {
    if Land(ia, i) < |ia| {
      LandPrefix(ia, ib, i);
    } else {
      LandAcross(ia, ib, i);
    }
  }

  lemma {:induction false} FieldsArePreorder(fields: seq<(string, Json)>, level: int)
    requires WellFormedFields(fields)
    ensures var r := FlattenFields(fields, level); var w := PreorderFields(fields, level);
      && r.ok && MatchesWalk(r.rows, w, level) && |w| == CountFields(fields)
      && (w != [] ==> w[0].level == level)
    decreases fields
  {
    if fields != [] {
      var f := fields[0];
      assert f.1 < f;
      FlattenIsPreorder(f.1, Some(f.0), level);
      FieldsArePreorder(fields[1..], level);
      var a := Flatten(f.1, Some(f.0), level);
      var b := FlattenFields(fields[1..], level);
      var bw := PreorderFields(fields[1..], level);
      assert b.rows != [] ==> b.rows[0].indent == bw[0].level;
      SiblingsMatch(a.rows, Preorder(f.1, Some(f.0), level), b.rows, bw, level);
    }
  }

  lemma {:induction false} ItemsArePreorder(items: seq<Json>, level: int)
    requires WellFormedItems(items)
    ensures var r := FlattenItems(items, level); var w := PreorderItems(items, level);
      && r.ok && MatchesWalk(r.rows, w, level) && |w| == CountItems(items)
      && (w != [] ==> w[0].level == level)
    decreases items
  {
    if items != [] {
      FlattenIsPreorder(items[0], None, level);
      ItemsArePreorder(items[1..], level);
      var a := Flatten(items[0], None, level);
      var b := FlattenItems(items[1..], level);
      var bw := PreorderItems(items[1..], level);
      assert b.rows != [] ==> b.rows[0].indent == bw[0].level;
      SiblingsMatch(a.rows, Preorder(items[0], None, level), b.rows, bw, level);
    }
  }

  /** Flattening throws exactly when a value of unknown type occurs. */
  lemma {:induction false} FlattenThrows(v: Json, key: Option<string>, level: int)
    ensures Flatten(v, key, level).ok <==> WellFormed(v)
    decreases v
  {
    match v
    case Object(fields) => FieldsThrow(fields, level + 1);
    case Array(items) => ItemsThrow(items, level + 1);
    case _ =>
  }

  lemma {:induction false} FieldsThrow(fields: seq<(string, Json)>, level: int)
    ensures FlattenFields(fields, level).ok <==> WellFormedFields(fields)
    decreases fields
  {
    if fields != [] {
      var f := fields[0];
      assert f.1 < f;
      FlattenThrows(f.1, Some(f.0), level);
      FieldsThrow(fields[1..], level);
    }
  }

  lemma {:induction false} ItemsThrow(items: seq<Json>, level: int)
    ensures FlattenItems(items, level).ok <==> WellFormedItems(items)
    decreases items
  {
    if items != [] {
      FlattenThrows(items[0], None, level);
      ItemsThrow(items[1..], level);
    }
  }

  /** Flattening the children in two runs: the second run happens only if
      the first finished. */
  /** The rows of `x` followed by those of `y`, unless `x` already threw. */
  function Then(x: Emitted, y: Emitted): (r: Emitted)
    ensures x.ok ==> r.rows == x.rows + y.rows && r.ok == y.ok
    ensures !x.ok ==> r == x
  {
    if x.ok then Emitted(x.rows + y.rows, y.ok) else x
  }

  lemma ThenAssoc(x: Emitted, y: Emitted, z: Emitted)
    ensures Then(Then(x, y), z) == Then(x, Then(y, z))
  {
    if x.ok && y.ok {
      assert (x.rows + y.rows) + z.rows == x.rows + (y.rows + z.rows);
    }
  }

  lemma FieldsUnfold(fields: seq<(string, Json)>, level: int)
    requires fields != []
    ensures FlattenFields(fields, level) == Then(Flatten(fields[0].1, Some(fields[0].0), level), FlattenFields(fields[1..], level))
  {
  }

  lemma ItemsUnfold(items: seq<Json>, level: int)
    requires items != []
    ensures FlattenItems(items, level) == Then(Flatten(items[0], None, level), FlattenItems(items[1..], level))
  {
  }

  lemma {:induction false} FieldsAppend(a: seq<(string, Json)>, b: seq<(string, Json)>, level: int)
    ensures FlattenFields(a + b, level) == Then(FlattenFields(a, level), FlattenFields(b, level))
  {
    if a == [] {
      assert a + b == b;
    } else {
      assert (a + b)[0] == a[0] && (a + b)[1..] == a[1..] + b;
      FieldsUnfold(a + b, level);
      FieldsUnfold(a, level);
      FieldsAppend(a[1..], b, level);
      ThenAssoc(Flatten(a[0].1, Some(a[0].0), level), FlattenFields(a[1..], level), FlattenFields(b, level));
    }
  }

  lemma {:induction false} ItemsAppend(a: seq<Json>, b: seq<Json>, level: int)
    ensures FlattenItems(a + b, level) == Then(FlattenItems(a, level), FlattenItems(b, level))
  {
    if a == [] {
      assert a + b == b;
    } else {
      assert (a + b)[0] == a[0] && (a + b)[1..] == a[1..] + b;
      ItemsUnfold(a + b, level);
      ItemsUnfold(a, level);
      ItemsAppend(a[1..], b, level);
      ThenAssoc(Flatten(a[0], None, level), FlattenItems(a[1..], level), FlattenItems(b, level));
    }
  }

  /** One more child: the loop of the flattener after `i + 1` fields. */
  lemma FieldsSnoc(fields: seq<(string, Json)>, i: int, level: int)
    requires 0 <= i < |fields| && FlattenFields(fields[..i], level).ok
    ensures var child := Flatten(fields[i].1, Some(fields[i].0), level);
      FlattenFields(fields[..i + 1], level) == Emitted(FlattenFields(fields[..i], level).rows + child.rows, child.ok)
  {
    var f := fields[i];
    FieldsAppend(fields[..i], [f], level);
    assert fields[..i] + [f] == fields[..i + 1];
    assert [f][1..] == [];
  }

  /** A child that throws ends the loop: later fields add nothing. */
  lemma FieldsStop(fields: seq<(string, Json)>, i: int, level: int)
    requires 0 <= i <= |fields| && !FlattenFields(fields[..i], level).ok
    ensures FlattenFields(fields, level) == FlattenFields(fields[..i], level)
  {
    FieldsAppend(fields[..i], fields[i..], level);
    assert fields[..i] + fields[i..] == fields;
  }

  lemma ItemsSnoc(items: seq<Json>, i: int, level: int)
    requires 0 <= i < |items| && FlattenItems(items[..i], level).ok
    ensures var child := Flatten(items[i], None, level);
      FlattenItems(items[..i + 1], level) == Emitted(FlattenItems(items[..i], level).rows + child.rows, child.ok)
  {
    var x := items[i];
    ItemsAppend(items[..i], [x], level);
    assert items[..i] + [x] == items[..i + 1];
    assert [x][1..] == [];
  }

  lemma ItemsStop(items: seq<Json>, i: int, level: int)
    requires 0 <= i <= |items| && !FlattenItems(items[..i], level).ok
    ensures FlattenItems(items, level) == FlattenItems(items[..i], level)
  {
    ItemsAppend(items[..i], items[i..], level);
    assert items[..i] + items[i..] == items;
  }

  /** Every row flattened from a value at depth `level` is at that depth
      or deeper. */
  lemma {:induction false} FlattenDepth(v: Json, key: Option<string>, level: int)
    ensures forall i :: 0 <= i < |Flatten(v, key, level).rows| ==> Flatten(v, key, level).rows[i].indent >= level
    decreases v, 1
  {
    match v
    case Object(fields) => FieldsDepth(fields, level + 1);
    case Array(items) => ItemsDepth(items, level + 1);
    case _ =>
  }

  lemma {:induction false} FieldsDepth(fields: seq<(string, Json)>, level: int)
    ensures forall i :: 0 <= i < |FlattenFields(fields, level).rows| ==> FlattenFields(fields, level).rows[i].indent >= level
    decreases fields, 0
  {
    if fields != [] {
      var f := fields[0];
      assert f.1 < f;
      FlattenDepth(f.1, Some(f.0), level);
      FieldsDepth(fields[1..], level);
    }
  }

  lemma {:induction false} ItemsDepth(items: seq<Json>, level: int)
    ensures forall i :: 0 <= i < |FlattenItems(items, level).rows| ==> FlattenItems(items, level).rows[i].indent >= level
    decreases items, 0
  {
    if items != [] {
      FlattenDepth(items[0], None, level);
      ItemsDepth(items[1..], level);
    }
  }
}
