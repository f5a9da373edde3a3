/** The input side of the view-model engine: the JSON value tree that the
    parser hands over, and the display row (view entry) that the flattener
    produces for each value. */
module JsonDoc {

  datatype Option<T> = None | Some(value: T)

  /** A parsed JSON value. Objects keep their fields in document order (not
      sorted); primitives keep the raw source token, untrimmed. `Unknown` is a
      value whose type tag is none of the six JSON kinds, which the flattener
      rejects. */
  datatype Json =
    | Object(fields: seq<(string, Json)>)
    | Array(items: seq<Json>)
    | String(raw: string)
    | Number(raw: string)
    | Boolean(raw: string)
    | Null(raw: string)
    | Unknown

  /** The kind of a display row (`view_entry_kind`). */
  datatype Kind = ObjectOpen | ArrayOpen | StringValue | NumberValue | BooleanValue | NullValue

  /** Only the rows that open an object or an array can be collapsed. */
  predicate IsCollapsible(kind: Kind)
  {
    kind == ObjectOpen || kind == ArrayOpen
  }

  /** One display row (`view_entry`): nesting depth, kind, the field name when
      the value is an object member, and the text shown. */
  datatype Entry = Entry(indent: int, kind: Kind, key: Option<string>, value: string)

  /** The nesting depths of a run of rows. */
  function Indents(rows: seq<Entry>): (ind: seq<int>)
    ensures |ind| == |rows| && forall i :: 0 <= i < |rows| ==> ind[i] == rows[i].indent
  {
    if rows == [] then [] else [rows[0].indent] + Indents(rows[1..])
  }

  lemma IndentsAppend(a: seq<Entry>, b: seq<Entry>)
    ensures Indents(a + b) == Indents(a) + Indents(b)
  {
  }

  /** Each row is at most one level deeper than the row before it, and only
      when that row opens a container. */
  ghost predicate Descends(rows: seq<Entry>)
  {
    forall k :: 0 < k < |rows| ==> StepsDown(rows, k)
  }

  /** Row `k` is at most one level deeper than row `k - 1`, and only when
      row `k - 1` opens a container. */
  predicate StepsDown(rows: seq<Entry>, k: int)
    requires 0 < k < |rows|
  {
    rows[k].indent <= rows[k - 1].indent + (if IsCollapsible(rows[k - 1].kind) then 1 else 0)
  }

  /** The shape of the rows of one document: the first row at depth zero or
      above, every later row reached by descending at most one level. */
  ghost predicate Shaped(rows: seq<Entry>)
  {
    (rows != [] ==> rows[0].indent <= 0) && Descends(rows)
  }
}
