/** The text of one screen row as `print_json` in `main.cpp` draws it: the
    indentation, the key cut to a third of the screen, the value cut at
    the right margin, and the collapse marker. A character stands for one
    code point; whether it is full-width (two columns) is the parameter
    `wide`, since the width table is not part of this model. */
module Display {

  import opened JsonDoc

  /** `MINIMUM_WIDTH`: on a narrower screen nothing is drawn. */
  const MinimumWidth: int := 16

  /** The single code point drawn where text was cut. */
  const Ellipsis: string := "\U{2026}"

  /** C++ division of `int`s, which truncates toward zero: the quotient
      never lies farther from zero than `a / b` does. */
  function CDiv(a: int, b: int): (q: int)
    requires b > 0
    ensures a >= 0 ==> b * q <= a < b * q + b
    ensures a < 0 ==> b * q - b < a <= b * q
  {
    if a >= 0 then a / b else -((-a) / b)
  }

  /** `get_key_width_limit`: the key ends three columns before a third of
      the screen, leaving room for the ellipsis and `": "`. */
  function KeyWidthLimit(cols: int): int
  {
    CDiv(cols, 3) - 3
  }

  /** `get_value_max_col`: the value ends five columns before the right
      edge, leaving room for the ellipsis and `" [+]"`. */
  function ValueMaxCol(cols: int): int
  {
    cols - 5
  }

  /** `is_full_width(c) + 1`: the columns a character takes. */
  function Width(c: char, wide: char -> bool): nat
  {
    if wide(c) then 2 else 1
  }

  /** The columns a string takes. */
  function Columns(s: string, wide: char -> bool): nat
  {
    if s == [] then 0 else Width(s[0], wide) + Columns(s[1..], wide)
  }

  lemma {:induction false} ColumnsAppend(a: string, b: string, wide: char -> bool)
    ensures Columns(a + b, wide) == Columns(a, wide) + Columns(b, wide)
  {
    if a == [] {
      assert a + b == b;
    } else {
      assert (a + b)[1..] == a[1..] + b;
      ColumnsAppend(a[1..], b, wide);
    }
  }

  /** The characters that the drawing adds around keys and values are all
      narrow. */
  predicate NarrowMarks(wide: char -> bool)
  {
    !wide(' ') && !wide(':') && !wide('[') && !wide(']') && !wide('+') && !wide('-') && !wide('\U{2026}')
  }

  /** How many leading characters of `s` the truncation loop keeps when its
      column counter starts at `col` and may not pass `limit`. */
  function Fit(s: string, col: int, limit: int, wide: char -> bool): (k: nat)
    ensures k <= |s|
  {
    if s == [] || col + Width(s[0], wide) > limit then 0
    else 1 + Fit(s[1..], col + Width(s[0], wide), limit, wide)
  }

  /** The kept prefix is the longest that ends within the limit: the first
      `j` characters end within it exactly when `j` is at most `Fit`. */
  lemma {:induction false} FitIsLongest(s: string, col: int, limit: int, wide: char -> bool, j: int)
    requires 0 < j <= |s|
    ensures j <= Fit(s, col, limit, wide) <==> col + Columns(s[..j], wide) <= limit
  {
    var w := Width(s[0], wide);
    assert s[..j][1..] == s[1..][..j - 1];
    assert Columns(s[..j], wide) == w + Columns(s[1..][..j - 1], wide);
    if j > 1 {
      FitIsLongest(s[1..], col + w, limit, wide, j - 1);
    }
  }

  /** The text drawn for `s`: the kept prefix, then an ellipsis exactly
      when some character was left out. */
  function Clipped(s: string, col: int, limit: int, wide: char -> bool): string
  {
    var k := Fit(s, col, limit, wide);
    s[..k] + (if k < |s| then Ellipsis else "")
  }

  /** The column counter after the text: it has counted the first character
      left out as well, and one more for the ellipsis. */
  function NextCol(s: string, col: int, limit: int, wide: char -> bool): int
  {
    var k := Fit(s, col, limit, wide);
    if k < |s| then col + Columns(s[..k + 1], wide) + 1 else col + Columns(s, wide)
  }

  /** The text drawn for `s` as the source decides on the ellipsis: only
      when the loop stopped before the end, which it does not when the
      character left out is the last one. */
  function ClippedAsWritten(s: string, col: int, limit: int, wide: char -> bool): string
  {
    var k := Fit(s, col, limit, wide);
    s[..k] + (if k + 1 < |s| then Ellipsis else "")
  }

  /** Text is cut exactly when the whole of it does not fit; then the kept
      part is the longest prefix that fits, followed by the ellipsis. */
  lemma ClippedMeans(s: string, col: int, limit: int, wide: char -> bool)
    requires s != []
    ensures col + Columns(s, wide) <= limit ==> Clipped(s, col, limit, wide) == s
    ensures col + Columns(s, wide) > limit ==>
      var k := Fit(s, col, limit, wide);
      && Clipped(s, col, limit, wide) == s[..k] + Ellipsis
      && (k > 0 ==> col + Columns(s[..k], wide) <= limit)
      && col + Columns(s[..k + 1], wide) > limit
  {
    var k := Fit(s, col, limit, wide);
    FitIsLongest(s, col, limit, wide, |s|);
    assert s[..|s|] == s;
    if k < |s| {
      FitIsLongest(s, col, limit, wide, k + 1);
      if k > 0 {
        FitIsLongest(s, col, limit, wide, k);
      }
    }
  }

  /** The source's test drops the last character without an ellipsis: with
      a limit of one column, `"ab"` is drawn as `"a"`, where the cut shows
      as `"a…"`. */
  lemma AsWrittenDropsLastSilently(wide: char -> bool)
    requires !wide('a') && !wide('b')
    ensures ClippedAsWritten("ab", 0, 1, wide) == "a"
    ensures Clipped("ab", 0, 1, wide) == "a" + Ellipsis
  {
    assert "ab"[1..] == "b";
    assert Fit("b", 1, 1, wide) == 0;
    assert Fit("ab", 0, 1, wide) == 1;
    assert "ab"[..1] == "a";
  }

  /** The drawn text of a cut ends at most one column (the ellipsis) past
      the limit, or past the start column when nothing fits. */
  lemma ClippedWithin(s: string, col: int, limit: int, wide: char -> bool)
    requires !wide('\U{2026}')
    ensures col + Columns(Clipped(s, col, limit, wide), wide) <= (if limit < col then col else limit) + 1
  {
    var k := Fit(s, col, limit, wide);
    ColumnsAppend(s[..k], if k < |s| then Ellipsis else "", wide);
    NarrowColumns(Ellipsis, wide);
    if k > 0 {
      FitIsLongest(s, col, limit, wide, k);
    } else {
      assert s[..k] == "";
    }
  }

  /** The column counter is never behind the columns actually drawn. */
  lemma CounterAhead(s: string, col: int, limit: int, wide: char -> bool)
    requires !wide('\U{2026}')
    ensures col + Columns(Clipped(s, col, limit, wide), wide) <= NextCol(s, col, limit, wide)
  {
    var k := Fit(s, col, limit, wide);
    ColumnsAppend(s[..k], if k < |s| then Ellipsis else "", wide);
    NarrowColumns(Ellipsis, wide);
    if k < |s| {
      assert s[..k + 1] == s[..k] + [s[k]];
      ColumnsAppend(s[..k], [s[k]], wide);
    } else {
      assert s[..k] == s;
    }
  }

  /** The truncation loop: count each character's columns, stop at the
      first that passes `limit`, copy the others. `stop` is where the
      iterator is left: just past the first character that did not fit, or
      the end; `endCol` has counted every character before `stop`. */
  method Clip(s: string, col: int, limit: int, wide: char -> bool) returns (kept: string, stop: nat, endCol: int)
    ensures kept == s[..Fit(s, col, limit, wide)]
    ensures stop == if Fit(s, col, limit, wide) < |s| then Fit(s, col, limit, wide) + 1 else |s|
    ensures endCol == col + Columns(s[..stop], wide)
  {
    kept, stop, endCol := [], 0, col;
    while stop < |s|
      invariant stop <= Fit(s, col, limit, wide) && kept == s[..stop]
      invariant endCol == col + Columns(s[..stop], wide)
    {
      var c := s[stop];
      assert s[..stop + 1] == s[..stop] + [c];
      ColumnsAppend(s[..stop], [c], wide);
      assert Columns([c], wide) == Width(c, wide) by {
        assert [c][1..] == [];
      }
      stop := stop + 1;
      endCol := endCol + Width(c, wide);
      FitIsLongest(s, col, limit, wide, stop);
      if endCol > limit {
        return;
      }
      kept := kept + [c];
    }
    assert s[..stop] == s;
  }

  /** The key or value part of a row, with the ellipsis when the text was
      cut, and the column counter after it. */
  method Truncate(s: string, col: int, limit: int, wide: char -> bool) returns (text: string, endCol: int)
    ensures text == Clipped(s, col, limit, wide)
    ensures endCol == NextCol(s, col, limit, wide)
  {
    var kept, stop, c := Clip(s, col, limit, wide);
    text, endCol := kept, c;
    if |kept| < |s| {
      text := text + Ellipsis;
      endCol := endCol + 1;
    } else {
      assert s[..stop] == s;
    }
  }

  /** The same part with the source's test for the ellipsis. */
  method TruncateAsWritten(s: string, col: int, limit: int, wide: char -> bool) returns (text: string)
    ensures text == ClippedAsWritten(s, col, limit, wide)
  {
    var kept, stop, c := Clip(s, col, limit, wide);
    text := kept;
    if stop < |s| {
      text := text + Ellipsis;
    }
  }

  function Spaces(n: nat): (s: string)
    ensures |s| == n && forall i :: 0 <= i < n ==> s[i] == ' '
  {
    seq(n, i => ' ')
  }

  /** A string of narrow characters takes one column per character. */
  lemma {:induction false} NarrowColumns(s: string, wide: char -> bool)
    requires forall i :: 0 <= i < |s| ==> !wide(s[i])
    ensures Columns(s, wide) == |s|
  {
    if s != [] {
      NarrowColumns(s[1..], wide);
    }
  }

  /** `" [+]"` after a collapsed container, `" [-]"` after an expanded one,
      nothing after a primitive. */
  function Marker(e: Entry, collapsed: bool): string
  {
    if !IsCollapsible(e.kind) then "" else if collapsed then " [+]" else " [-]"
  }

  /** The column where the value starts to be counted: after the indent,
      or after the cut key and `": "`. */
  function ValueCol(e: Entry, cols: int, wide: char -> bool): int
  {
    if e.key.Some? then NextCol(e.key.value, e.indent, KeyWidthLimit(cols), wide) + 2 else e.indent
  }

  lemma MarkerColumns(e: Entry, collapsed: bool, wide: char -> bool)
    requires NarrowMarks(wide)
    ensures Columns(Marker(e, collapsed), wide) <= 4
  {
    NarrowColumns(Marker(e, collapsed), wide);
  }

  /** The text of a row with entry `e`: indent, key part, value part and
      marker. */
  function RowText(e: Entry, collapsed: bool, cols: int, wide: char -> bool): string
    requires e.indent >= 0
  {
    var keyPart := if e.key.Some? then Clipped(e.key.value, e.indent, KeyWidthLimit(cols), wide) + ": " else "";
    Spaces(e.indent) + keyPart + Clipped(e.value, ValueCol(e, cols, wide), ValueMaxCol(cols), wide) + Marker(e, collapsed)
  }

  /** One row of `print_json`. */
  method RenderRow(e: Entry, collapsed: bool, cols: int, wide: char -> bool) returns (line: string)
    requires e.indent >= 0
    ensures line == RowText(e, collapsed, cols, wide)
  {
    line := "";
    var col := e.indent;
    var j := 0;
    while j < e.indent
      invariant j <= e.indent && line == Spaces(j)
    {
      line := line + " ";
      j := j + 1;
    }
    if e.key.Some? {
      var text, next := Truncate(e.key.value, col, KeyWidthLimit(cols), wide);
      line := line + text + ": ";
      col := next + 2;
    }
    assert col == ValueCol(e, cols, wide);
    assert line == Spaces(e.indent) + (if e.key.Some? then Clipped(e.key.value, e.indent, KeyWidthLimit(cols), wide) + ": " else "");
    var text, next := Truncate(e.value, col, ValueMaxCol(cols), wide);
    line := line + text;
    col := next;
    if IsCollapsible(e.kind) {
      if collapsed {
        line := line + " [+]";
      } else {
        line := line + " [-]";
      }
      col := col + 4;
    }
  }

  /** The key part drawn ends no later than the column the value starts to
      be counted at, and no later than three columns past the larger of the
      key limit and the indent. */
  lemma KeyPartWithin(e: Entry, cols: int, wide: char -> bool)
    requires e.indent >= 0 && NarrowMarks(wide)
    ensures var keyPart := if e.key.Some? then Clipped(e.key.value, e.indent, KeyWidthLimit(cols), wide) + ": " else "";
      var end := e.indent + Columns(keyPart, wide);
      && end <= ValueCol(e, cols, wide)
      && end <= (if KeyWidthLimit(cols) < e.indent then e.indent else KeyWidthLimit(cols)) + 3
  {
    if e.key.Some? {
      var k := e.key.value;
      var t := Clipped(k, e.indent, KeyWidthLimit(cols), wide);
      ColumnsAppend(t, ": ", wide);
      NarrowColumns(": ", wide);
      ClippedWithin(k, e.indent, KeyWidthLimit(cols), wide);
      CounterAhead(k, e.indent, KeyWidthLimit(cols), wide);
    }
  }

  /** On a screen at least `MinimumWidth` wide, a row whose indent leaves
      eight columns fits on the screen. */
  lemma RowFits(e: Entry, collapsed: bool, cols: int, wide: char -> bool)
    requires NarrowMarks(wide) && cols >= MinimumWidth && 0 <= e.indent <= cols - 8
    ensures Columns(RowText(e, collapsed, cols, wide), wide) <= cols
  {
    var keyPart := if e.key.Some? then Clipped(e.key.value, e.indent, KeyWidthLimit(cols), wide) + ": " else "";
    var c := ValueCol(e, cols, wide);
    var valuePart := Clipped(e.value, c, ValueMaxCol(cols), wide);
    var a := e.indent + Columns(keyPart, wide);
    KeyPartWithin(e, cols, wide);
    assert a <= cols - 5;
    ClippedWithin(e.value, c, ValueMaxCol(cols), wide);
    assert a + Columns(valuePart, wide) <= cols - 4;
    MarkerColumns(e, collapsed, wide);
    NarrowColumns(Spaces(e.indent), wide);
    ColumnsAppend(Spaces(e.indent), keyPart, wide);
    ColumnsAppend(Spaces(e.indent) + keyPart, valuePart, wide);
    ColumnsAppend(Spaces(e.indent) + keyPart + valuePart, Marker(e, collapsed), wide);
  }
}
