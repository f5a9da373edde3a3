/** `script/genwidths.py`: the generator of the East Asian Width table.
    It reads the lines of the Unicode data file `EastAsianWidth.txt`
    (Unicode Standard Annex #11), keeps the code-point ranges of width class
    `W` (wide) and `F` (fullwidth), sorts them by their first code point,
    expands them into a list of '0'/'1' bits indexed by code point, checks
    that list against the ranges, and emits it reversed, in quoted chunks of
    100 characters, for a `std::bitset` constructor. */
module GenWidths {

  import opened Util

  /** Characters per output chunk. */
  const OutputWidth := 100

  // ---------------------------------------------------------------------
  // Python text primitives
  // ---------------------------------------------------------------------

  /** The characters Python's `str.strip()` and `int()` treat as whitespace. */
  predicate IsPySpace(c: char)
  {
    var n := c as int;
    || n == 0x20 || 0x09 <= n <= 0x0D || 0x1C <= n <= 0x1F || n == 0x85 || n == 0xA0
    || n == 0x1680 || 0x2000 <= n <= 0x200A || n == 0x2028 || n == 0x2029
    || n == 0x202F || n == 0x205F || n == 0x3000
  }

  predicate AllPySpace(s: string)
  {
    forall i :: 0 <= i < |s| ==> IsPySpace(s[i])
  }

  /** `str.lstrip()`: a suffix of `s` whose removed front is whitespace. */
  function StripStart(s: string): (r: string)
    ensures |r| <= |s| && r == s[|s| - |r|..] && AllPySpace(s[..|s| - |r|])
    ensures r == [] || !IsPySpace(r[0])
  {
    if s != [] && IsPySpace(s[0]) then
      var r := StripStart(s[1..]);
      assert s[1..][..|s| - 1 - |r|] == s[1..|s| - |r|];
      r
    else s
  }

  /** `str.rstrip()`: a prefix of `s` whose removed back is whitespace. */
  function StripEnd(s: string): (r: string)
    ensures |r| <= |s| && r == s[..|r|] && AllPySpace(s[|r|..])
    ensures r == [] || !IsPySpace(r[|r| - 1])
  {
    if s != [] && IsPySpace(s[|s| - 1]) then
      var r := StripEnd(s[..|s| - 1]);
      assert s[..|s| - 1][|r|..] == s[|r|..|s| - 1];
      r
    else s
  }

  /** `str.strip()`. */
  function Strip(s: string): (r: string)
    ensures r == [] || (!IsPySpace(r[0]) && !IsPySpace(r[|r| - 1]))
  {
    StripEnd(StripStart(s))
  }

  /** Stripping leaves a string without whitespace at either end unchanged. */
  lemma StripKeeps(s: string)
    requires s == [] || (!IsPySpace(s[0]) && !IsPySpace(s[|s| - 1]))
    ensures Strip(s) == s
  {
  }

  /** A string of whitespace, the empty string included, strips to nothing,
      and a string with any other character does not. */
  lemma {:induction false} StripEmpty(s: string)
    ensures Strip(s) == [] <==> AllPySpace(s)
  {
    var t := StripStart(s);
    if t != [] {
      assert !IsPySpace(s[|s| - |t|]);
      assert !AllPySpace(t[0..]) by {
        assert t[0..][0] == t[0];
      }
    } else {
      assert s[..|s|] == s;
    }
  }

  /** Whether `sep` occurs in `s` at position `i`. */
  predicate OccursAt(s: string, sep: string, i: int)
  {
    0 <= i && i + |sep| <= |s| && s[i..i + |sep|] == sep
  }

  /** `str.find`: the first position where `sep` occurs, or -1. */
  function Find(s: string, sep: string): (r: int)
    ensures -1 <= r <= |s|
    ensures r >= 0 ==> OccursAt(s, sep, r)
    ensures forall i {:trigger OccursAt(s, sep, i)} :: 0 <= i && (r < 0 || i < r) ==> !OccursAt(s, sep, i)
    decreases |s|
  {
    if |s| < |sep| then
      assert forall i :: 0 <= i ==> !OccursAt(s, sep, i);
      -1
    else if s[..|sep|] == sep then 0
    else
      var r := Find(s[1..], sep);
      forall i | 0 < i
        ensures OccursAt(s, sep, i) == OccursAt(s[1..], sep, i - 1)
      {
        if i + |sep| <= |s| {
          var a, b := s[i..i + |sep|], s[1..][i - 1..i - 1 + |sep|];
          assert |a| == |b| && forall j :: 0 <= j < |a| ==> a[j] == b[j];
          assert a == b;
        }
      }
      if r < 0 then -1 else r + 1
  }

  /** `str.split(sep)`: the pieces between the occurrences of `sep`, found
      from the left without overlap. */
  function Split(s: string, sep: string): (r: seq<string>)
    requires sep != []
    ensures r != []
    decreases |s|
  {
    var i := Find(s, sep);
    if i < 0 then [s] else [s[..i]] + Split(s[i + |sep|..], sep)
  }

  /** No piece contains the separator. */
  lemma {:induction false} SplitPieces(s: string, sep: string)
    requires sep != []
    ensures forall k, i :: 0 <= k < |Split(s, sep)| ==> !OccursAt(Split(s, sep)[k], sep, i)
    decreases |s|
  {
    var i := Find(s, sep);
    if i >= 0 {
      SplitPieces(s[i + |sep|..], sep);
      forall j | 0 <= j && j + |sep| <= i ensures !OccursAt(s[..i], sep, j) {
        assert s[..i][j..j + |sep|] == s[j..j + |sep|];
        assert !OccursAt(s, sep, j);
      }
    }
  }

  /** The pieces joined with the separator between them. */
  function Join(r: seq<string>, sep: string): string
  {
    if r == [] then []
    else if |r| == 1 then r[0]
    else r[0] + sep + Join(r[1..], sep)
  }

  /** Splitting and joining again gives the original string. */
  lemma {:induction false} SplitJoin(s: string, sep: string)
    requires sep != []
    ensures Join(Split(s, sep), sep) == s
    decreases |s|
  {
    var i := Find(s, sep);
    if i >= 0 {
      var rest := s[i + |sep|..];
      SplitJoin(rest, sep);
      assert s == s[..i] + sep + rest by {
        assert s[i..i + |sep|] == sep;
      }
    }
  }

  // ---------------------------------------------------------------------
  // Hexadecimal numbers
  // ---------------------------------------------------------------------

  predicate IsHexDigit(c: char)
  {
    '0' <= c <= '9' || 'a' <= c <= 'f' || 'A' <= c <= 'F'
  }

  function DigitValue(c: char): (d: nat)
    requires IsHexDigit(c)
    ensures d < 16
  {
    if '0' <= c <= '9' then c as int - '0' as int
    else if 'a' <= c <= 'f' then c as int - 'a' as int + 10
    else c as int - 'A' as int + 10
  }

  /** The digits of a Python hexadecimal literal after its `0x`: digits,
      each optionally preceded by one underscore. */
  predicate IsHexBody(s: string)
  {
    && s != []
    && IsHexDigit(s[|s| - 1])
    && (forall i :: 0 <= i < |s| ==> IsHexDigit(s[i]) || s[i] == '_')
    && (forall i :: 0 <= i < |s| - 1 && s[i] == '_' ==> s[i + 1] != '_')
  }

  /** The value of hexadecimal digits, underscores skipped. */
  function HexValue(s: string): nat
    requires forall i :: 0 <= i < |s| ==> IsHexDigit(s[i]) || s[i] == '_'
  {
    if s == [] then 0
    else
      var last := s[|s| - 1];
      if last == '_' then HexValue(s[..|s| - 1])
      else 16 * HexValue(s[..|s| - 1]) + DigitValue(last)
  }

  /** `int("0x" + x, 16)`: Python ignores whitespace at either end of the
      whole string, so only trailing whitespace in `x` is allowed; `-1`
      stands for the `ValueError`. */
  function ParseHex(x: string): (r: int)
    ensures r >= -1
    ensures r >= 0 <==> IsHexBody(StripEnd(x))
  {
    var body := StripEnd(x);
    if IsHexBody(body) then HexValue(body) else -1
  }

  /** The lower-case hexadecimal digits of `n`, at least one. */
  function ToHex(n: nat): (s: string)
    ensures s != [] && forall i :: 0 <= i < |s| ==> IsHexDigit(s[i]) && s[i] != '.' && s[i] != ';' && s[i] != '#'
  {
    var d := n % 16;
    var c := if d < 10 then ('0' as int + d) as char else ('a' as int + d - 10) as char;
    if n < 16 then [c] else ToHex(n / 16) + [c]
  }

  /** Reading back the digits of `n` gives `n`. */
  lemma {:induction false} ToHexParses(n: nat)
    ensures IsHexBody(ToHex(n)) && HexValue(ToHex(n)) == n
    decreases n
  {
    var s := ToHex(n);
    if n >= 16 {
      ToHexParses(n / 16);
      assert s[..|s| - 1] == ToHex(n / 16);
    }
  }

  lemma ToHexParseHex(n: nat)
    ensures ParseHex(ToHex(n)) == n
  {
    ToHexParses(n);
    assert StripEnd(ToHex(n)) == ToHex(n);
  }

  // ---------------------------------------------------------------------
  // One line of the data file
  // ---------------------------------------------------------------------

  /** A code-point range `[lo, hi]` (the script's two-element list). A range
      with `lo > hi` is accepted and covers nothing. */
  datatype Range = Range(lo: nat, hi: nat)

  /** What one line contributes. */
  datatype Parsed =
    | Blank            // nothing left once the comment is cut and the line stripped
    | OtherWidth       // an entry of a width class other than W and F
    | Wide(range: Range)
    | Malformed        // `int()` raises, or there is no field after the `;`

  /** The line up to its first `#`. */
  function CutComment(line: string): (r: string)
    ensures '#' !in r
    ensures r == line || (|r| < |line| && line[|r|] == '#' && r == line[..|r|])
  {
    var i := Find(line, "#");
    if i < 0 then
      assert forall j :: 0 <= j < |line| ==> line[j] != '#' by {
        forall j | 0 <= j < |line| ensures line[j] != '#' {
          assert !OccursAt(line, "#", j);
          assert line[j..j + 1] == [line[j]];
        }
      }
      line
    else
      assert forall j :: 0 <= j < i ==> line[j] != '#' by {
        forall j | 0 <= j < i ensures line[j] != '#' {
          assert !OccursAt(line, "#", j);
          assert line[j..j + 1] == [line[j]];
        }
      }
      line[..i]
  }

  /** The line without its comment, stripped. */
  function Content(line: string): string
  {
    Strip(CutComment(line))
  }

  /** The `;`-separated fields of a line's content, each stripped. */
  function Fields(content: string): (fs: seq<string>)
    ensures |fs| == |Split(content, ";")|
    ensures forall k :: 0 <= k < |fs| ==> fs[k] == Strip(Split(content, ";")[k])
  {
    var raw := Split(content, ";");
    seq(|raw|, k requires 0 <= k < |raw| => Strip(raw[k]))
  }

  /** The code points of a first field, split at `..`; `-1` for a piece
      that is not a hexadecimal number. */
  function Points(field: string): (ps: seq<int>)
    ensures |ps| == |Split(field, "..")|
    ensures forall k :: 0 <= k < |ps| ==> ps[k] == ParseHex(Split(field, "..")[k])
  {
    var pieces := Split(field, "..");
    seq(|pieces|, k requires 0 <= k < |pieces| => ParseHex(pieces[k]))
  }

  /** Whether every piece of the first field is a hexadecimal number. */
  predicate AllNumbers(ps: seq<int>)
  {
    forall k :: 0 <= k < |ps| ==> ps[k] >= 0
  }

  /** What a non-blank content says: a line whose first field has a piece
      that is not a hexadecimal number, or that has no second field, raises;
      a single code point is the range of that one point; a third piece is
      read but not used; classes other than `W` and `F` are skipped. */
  function ParseContent(content: string): (p: Parsed)
    requires content != []
    ensures !p.Blank?
    ensures p.Malformed? <==> !AllNumbers(Points(Fields(content)[0])) || |Fields(content)| < 2
    ensures p.Wide? ==> Fields(content)[1] in {"W", "F"}
    ensures p.OtherWidth? ==> Fields(content)[1] !in {"W", "F"}
  {
    var fs := Fields(content);
    var ps := Points(fs[0]);
    if !AllNumbers(ps) || |fs| < 2 then Malformed
    else
      var r := Range(ps[0], if |ps| == 1 then ps[0] else ps[1]);
      if fs[1] == "W" || fs[1] == "F" then Wide(r) else OtherWidth
  }

  /** The body of the script's reading loop for one line: the comment is
      cut, the rest stripped, and a blank line is skipped. */
  function ParseLine(line: string): (p: Parsed)
    ensures p.Blank? <==> AllPySpace(CutComment(line))
  {
    StripEmpty(CutComment(line));
    var c := Content(line);
    if c == [] then Blank else ParseContent(c)
  }

  /** `Find` meets `sep` right after a prefix that cannot start it. */
  lemma FindAfter(a: string, sep: string, b: string)
    requires sep != [] && forall i :: 0 <= i < |a| ==> a[i] != sep[0]
    ensures Find(a + sep + b, sep) == |a|
  {
    var s := a + sep + b;
    assert s[|a|..|a| + |sep|] == sep;
    assert OccursAt(s, sep, |a|);
    forall i | 0 <= i < |a|
      ensures !OccursAt(s, sep, i)
    {
      if i + |sep| <= |s| {
        assert s[i..i + |sep|][0] == a[i];
      }
    }
  }

  /** A string none of whose characters starts `sep` is one piece. */
  lemma SplitWhole(s: string, sep: string)
    requires sep != [] && forall i :: 0 <= i < |s| ==> s[i] != sep[0]
    ensures Split(s, sep) == [s]
  {
    forall i | 0 <= i
      ensures !OccursAt(s, sep, i)
    {
      if i + |sep| <= |s| {
        assert s[i..i + |sep|][0] == s[i];
      }
    }
  }

  /** Splitting at a first separator. */
  lemma SplitAfter(a: string, sep: string, b: string)
    requires sep != [] && forall i :: 0 <= i < |a| ==> a[i] != sep[0]
    ensures Split(a + sep + b, sep) == [a] + Split(b, sep)
  {
    FindAfter(a, sep, b);
    var s := a + sep + b;
    assert s[..|a|] == a && s[|a| + |sep|..] == b;
  }

  /** A field as the data file writes it: non-empty, without `;` or `#`,
      and without whitespace at its ends. */
  predicate IsFieldText(f: string)
  {
    && f != [] && !IsPySpace(f[0]) && !IsPySpace(f[|f| - 1])
    && forall i :: 0 <= i < |f| ==> f[i] != ';' && f[i] != '#'
  }

  /** An entry of two fields, `first;class`. */
  function Entry(first: string, width: string): string
  {
    first + ";" + width
  }

  /** An entry has no comment and no surrounding whitespace. */
  lemma EntryClean(first: string, width: string)
    requires IsFieldText(first) && IsFieldText(width)
    ensures Content(Entry(first, width)) == Entry(first, width)
  {
    var line := Entry(first, width);
    assert forall i :: 0 <= i < |line| ==> line[i] != '#' by {
      forall i | 0 <= i < |line| ensures line[i] != '#' {
        if i < |first| { assert line[i] == first[i]; }
        else if i > |first| { assert line[i] == width[i - |first| - 1]; }
      }
    }
    assert CutComment(line) == line;
    assert line[|line| - 1] == width[|width| - 1];
    StripKeeps(line);
  }

  /** The fields of an entry are its two parts. */
  lemma EntryFields(first: string, width: string)
    requires IsFieldText(first) && IsFieldText(width)
    ensures Fields(Entry(first, width)) == [first, width]
  {
    SplitAfter(first, ";", width);
    SplitWhole(width, ";");
    StripKeeps(first);
    StripKeeps(width);
  }

  /** An entry whose first field reads as a range is read as its class
      says. */
  lemma EntryParses(first: string, ps: seq<int>, r: Range, width: string)
    requires IsFieldText(first) && IsFieldText(width) && Points(first) == ps
    requires ps == [r.lo, r.hi] || (ps == [r.lo] && r.hi == r.lo)
    ensures ParseLine(Entry(first, width)) == if width == "W" || width == "F" then Wide(r) else OtherWidth
  {
    EntryClean(first, width);
    EntryFields(first, width);
    TwoFields(Entry(first, width), first, ps, r, width);
  }

  /** A content whose fields are a range and a class is read as the class
      says. */
  lemma TwoFields(content: string, first: string, ps: seq<int>, r: Range, width: string)
    requires content != [] && Fields(content) == [first, width] && Points(first) == ps
    requires ps == [r.lo, r.hi] || (ps == [r.lo] && r.hi == r.lo)
    ensures ParseContent(content) == if width == "W" || width == "F" then Wide(r) else OtherWidth
  {
    assert AllNumbers(ps);
  }

  /** The first field of a range entry, `lo..hi` in hexadecimal. */
  function RangeField(r: Range): (f: string)
    ensures IsFieldText(f)
  {
    var lo, hi := ToHex(r.lo), ToHex(r.hi);
    var f := lo + ".." + hi;
    assert forall i :: 0 <= i < |f| ==> f[i] != ';' && f[i] != '#' by {
      forall i | 0 <= i < |f| ensures f[i] != ';' && f[i] != '#' {
        if i < |lo| { assert f[i] == lo[i]; }
        else if i >= |lo| + 2 { assert f[i] == hi[i - |lo| - 2]; }
      }
    }
    assert f[|f| - 1] == hi[|hi| - 1];
    f
  }

  /** The first field reads as the two code points. */
  lemma RangeFieldPoints(r: Range)
    ensures Points(RangeField(r)) == [r.lo, r.hi]
  {
    SplitAfter(ToHex(r.lo), "..", ToHex(r.hi));
    SplitWhole(ToHex(r.hi), "..");
    ToHexParseHex(r.lo);
    ToHexParseHex(r.hi);
  }

  /** An entry `lo..hi;class` reads back as the range `[lo, hi]` when the
      class is `W` or `F`, and is skipped otherwise. */
  lemma RangeEntryParses(r: Range, width: string)
    requires IsFieldText(width)
    ensures ParseLine(Entry(RangeField(r), width)) == if width == "W" || width == "F" then Wide(r) else OtherWidth
  {
    RangeFieldPoints(r);
    EntryParses(RangeField(r), [r.lo, r.hi], r, width);
  }

  /** An entry `p;class` reads back as the one-point range `[p, p]` when the
      class is `W` or `F`, and is skipped otherwise. */
  lemma PointEntryParses(p: nat, width: string)
    requires IsFieldText(width)
    ensures ParseLine(Entry(ToHex(p), width)) == if width == "W" || width == "F" then Wide(Range(p, p)) else OtherWidth
  {
    HexField(p);
    PointFieldPoints(p);
    EntryParses(ToHex(p), [p], Range(p, p), width);
  }

  /** Hexadecimal digits make a field. */
  lemma HexField(p: nat)
    ensures IsFieldText(ToHex(p))
  {
    var f := ToHex(p);
    assert IsHexDigit(f[0]) && IsHexDigit(f[|f| - 1]);
  }

  /** A single hexadecimal number reads as one code point. */
  lemma PointFieldPoints(p: nat)
    ensures Points(ToHex(p)) == [p]
  {
    SplitWhole(ToHex(p), "..");
    ToHexParseHex(p);
  }

  /** Text from the first `#` on is a comment and changes nothing. */
  lemma CommentIgnored(line: string, comment: string)
    requires '#' !in line
    ensures ParseLine(line + "#" + comment) == ParseLine(line)
  {
    var s := line + "#" + comment;
    FindAfter(line, "#", comment);
    assert s[..|line|] == line;
    assert CutComment(s) == line;
    assert CutComment(line) == line;
  }

  // ---------------------------------------------------------------------
  // The reading loop
  // ---------------------------------------------------------------------

  /** Each line of the file, read. */
  function ParseAll(lines: seq<string>): (ps: seq<Parsed>)
    ensures |ps| == |lines|
  {
    if lines == [] then [] else ParseAll(lines[..|lines| - 1]) + [ParseLine(lines[|lines| - 1])]
  }

  lemma {:induction false} ParseAllAt(lines: seq<string>, i: int)
    requires 0 <= i < |lines|
    ensures ParseAll(lines)[i] == ParseLine(lines[i])
    decreases |lines|
  {
    if i < |lines| - 1 {
      var init := lines[..|lines| - 1];
      ParseAllAt(init, i);
      assert init[i] == lines[i];
    }
  }

  /** Whether no line makes the reading loop raise. */
  predicate NoneMalformed(ps: seq<Parsed>)
  {
    forall i :: 0 <= i < |ps| ==> !ps[i].Malformed?
  }

  /** The ranges of the `W` and `F` lines, in file order. */
  function WideRanges(ps: seq<Parsed>): seq<Range>
  {
    if ps == [] then []
    else
      var rest := WideRanges(ps[..|ps| - 1]);
      match ps[|ps| - 1]
      case Wide(r) => rest + [r]
      case _ => rest
  }

  /** A range is kept exactly when some line declares it wide. */
  lemma {:induction false} WideRangesFromLines(ps: seq<Parsed>)
    ensures forall r :: r in WideRanges(ps) <==> Wide(r) in ps
    decreases |ps|
  {
    if ps != [] {
      var init := ps[..|ps| - 1];
      WideRangesFromLines(init);
      assert ps == init + [ps[|ps| - 1]];
    }
  }

  lemma ParseAllStep(lines: seq<string>, i: int)
    requires 0 <= i < |lines|
    ensures ParseAll(lines[..i + 1]) == ParseAll(lines[..i]) + [ParseLine(lines[i])]
  {
    var l := lines[..i + 1];
    assert l[..i] == lines[..i] && l[i] == lines[i];
    assert ParseAll(l) == ParseAll(l[..|l| - 1]) + [ParseLine(l[|l| - 1])];
  }

  lemma KeepStep(ps: seq<Parsed>, p: Parsed)
    requires NoneMalformed(ps) && !p.Malformed?
    ensures NoneMalformed(ps + [p])
    ensures WideRanges(ps + [p]) == if p.Wide? then WideRanges(ps) + [p.range] else WideRanges(ps)
  {
    assert (ps + [p])[..|ps|] == ps;
  }

  /** A malformed line anywhere makes the whole file malformed. */
  lemma MalformedStays(lines: seq<string>, i: int)
    requires 0 <= i < |lines| && ParseLine(lines[i]).Malformed?
    ensures !NoneMalformed(ParseAll(lines))
  {
    ParseAllAt(lines, i);
  }

  /** The loop over the file's lines: `wide_ranges` receives the range of
      every `W` or `F` line; a malformed line raises, modelled by `ok`
      false. */
  method ReadRanges(lines: seq<string>) returns (ok: bool, ranges: seq<Range>)
    ensures ok <==> NoneMalformed(ParseAll(lines))
    ensures ok ==> ranges == WideRanges(ParseAll(lines))
  {
    ghost var ps: seq<Parsed> := [];
    ranges := [];
    for i := 0 to |lines|
      invariant ps == ParseAll(lines[..i])
      invariant NoneMalformed(ps)
      invariant ranges == WideRanges(ps)
    {
      var p := ParseLine(lines[i]);
      ParseAllStep(lines, i);
      if p.Malformed? {
        MalformedStays(lines, i);
        return false, [];
      }
      KeepStep(ps, p);
      ps := ps + [p];
      if p.Wide? {
        ranges := ranges + [p.range];
      }
    }
    assert lines[..|lines|] == lines;
    return true, ranges;
  }

  // ---------------------------------------------------------------------
  // Sorting the ranges
  // ---------------------------------------------------------------------

  predicate SortedByStart(rs: seq<Range>)
  {
    forall i, j :: 0 <= i < j < |rs| ==> rs[i].lo <= rs[j].lo
  }

  /** `wide_ranges.sort(key=lambda t: t[0])`, as an insertion sort in place:
      the ranges end up ordered by their first code point and are a
      permutation of the ranges before. */
  method SortByStart(a: array<Range>)
    modifies a
    ensures SortedByStart(a[..])
    ensures multiset(a[..]) == multiset(old(a[..]))
  {
    for i := 0 to a.Length
      invariant SortedByStart(a[..i])
      invariant multiset(a[..]) == multiset(old(a[..]))
    {
      InsertAt(a, i);
    }
  }

  /** One step of the insertion sort: `a[i]` is swapped down into the
      sorted prefix `a[..i]`. */
  method InsertAt(a: array<Range>, i: int)
    requires 0 <= i < a.Length && SortedByStart(a[..i])
    modifies a
    ensures SortedByStart(a[..i + 1])
    ensures multiset(a[..]) == multiset(old(a[..]))
  {
    var j := i;
    assert SortedBut(a[..], i, i);
    while j > 0 && a[j - 1].lo > a[j].lo
      invariant 0 <= j <= i
      invariant SortedBut(a[..], i, j) && LeastAfter(a[..], i, j)
      invariant multiset(a[..]) == multiset(old(a[..]))
    {
      ghost var before := a[..];
      SwapDown(a, j);
      SwapKeepsOrder(before, a[..], i, j);
      j := j - 1;
    }
    SortedAt(a[..], i, j);
  }

  /** The ranges up to `i` are in start order except possibly around the one
      at `j`. */
  ghost predicate SortedBut(s: seq<Range>, i: int, j: int)
    requires i < |s|
  {
    forall k, l :: 0 <= k < l <= i && l != j ==> s[k].lo <= s[l].lo
  }

  /** The range at `j` starts before every later one up to `i`. */
  ghost predicate LeastAfter(s: seq<Range>, i: int, j: int)
    requires 0 <= j <= i < |s|
  {
    forall l :: j < l <= i ==> s[j].lo < s[l].lo
  }

  /** Swapping the range at `j` with a predecessor that starts later moves
      the gap in the order one place down. */
  lemma SwapKeepsOrder(s: seq<Range>, t: seq<Range>, i: int, j: int)
    requires 0 < j <= i < |s| && t == s[j - 1 := s[j]][j := s[j - 1]] && s[j - 1].lo > s[j].lo
    requires SortedBut(s, i, j) && LeastAfter(s, i, j)
    ensures SortedBut(t, i, j - 1) && LeastAfter(t, i, j - 1)
  {
  }

  /** Once the range at `j` starts no earlier than its predecessor, the
      ranges up to `i` are in start order. */
  lemma SortedAt(s: seq<Range>, i: int, j: int)
    requires 0 <= j <= i < |s| && SortedBut(s, i, j) && LeastAfter(s, i, j)
    requires j > 0 ==> s[j - 1].lo <= s[j].lo
    ensures SortedByStart(s[..i + 1])
  {
  }

  /** Exchanges `a[j - 1]` and `a[j]`. */
  method SwapDown(a: array<Range>, j: int)
    requires 0 < j < a.Length
    modifies a
    ensures a[..] == old(a[..])[j - 1 := old(a[j])][j := old(a[j - 1])]
    ensures multiset(a[..]) == multiset(old(a[..]))
  {
    a[j - 1], a[j] := a[j], a[j - 1];
  }

  // ---------------------------------------------------------------------
  // The bit list
  // ---------------------------------------------------------------------

  /** Whether some range covers code point `c`. */
  predicate Covers(rs: seq<Range>, c: int)
  {
    exists i :: 0 <= i < |rs| && rs[i].lo <= c <= rs[i].hi
  }

  /** One past the largest end of a range: the length of the bit list. */
  function Width(rs: seq<Range>): (w: nat)
    ensures forall i :: 0 <= i < |rs| ==> rs[i].hi < w
    ensures rs != [] ==> exists i :: 0 <= i < |rs| && rs[i].hi + 1 == w
    ensures rs == [] ==> w == 0
  {
    if rs == [] then 0
    else
      var init := rs[..|rs| - 1];
      var w := Width(init);
      var h := rs[|rs| - 1].hi + 1;
      assert forall i :: 0 <= i < |init| ==> init[i] == rs[i];
      if w < h then h else w
  }

  /** Adding the next range in start order: below the current width the
      coverage does not change, and from there on only the new range
      covers. */
  lemma CoversStep(rs: seq<Range>, k: int)
    requires SortedByStart(rs) && 0 <= k < |rs|
    ensures forall c :: 0 <= c < Width(rs[..k]) ==> (Covers(rs[..k + 1], c) <==> Covers(rs[..k], c))
    ensures forall c {:trigger Covers(rs[..k + 1], c)} :: c >= Width(rs[..k]) ==> (Covers(rs[..k + 1], c) <==> rs[k].lo <= c <= rs[k].hi)
  {
    forall c | 0 <= c < Width(rs[..k]) ensures Covers(rs[..k + 1], c) <==> Covers(rs[..k], c) {
      CoversAt(rs, k, c);
    }
    forall c {:trigger Covers(rs[..k + 1], c)} | c >= Width(rs[..k])
      ensures Covers(rs[..k + 1], c) <==> rs[k].lo <= c <= rs[k].hi
    {
      CoversAt(rs, k, c);
    }
  }

  /** `CoversStep` at one code point. */
  lemma CoversAt(rs: seq<Range>, k: int, c: int)
    requires SortedByStart(rs) && 0 <= k < |rs|
    ensures c < Width(rs[..k]) ==> (Covers(rs[..k + 1], c) <==> Covers(rs[..k], c))
    ensures c >= Width(rs[..k]) ==> (Covers(rs[..k + 1], c) <==> rs[k].lo <= c <= rs[k].hi)
  {
    var init, next := rs[..k], rs[..k + 1];
    assert forall i :: 0 <= i < k ==> init[i] == rs[i] && next[i] == rs[i];
    assert next[k] == rs[k];
    if c < Width(init) && rs[k].lo <= c <= rs[k].hi {
      var i :| 0 <= i < |init| && init[i].hi + 1 == Width(init);
      assert init[i].lo <= rs[k].lo;
      assert Covers(init, c);
    }
  }

  /** The bit-list loop: for each range in turn, bits are appended up to its
      end, `'1'` inside it and `'0'` before it. The list is as long as the
      largest end plus one; when the ranges are sorted by start, bit `c` is
      `'1'` exactly when some range covers `c`. */
  method BuildBits(ranges: seq<Range>) returns (bits: seq<char>)
    ensures |bits| == Width(ranges)
    ensures forall c :: 0 <= c < |bits| ==> bits[c] == '0' || bits[c] == '1'
    ensures SortedByStart(ranges) ==> forall c :: 0 <= c < |bits| ==> (bits[c] == '1' <==> Covers(ranges, c))
  {
    bits := [];
    for k := 0 to |ranges|
      invariant |bits| == Width(ranges[..k])
      invariant forall c :: 0 <= c < |bits| ==> bits[c] == '0' || bits[c] == '1'
      invariant SortedByStart(ranges) ==> forall c :: 0 <= c < |bits| ==> (bits[c] == '1' <==> Covers(ranges[..k], c))
    {
      ghost var prefix := bits;
      bits := ExtendTo(bits, ranges[k]);
      WidthStep(ranges, k);
      if SortedByStart(ranges) {
        BitsStep(ranges, k, prefix, bits);
      }
    }
    assert ranges[..|ranges|] == ranges;
  }

  /** The inner loop for one range: bits are appended up to the range's
      end, `'1'` inside the range and `'0'` before it. */
  method ExtendTo(bits: seq<char>, r: Range) returns (out: seq<char>)
    ensures bits <= out
    ensures |out| == if |bits| <= r.hi then r.hi + 1 else |bits|
    ensures forall c :: |bits| <= c < |out| ==> (out[c] == '1' <==> r.lo <= c <= r.hi)
    ensures forall c :: |bits| <= c < |out| ==> out[c] == '0' || out[c] == '1'
  {
    out := bits;
    while |out| <= r.hi
      invariant bits <= out && |out| <= if |bits| <= r.hi then r.hi + 1 else |bits|
      invariant forall c :: |bits| <= c < |out| ==> (out[c] == '1' <==> r.lo <= c <= r.hi)
      invariant forall c :: |bits| <= c < |out| ==> out[c] == '0' || out[c] == '1'
      decreases r.hi + 1 - |out|
    {
      var bit := if r.lo <= |out| <= r.hi then '1' else '0';
      out := out + [bit];
    }
  }

  /** The width after one more range is the larger of the width so far and
      that range's end plus one. */
  lemma WidthStep(rs: seq<Range>, k: int)
    requires 0 <= k < |rs|
    ensures Width(rs[..k + 1]) == if Width(rs[..k]) < rs[k].hi + 1 then rs[k].hi + 1 else Width(rs[..k])
  {
    var next := rs[..k + 1];
    assert next[..k] == rs[..k] && next[k] == rs[k];
  }

  /** The bits appended for range `k` extend a list that described the
      coverage of the first `k` ranges to one that describes the first
      `k + 1`. */
  lemma BitsStep(rs: seq<Range>, k: int, prefix: seq<char>, bits: seq<char>)
    requires SortedByStart(rs) && 0 <= k < |rs|
    requires |prefix| == Width(rs[..k])
    requires forall c :: 0 <= c < |prefix| ==> (prefix[c] == '1' <==> Covers(rs[..k], c))
    requires prefix <= bits
    requires forall c :: |prefix| <= c < |bits| ==> (bits[c] == '1' <==> rs[k].lo <= c <= rs[k].hi)
    ensures forall c :: 0 <= c < |bits| ==> (bits[c] == '1' <==> Covers(rs[..k + 1], c))
  {
    CoversStep(rs, k);
    forall c | 0 <= c < |bits|
      ensures bits[c] == '1' <==> Covers(rs[..k + 1], c)
    {
      if c < |prefix| {
        assert bits[c] == prefix[c];
      }
    }
  }

  // ---------------------------------------------------------------------
  // The verification loops
  // ---------------------------------------------------------------------

  /** Bit `c`, or a blank past the end (where the script's indexing would
      raise). */
  function Bit(bits: seq<char>, c: int): char
  {
    if 0 <= c < |bits| then bits[c] else ' '
  }

  /** Every code point inside a range has bit `'1'`. */
  predicate OnesInRanges(rs: seq<Range>, bits: seq<char>)
  {
    forall k, c :: 0 <= k < |rs| && rs[k].lo <= c <= rs[k].hi ==> Bit(bits, c) == '1'
  }

  /** There is a first range, and every code point before it has bit `'0'`. */
  predicate ZerosBefore(rs: seq<Range>, bits: seq<char>)
  {
    rs != [] && forall c :: 0 <= c < rs[0].lo ==> Bit(bits, c) == '0'
  }

  /** Every code point strictly between the end of a range and the start of
      the next has bit `'0'`. */
  predicate ZerosBetween(rs: seq<Range>, bits: seq<char>)
  {
    forall k, c :: 0 <= k < |rs| - 1 && rs[k].hi < c < rs[k + 1].lo ==> Bit(bits, c) == '0'
  }

  /** The three checks of the script, which raises when one fails. */
  predicate TableChecks(rs: seq<Range>, bits: seq<char>)
  {
    OnesInRanges(rs, bits) && ZerosBefore(rs, bits) && ZerosBetween(rs, bits)
  }

  /** The first verification loop: every point of every range is `'1'`. */
  method CheckOnes(rs: seq<Range>, bits: seq<char>) returns (ok: bool)
    ensures ok <==> OnesInRanges(rs, bits)
  {
    for k := 0 to |rs|
      invariant forall k', c :: 0 <= k' < k && rs[k'].lo <= c <= rs[k'].hi ==> Bit(bits, c) == '1'
    {
      var c := rs[k].lo;
      while c <= rs[k].hi
        invariant rs[k].lo <= c
        invariant forall c' :: rs[k].lo <= c' < c ==> Bit(bits, c') == '1'
        decreases rs[k].hi + 1 - c
      {
        if c >= |bits| || bits[c] != '1' {
          assert Bit(bits, c) != '1';
          return false;
        }
        c := c + 1;
      }
    }
    return true;
  }

  /** The second verification loop: every point before the first range is
      `'0'`; with no range at all, reading the first one raises. */
  method CheckBefore(rs: seq<Range>, bits: seq<char>) returns (ok: bool)
    ensures ok <==> ZerosBefore(rs, bits)
  {
    if rs == [] {
      return false;
    }
    var c := 0;
    while c < rs[0].lo
      invariant 0 <= c <= rs[0].lo
      invariant forall c' :: 0 <= c' < c ==> Bit(bits, c') == '0'
    {
      if c >= |bits| || bits[c] != '0' {
        assert Bit(bits, c) != '0';
        return false;
      }
      c := c + 1;
    }
    return true;
  }

  /** The third verification loop: every gap between consecutive ranges is
      `'0'`. */
  method CheckBetween(rs: seq<Range>, bits: seq<char>) returns (ok: bool)
    ensures ok <==> ZerosBetween(rs, bits)
  {
    var k := 0;
    while k < |rs| - 1
      invariant 0 <= k <= |rs| || (rs == [] && k == 0)
      invariant forall k', c :: 0 <= k' < k && k' < |rs| - 1 && rs[k'].hi < c < rs[k' + 1].lo ==> Bit(bits, c) == '0'
    {
      var c := rs[k].hi + 1;
      while c < rs[k + 1].lo
        invariant rs[k].hi < c
        invariant forall c' :: rs[k].hi < c' < c ==> Bit(bits, c') == '0'
        decreases rs[k + 1].lo - c
      {
        if c >= |bits| || bits[c] != '0' {
          assert Bit(bits, c) != '0';
          return false;
        }
        c := c + 1;
      }
      k := k + 1;
    }
    return true;
  }

  /** The three loops in the script's order. */
  method CheckTable(rs: seq<Range>, bits: seq<char>) returns (ok: bool)
    ensures ok <==> TableChecks(rs, bits)
  {
    ok := CheckOnes(rs, bits);
    if ok {
      ok := CheckBefore(rs, bits);
    }
    if ok {
      ok := CheckBetween(rs, bits);
    }
  }

  /** Every range starts no later than it ends. */
  predicate Proper(rs: seq<Range>)
  {
    forall i :: 0 <= i < |rs| ==> rs[i].lo <= rs[i].hi
  }

  /** Different ranges do not overlap (the same range may repeat). */
  predicate Apart(rs: seq<Range>)
  {
    forall i, j :: 0 <= i < |rs| && 0 <= j < |rs| && rs[i] != rs[j] ==> rs[i].hi < rs[j].lo || rs[j].hi < rs[i].lo
  }

  /** Consecutive ranges are the same range or leave a gap between them. */
  predicate Consecutive(rs: seq<Range>)
  {
    forall k :: 0 <= k < |rs| - 1 ==> rs[k] == rs[k + 1] || rs[k].hi < rs[k + 1].lo
  }

  /** In a proper consecutive list the ends never go down. */
  lemma {:induction false} EndsRise(rs: seq<Range>, i: int, k: int)
    requires Proper(rs) && Consecutive(rs) && 0 <= i <= k < |rs|
    ensures rs[i].hi <= rs[k].hi
    decreases k - i
  {
    if i < k {
      EndsRise(rs, i, k - 1);
    }
  }

  /** The bit list of proper, sorted, non-overlapping ranges passes the
      script's three checks. */
  lemma TableHolds(rs: seq<Range>, bits: seq<char>)
    requires rs != [] && SortedByStart(rs) && Proper(rs) && Consecutive(rs)
    requires |bits| == Width(rs) && forall c :: 0 <= c < |bits| ==> bits[c] == '0' || bits[c] == '1'
    requires forall c :: 0 <= c < |bits| ==> (bits[c] == '1' <==> Covers(rs, c))
    ensures TableChecks(rs, bits)
  {
    OnesHold(rs, bits);
    BeforeHolds(rs, bits);
    forall k, c | 0 <= k < |rs| - 1 && rs[k].hi < c < rs[k + 1].lo
      ensures Bit(bits, c) == '0'
    {
      GapHolds(rs, bits, k, c);
    }
  }

  /** Every point of a range is below the width and so has bit `'1'`. */
  lemma OnesHold(rs: seq<Range>, bits: seq<char>)
    requires |bits| == Width(rs)
    requires forall c :: 0 <= c < |bits| ==> (bits[c] == '1' <==> Covers(rs, c))
    ensures OnesInRanges(rs, bits)
  {
    forall k, c | 0 <= k < |rs| && rs[k].lo <= c <= rs[k].hi
      ensures Bit(bits, c) == '1'
    {
      assert c < |bits|;
    }
  }

  /** No range covers a point before the first start of a sorted list. */
  lemma BeforeHolds(rs: seq<Range>, bits: seq<char>)
    requires rs != [] && SortedByStart(rs) && Proper(rs)
    requires |bits| == Width(rs) && forall c :: 0 <= c < |bits| ==> bits[c] == '0' || bits[c] == '1'
    requires forall c :: 0 <= c < |bits| ==> (bits[c] == '1' <==> Covers(rs, c))
    ensures ZerosBefore(rs, bits)
  {
    forall c | 0 <= c < rs[0].lo
      ensures Bit(bits, c) == '0'
    {
      var i :| 0 <= i < |rs| && rs[i].hi + 1 == Width(rs);
      assert rs[0].lo <= rs[i].lo;
      assert c < |bits|;
    }
  }

  /** No range covers a point in the gap after range `k`. */
  lemma GapHolds(rs: seq<Range>, bits: seq<char>, k: int, c: int)
    requires SortedByStart(rs) && Proper(rs) && Consecutive(rs)
    requires |bits| == Width(rs) && forall c :: 0 <= c < |bits| ==> bits[c] == '0' || bits[c] == '1'
    requires forall c :: 0 <= c < |bits| ==> (bits[c] == '1' <==> Covers(rs, c))
    requires 0 <= k < |rs| - 1 && rs[k].hi < c < rs[k + 1].lo
    ensures Bit(bits, c) == '0'
  {
    assert c < rs[k + 1].hi < Width(rs);
    forall i | 0 <= i < |rs|
      ensures !(rs[i].lo <= c <= rs[i].hi)
    {
      if i <= k {
        EndsRise(rs, i, k);
      } else {
        assert rs[k + 1].lo <= rs[i].lo;
      }
    }
    assert !Covers(rs, c);
  }

  /** Sorting proper, non-overlapping ranges makes them consecutive. */
  lemma SortedConsecutive(sorted: seq<Range>, rs: seq<Range>)
    requires multiset(sorted) == multiset(rs) && SortedByStart(sorted) && Proper(rs) && Apart(rs)
    ensures Proper(sorted) && Consecutive(sorted)
  {
    forall k | 0 <= k < |sorted|
      ensures sorted[k] in rs
    {
      assert sorted[k] in multiset(sorted);
    }
    forall k | 0 <= k < |sorted| - 1
      ensures sorted[k] == sorted[k + 1] || sorted[k].hi < sorted[k + 1].lo
    {
      var i :| 0 <= i < |rs| && rs[i] == sorted[k];
      var j :| 0 <= j < |rs| && rs[j] == sorted[k + 1];
    }
  }

  /** Reordering the ranges changes neither which ranges there are nor what
      they cover. */
  lemma ReorderedCover(sorted: seq<Range>, rs: seq<Range>)
    requires multiset(sorted) == multiset(rs)
    ensures forall c :: Covers(sorted, c) <==> Covers(rs, c)
    ensures forall r :: r in sorted <==> r in rs
  {
    forall r ensures r in sorted <==> r in rs {
      assert r in sorted <==> r in multiset(sorted);
    }
    forall c | Covers(sorted, c) ensures Covers(rs, c) {
      var i :| 0 <= i < |sorted| && sorted[i].lo <= c <= sorted[i].hi;
      assert sorted[i] in rs;
    }
    forall c | Covers(rs, c) ensures Covers(sorted, c) {
      var i :| 0 <= i < |rs| && rs[i].lo <= c <= rs[i].hi;
      assert rs[i] in sorted;
    }
  }

  // ---------------------------------------------------------------------
  // Output
  // ---------------------------------------------------------------------

  /** `bits.reverse()`: the list is reversed in place, by swapping from both
      ends, because the `std::bitset` constructor reads the most significant
      bit first. */
  method ReverseInPlace(a: array<char>)
    modifies a
    ensures a[..] == Reverse(old(a[..]))
  {
    var lo, hi := 0, a.Length - 1;
    while lo < hi
      invariant 0 <= lo <= hi + 1 && hi < a.Length && lo + hi == a.Length - 1
      invariant forall j :: 0 <= j < lo || hi < j < a.Length ==> a[j] == old(a[a.Length - 1 - j])
      invariant forall j :: lo <= j <= hi ==> a[j] == old(a[j])
      decreases hi - lo
    {
      a[lo], a[hi] := a[hi], a[lo];
      lo, hi := lo + 1, hi - 1;
    }
  }

  /** The text split into pieces of `OutputWidth` characters, the last one
      possibly shorter. */
  function Chunks(s: string): seq<string>
    decreases |s|
  {
    if s == [] then []
    else if |s| <= OutputWidth then [s]
    else [s[..OutputWidth]] + Chunks(s[OutputWidth..])
  }

  /** The pieces put back together. */
  function Concat(cs: seq<string>): string
  {
    if cs == [] then [] else cs[0] + Concat(cs[1..])
  }

  /** Chunking loses nothing and reorders nothing. */
  lemma {:induction false} ChunksConcat(s: string)
    ensures Concat(Chunks(s)) == s
    decreases |s|
  {
    if |s| > OutputWidth {
      ChunksConcat(s[OutputWidth..]);
      assert s == s[..OutputWidth] + s[OutputWidth..];
    }
  }

  /** Every chunk has `OutputWidth` characters except the last, which has
      between one and `OutputWidth`; there are `ceil(|s| / OutputWidth)` of
      them. */
  lemma {:induction false} ChunksSizes(s: string)
    ensures |Chunks(s)| == (|s| + OutputWidth - 1) / OutputWidth
    ensures forall i :: 0 <= i < |Chunks(s)| - 1 ==> |Chunks(s)[i]| == OutputWidth
    ensures Chunks(s) != [] ==> 0 < |Chunks(s)[|Chunks(s)| - 1]| <= OutputWidth
    decreases |s|
  {
    if |s| > OutputWidth {
      ChunksSizes(s[OutputWidth..]);
      var rest := Chunks(s[OutputWidth..]);
      assert Chunks(s) == [s[..OutputWidth]] + rest;
    }
  }

  /** An output line: the chunk quoted and indented by eight spaces. */
  function Quoted(chunk: string): string
  {
    "        \"" + chunk + "\""
  }

  lemma ChunksStep(text: string, i: int, next: int)
    requires 0 <= i < |text| && next == (if i + OutputWidth < |text| then i + OutputWidth else |text|)
    ensures Chunks(text[i..]) == [text[i..next]] + Chunks(text[next..])
  {
    var s := text[i..];
    if |s| > OutputWidth {
      assert s[..OutputWidth] == text[i..next];
      assert s[OutputWidth..] == text[next..];
    } else {
      assert s == text[i..next] && text[next..] == [];
    }
  }

  /** The chunking loop: one quoted line per 100 characters of the text. */
  method ChunkLines(text: string) returns (rows: seq<string>)
    ensures |rows| == |Chunks(text)|
    ensures forall i :: 0 <= i < |rows| ==> rows[i] == Quoted(Chunks(text)[i])
  {
    rows := [];
    ghost var done: seq<string> := [];
    var i := 0;
    while i < |text|
      invariant 0 <= i <= |text|
      invariant done + Chunks(text[i..]) == Chunks(text)
      invariant |rows| == |done| && forall j :: 0 <= j < |rows| ==> rows[j] == Quoted(done[j])
      decreases |text| - i
    {
      var next := if i + OutputWidth < |text| then i + OutputWidth else |text|;
      ChunksStep(text, i, next);
      rows := rows + [Quoted(text[i..next])];
      done := done + [text[i..next]];
      i := next;
    }
    assert text[|text|..] == [];
  }

  // ---------------------------------------------------------------------
  // The whole script
  // ---------------------------------------------------------------------

  /** The script's result: it fails (raises), or it yields the table size
      `N` of `std::bitset<N>`, the reversed bit text, and the quoted lines
      that spell that text. */
  datatype Table = Failed | Table(size: nat, text: string, rows: seq<string>)

  /** What a table built from the ranges `rs` says: its size is the largest
      end plus one, character `size - 1 - c` of the text is `'1'` exactly
      when a range covers code point `c` and `'0'` otherwise, and the rows
      are the text in quoted chunks. */
  predicate Describes(t: Table, rs: seq<Range>)
  {
    && t.Table?
    && |t.text| == t.size
    && (forall r :: r in rs ==> r.hi < t.size)
    && (exists r :: r in rs && r.hi + 1 == t.size)
    && (forall c :: 0 <= c < t.size ==> (t.text[t.size - 1 - c] == '1' <==> Covers(rs, c)))
    && (forall c :: 0 <= c < t.size ==> t.text[c] == '0' || t.text[c] == '1')
    && |t.rows| == |Chunks(t.text)|
    && (forall i :: 0 <= i < |t.rows| ==> t.rows[i] == Quoted(Chunks(t.text)[i]))
  }

  /** The script from the lines of `EastAsianWidth.txt` to the table. It
      fails on a malformed line and when no line is wide; it succeeds when
      the wide ranges are proper and do not overlap; and what it yields
      describes the wide ranges. */
  method Generate(lines: seq<string>) returns (t: Table)
    ensures !NoneMalformed(ParseAll(lines)) ==> t.Failed?
    ensures WideRanges(ParseAll(lines)) == [] ==> t.Failed?
    ensures (&& NoneMalformed(ParseAll(lines)) && WideRanges(ParseAll(lines)) != []
             && Proper(WideRanges(ParseAll(lines))) && Apart(WideRanges(ParseAll(lines)))) ==> t.Table?
    ensures t.Table? ==> Describes(t, WideRanges(ParseAll(lines)))
  {
    var ok, ranges := ReadRanges(lines);
    if !ok {
      return Failed;
    }
    t := Tabulate(ranges);
  }

  /** Everything after the reading loop: sort, build the bits, check them,
      reverse them and cut them into lines. */
  method Tabulate(ranges: seq<Range>) returns (t: Table)
    ensures ranges == [] ==> t.Failed?
    ensures ranges != [] && Proper(ranges) && Apart(ranges) ==> t.Table?
    ensures t.Table? ==> Describes(t, ranges)
  {
    var a := new Range[|ranges|](i requires 0 <= i < |ranges| => ranges[i]);
    assert a[..] == ranges;
    SortByStart(a);
    var sorted := a[..];
    ReorderedCover(sorted, ranges);
    var bits := BuildBits(sorted);
    if ranges != [] && Proper(ranges) && Apart(ranges) {
      SortedConsecutive(sorted, ranges);
      TableHolds(sorted, bits);
    }
    var good := CheckTable(sorted, bits);
    if !good {
      return Failed;
    }
    var b := new char[|bits|](i requires 0 <= i < |bits| => bits[i]);
    assert b[..] == bits;
    ReverseInPlace(b);
    var text := b[..];
    var rows := ChunkLines(text);
    t := Table(|bits|, text, rows);
    Described(t, sorted, ranges, bits);
  }

  /** The pieces of `Describes` for the table built from the sorted ranges. */
  lemma Described(t: Table, sorted: seq<Range>, rs: seq<Range>, bits: seq<char>)
    requires t.Table? && sorted != [] && SortedByStart(sorted) && multiset(sorted) == multiset(rs)
    requires |bits| == Width(sorted) && t.size == |bits| && t.text == Reverse(bits)
    requires forall c :: 0 <= c < |bits| ==> bits[c] == '0' || bits[c] == '1'
    requires forall c :: 0 <= c < |bits| ==> (bits[c] == '1' <==> Covers(sorted, c))
    requires |t.rows| == |Chunks(t.text)| && forall i :: 0 <= i < |t.rows| ==> t.rows[i] == Quoted(Chunks(t.text)[i])
    ensures Describes(t, rs)
  {
    ReorderedCover(sorted, rs);
    var i :| 0 <= i < |sorted| && sorted[i].hi + 1 == t.size;
    assert sorted[i] in rs;
    forall r | r in rs
      ensures r.hi < t.size
    {
      assert r in sorted;
    }
  }
}
