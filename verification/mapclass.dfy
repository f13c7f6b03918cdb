/**
 * The visualizer's map-file reader: four header lines (the second giving the height, the
 * third the width), then one row per line where every character other than `.` is an
 * obstacle, stored under the text key `(x, y)` of its coordinate.
 */
module MapClasses {
  import opened Wrappers
  import opened Decimal
  import Filters

  /** `Coordinate.toString`: `(x, y)`. */
  function Key(x: int, y: int): string
  {
    "(" + IntToString(x) + ", " + IntToString(y) + ")"
  }

  /** Different coordinates have different keys. */
  lemma KeyInjective(x: int, y: int, a: int, b: int)
    ensures Key(x, y) == Key(a, b) <==> x == a && y == b
  {
    if Key(x, y) == Key(a, b) {
      KeysAgree(x, y, a, b);
    }
  }

  lemma KeysAgree(x: int, y: int, a: int, b: int)
    requires Key(x, y) == Key(a, b)
    ensures x == a && y == b
  {
    var X, Y, A, B := IntToString(x), IntToString(y), IntToString(a), IntToString(b);
    KeyShape(x, y);
    KeyShape(a, b);
    CommaSplit(X, " " + Y + ")", A, " " + B + ")");
    assert Y == (" " + Y + ")")[1..|Y| + 1];
    assert B == (" " + B + ")")[1..|B| + 1];
    IntToStringInjective(x, a);
    IntToStringInjective(y, b);
  }

  /** After the opening parenthesis, a key is `x`, a comma, then the rest. */
  lemma KeyShape(x: int, y: int)
    ensures Key(x, y)[1..] == IntToString(x) + [','] + (" " + IntToString(y) + ")")
  {
    var X, Y := IntToString(x), IntToString(y);
    assert Key(x, y) == ['('] + (X + [','] + (" " + Y + ")"));
  }

  /** Text cut at its first comma: equal texts have equal parts before and after it. */
  lemma CommaSplit(x: string, y: string, a: string, b: string)
    requires ',' !in x && ',' !in a && x + [','] + y == a + [','] + b
    ensures x == a && y == b
  {
    IndexOfAfter(x, ',', y);
    IndexOfAfter(a, ',', b);
    assert x == (x + [','] + y)[..|x|];
    assert a == (a + [','] + b)[..|a|];
    assert y == (x + [','] + y)[|x| + 1..];
    assert b == (a + [','] + b)[|a| + 1..];
  }

  predicate NotCr(c: char) { c != '\r' }

  /** The text with every `\r` removed: the other characters, in order. */
  function RemoveCr(s: string): (r: string)
    ensures '\r' !in r
    ensures Filters.Kept(s, NotCr, r)
  {
    if s == [] then
      Filters.KeptEmpty(NotCr);
      []
    else
      var rest := RemoveCr(s[1..]);
      Filters.KeptCons(s[0], s[1..], NotCr, rest);
      assert [s[0]] + s[1..] == s;
      if s[0] != '\r' then [s[0]] + rest
      else
        assert [] + rest == rest;
        rest
  }

  /** A line that `trim()` does not empty. */
  predicate Solid(l: string) { Trim(JavaScript, l) != [] }

  /** The lines that are not blank, in order and with their repetitions. */
  function NonBlank(lines: seq<string>): (r: seq<string>)
    ensures |r| <= |lines|
    ensures forall k :: 0 <= k < |r| ==> r[k] in lines && Trim(JavaScript, r[k]) != []
    ensures forall l :: l in lines && Trim(JavaScript, l) != [] ==> l in r
    ensures Filters.Kept(lines, Solid, r)
  {
    if lines == [] then
      Filters.KeptEmpty(Solid);
      []
    else
      var rest := NonBlank(lines[1..]);
      Filters.KeptCons(lines[0], lines[1..], Solid, rest);
      assert [lines[0]] + lines[1..] == lines;
      if Solid(lines[0]) then [lines[0]] + rest
      else
        assert [] + rest == rest;
        rest
  }

  /** The non-blank lines of the file, carriage returns removed. */
  function MapLines(content: string): seq<string>
  {
    NonBlank(Split(RemoveCr(content), '\n'))
  }

  /** `line.split(" ")[1]`: the second space-separated token, undefined when there is none. */
  function Token1(line: string): (r: Option<string>)
    ensures r.None? <==> ' ' !in line
  {
    var parts := Split(line, ' ');
    if |parts| >= 2 then Some(parts[1])
    else
      JoinSplit(line, ' ');
      None
  }

  /** `Number(line.split(" ")[1])`: a header line's value. */
  function HeaderNumber(line: string): Number
  {
    JsNumberOf(Token1(line))
  }

  /** The keys of the cells `x < n` of row `y` that are not `.`. */
  function RowKeys(row: string, y: int, n: nat): set<string>
    requires n <= |row|
  {
    if n == 0 then {}
    else RowKeys(row, y, n - 1) + (if row[n - 1] != '.' then {Key(n - 1, y)} else {})
  }

  /** A coordinate's key is among the row keys iff it is a cell `x < n` of that row that is not `.`. */
  lemma {:induction false} RowKeysSpec(row: string, y: int, n: nat, a: int, b: int)
    requires n <= |row|
    ensures Key(a, b) in RowKeys(row, y, n) <==> b == y && 0 <= a < n && row[a] != '.'
  {
    if n > 0 {
      RowKeysSpec(row, y, n - 1, a, b);
      KeyInOne(a, b, n - 1, y, row[n - 1] != '.');
    }
  }

  /** A key is in the set holding at most the key of `(x, y)` iff it is that coordinate's and the set is not empty. */
  lemma KeyInOne(a: int, b: int, x: int, y: int, keep: bool)
    ensures Key(a, b) in (if keep then {Key(x, y)} else {}) <==> keep && a == x && b == y
  {
    if keep {
      KeyInjective(a, b, x, y);
    }
  }

  /** The keys of the cells of the first `m` rows, each read up to `width`, that are not `.`. */
  function GridKeys(rows: seq<string>, width: nat, m: nat): (r: set<string>)
    requires m <= |rows| && forall j :: 0 <= j < m ==> |rows[j]| == width
  {
    if m == 0 then {} else GridKeys(rows, width, m - 1) + RowKeys(rows[m - 1], m - 1, width)
  }

  /** A coordinate's key is among the grid keys iff it is a cell of the grid that is not `.`. */
  lemma {:induction false} GridKeysSpec(rows: seq<string>, width: nat, m: nat, x: int, y: int)
    requires m <= |rows| && forall j :: 0 <= j < m ==> |rows[j]| == width
    ensures Key(x, y) in GridKeys(rows, width, m) <==> 0 <= y < m && 0 <= x < width && rows[y][x] != '.'
  {
    if m > 0 {
      GridKeysSpec(rows, width, m - 1, x, y);
      RowKeysSpec(rows[m - 1], m - 1, width, x, y);
    }
  }

  class MapClass {
    var width: Number
    var height: Number
    var obstacles: set<string>

    /** The field initialisers: zero size, no obstacles. */
    constructor ()
      ensures width == Num(0) && height == Num(0) && obstacles == {}
    {
      width, height, obstacles := Num(0), Num(0), {};
    }

    /**
     * `parseGraph`: checks the line count and the height, records the size, then files every
     * non-`.` cell row by row; a row of the wrong width throws.
     */
    method ParseGraph(content: string) returns (err: Option<string>)
      modifies this
      ensures Parsed(MapLines(content), err)
    {
      err := ParseLines(MapLines(content));
    }

    /** What `parseGraph` leaves behind after reading the non-blank `lines`. */
    twostate predicate Parsed(lines: seq<string>, new err: Option<string>)
      reads this
    {
      && (|lines| < 4 ==> err == Some("Invalid map file") && unchanged(this))
      && (|lines| >= 4 && HeaderNumber(lines[1]) != Num(|lines| - 4) ==>
            err == Some("Invalid map file, check height") && unchanged(this))
      && (|lines| >= 4 && HeaderNumber(lines[1]) == Num(|lines| - 4) ==>
            height == Num(|lines| - 4) && width == HeaderNumber(lines[2])
            && (err.None? <==> forall y :: 4 <= y < |lines| ==> width == Num(|lines[y]|))
            && (err.Some? ==> err == Some("Invalid map file, check width"))
            && obstacles == old(obstacles) + Filed(lines[4..], width, FirstBad(lines[4..], width, 0))
            && (err.None? && |lines| > 4 ==> obstacles == old(obstacles) + GridKeys(lines[4..], |lines[4]|, |lines| - 4))
            && (err.None? && |lines| == 4 ==> obstacles == old(obstacles)))
    }

    method ParseLines(lines: seq<string>) returns (err: Option<string>)
      modifies this
      ensures Parsed(lines, err)
    {
      if |lines| < 4 {
        return Some("Invalid map file");
      }
      var h := HeaderNumber(lines[1]);
      if h != Num(|lines| - 4) {
        return Some("Invalid map file, check height");
      }
      height := h;
      var w := HeaderNumber(lines[2]);
      width := w;
      var graph := lines[4..];
      var keys, ok := FileRows(graph, w);
      assert forall y :: 4 <= y < |lines| ==> graph[y - 4] == lines[y];
      assert ok <==> forall y :: 4 <= y < |lines| ==> w == Num(|lines[y]|) by {
        if ok {
          forall y | 4 <= y < |lines|
            ensures w == Num(|lines[y]|)
          {
            assert w == Num(|graph[y - 4]|);
          }
        } else {
          var j :| 0 <= j < |graph| && w != Num(|graph[j]|);
          assert w != Num(|lines[j + 4]|);
        }
      }
      obstacles := obstacles + keys;
      if !ok {
        return Some("Invalid map file, check width");
      }
      err := None;
    }
  }

  /** The first row of `graph` from `y` on whose length is not `width`, or `|graph|` when there is none. */
  function FirstBad(graph: seq<string>, width: Number, y: nat): (b: nat)
    requires y <= |graph|
    ensures y <= b <= |graph|
    ensures forall j :: y <= j < b ==> width == Num(|graph[j]|)
    ensures b < |graph| ==> width != Num(|graph[b]|)
    decreases |graph| - y
  {
    if y == |graph| || width != Num(|graph[y]|) then y else FirstBad(graph, width, y + 1)
  }

  /** The keys of the non-`.` cells of the first `b` rows, which all have `width` characters. */
  function Filed(graph: seq<string>, width: Number, b: nat): set<string>
    requires b <= |graph| && forall j :: 0 <= j < b ==> width == Num(|graph[j]|)
  {
    if b == 0 then {} else GridKeys(graph, |graph[0]|, b)
  }

  /**
   * The row loop of `parseGraph`: every row must have `width` characters; the keys of the
   * non-`.` cells are collected row by row, up to the first row of the wrong width.
   */
  method FileRows(graph: seq<string>, width: Number) returns (keys: set<string>, ok: bool)
    ensures ok <==> forall y :: 0 <= y < |graph| ==> width == Num(|graph[y]|)
    ensures keys == Filed(graph, width, FirstBad(graph, width, 0))
    ensures ok && |graph| > 0 ==> keys == GridKeys(graph, |graph[0]|, |graph|)
    ensures ok && |graph| == 0 ==> keys == {}
  {
    keys := {};
    for y := 0 to |graph|
      invariant forall j :: 0 <= j < y ==> width == Num(|graph[j]|)
      invariant keys == Filed(graph, width, y)
    {
      if width != Num(|graph[y]|) {
        assert FirstBad(graph, width, 0) == y;
        return keys, false;
      }
      var rowKeys := FileRow(graph[y], y);
      assert |graph[y]| == |graph[0]|;
      assert Filed(graph, width, y + 1) == Filed(graph, width, y) + RowKeys(graph[y], y, |graph[0]|);
      keys := keys + rowKeys;
    }
    ok := true;
    assert FirstBad(graph, width, 0) == |graph|;
  }

  /** The inner loop of `parseGraph`: the keys of the non-`.` cells of row `y`. */
  method FileRow(row: string, y: int) returns (rowKeys: set<string>)
    ensures rowKeys == RowKeys(row, y, |row|)
  {
    rowKeys := {};
    for x := 0 to |row|
      invariant rowKeys == RowKeys(row, y, x)
    {
      if row[x] != '.' {
        rowKeys := rowKeys + {Key(x, y)};
      }
    }
  }
}
