/**
 * The server's map reader: header lines `width N` / `height N` (any case, surrounding blanks
 * ignored) up to the line `map`, then `height` rows in which `@` marks an obstacle. The file is
 * given as its sequence of lines, without line terminators.
 */
module MapReaders {
  import opened Wrappers
  import opened Decimal

  datatype GridInfo = GridInfo(width: nat, height: nat, obstacles: seq<(int, int)>)

  /** The number of leading characters of `s` that are whitespace. */
  function LeadingSpaces(s: string): (n: nat)
    ensures n <= |s| && (forall i :: 0 <= i < n ==> IsSpace(Python, s[i])) && (n < |s| ==> !IsSpace(Python, s[n]))
  {
    if s != [] && IsSpace(Python, s[0]) then 1 + LeadingSpaces(s[1..]) else 0
  }

  /** The number of leading characters of `s` that are digits. */
  function LeadingDigits(s: string): (n: nat)
    ensures n <= |s| && AllDigits(s[..n]) && (n < |s| ==> !IsDigit(s[n]))
  {
    if s != [] && IsDigit(s[0]) then
      var n := 1 + LeadingDigits(s[1..]);
      assert forall i :: 1 <= i < n ==> s[..n][i] == s[1..][..n - 1][i - 1];
      n
    else 0
  }

  /**
   * `re.match(kw + r"\s+(\d+)", s)`: `s` starts with `kw`, then at least one blank, then at least
   * one digit; the value of the whole run of digits.
   */
  function Keyword(s: string, kw: string): (r: Option<nat>)
    ensures r.Some? ==> |kw| < |s| && s[..|kw|] == kw
  {
    if |s| <= |kw| || s[..|kw|] != kw then None
    else
      var rest := s[|kw|..];
      var n := LeadingSpaces(rest);
      var d := LeadingDigits(rest[n..]);
      if n == 0 || d == 0 then None else Some(ValueOf(rest[n..][..d]))
  }

  /** A header line as the reader sees it: blanks stripped, lower case. */
  function Clean(line: string): string
  {
    Lower(Trim(Python, line))
  }

  /** What the header loop makes of a line. */
  datatype LineKind = WidthLine(n: nat) | HeightLine(n: nat) | MapLine | OtherLine

  /** The width pattern is tried first, then the height pattern, then the `map` test. */
  function Classify(line: string): LineKind
  {
    var s := Clean(line);
    match Keyword(s, "width")
    case Some(w) => WidthLine(w)
    case None =>
      match Keyword(s, "height")
      case Some(h) => HeightLine(h)
      case None => if s == "map" then MapLine else OtherLine
  }

  function Kinds(lines: seq<string>): (ks: seq<LineKind>)
    ensures |ks| == |lines|
  {
    seq(|lines|, i requires 0 <= i < |lines| => Classify(lines[i]))
  }

  /**
   * The header scan from line `i` on, with the values read so far: the width, the height and the
   * index of the first line after `map` (the end of the file if there is none).
   */
  function Header(ks: seq<LineKind>, i: nat, width: nat, height: nat): (r: (nat, nat, nat))
    requires i <= |ks|
    ensures i <= r.2 <= |ks|
    decreases |ks| - i
  {
    if i == |ks| then (width, height, i)
    else
      match ks[i]
      case WidthLine(w) => Header(ks, i + 1, w, height)
      case HeightLine(h) => Header(ks, i + 1, width, h)
      case MapLine => (width, height, i + 1)
      case OtherLine => Header(ks, i + 1, width, height)
  }

  /** The value of the last width line of `ks`, or `v` if there is none. */
  function LastWidth(ks: seq<LineKind>, v: nat): nat
  {
    if ks == [] then v
    else if ks[|ks| - 1].WidthLine? then ks[|ks| - 1].n
    else LastWidth(ks[..|ks| - 1], v)
  }

  /** The value of the last height line of `ks`, or `v` if there is none. */
  function LastHeight(ks: seq<LineKind>, v: nat): nat
  {
    if ks == [] then v
    else if ks[|ks| - 1].HeightLine? then ks[|ks| - 1].n
    else LastHeight(ks[..|ks| - 1], v)
  }

  /** Peeling the first line off: its value, if any, becomes the fallback. */
  lemma {:induction false} LastFrom(k: LineKind, rest: seq<LineKind>, w: nat, h: nat)
    ensures LastWidth([k] + rest, w) == LastWidth(rest, if k.WidthLine? then k.n else w)
    ensures LastHeight([k] + rest, h) == LastHeight(rest, if k.HeightLine? then k.n else h)
  {
    if rest != [] {
      LastFrom(k, rest[..|rest| - 1], w, h);
      assert ([k] + rest)[..|rest|] == [k] + rest[..|rest| - 1];
    }
  }

  /**
   * The scan stops just after the first `map` line, or at the end when there is none; the width
   * and height are those of the last matching lines before the stop.
   */
  lemma {:induction false} HeaderSpec(ks: seq<LineKind>, i: nat, width: nat, height: nat)
    requires i <= |ks|
    ensures forall k :: i <= k < Header(ks, i, width, height).2 - 1 ==> ks[k] != MapLine
    ensures Header(ks, i, width, height).2 == |ks| || (Header(ks, i, width, height).2 > i && ks[Header(ks, i, width, height).2 - 1] == MapLine)
    ensures Header(ks, i, width, height).0 == LastWidth(ks[i..Header(ks, i, width, height).2], width)
    ensures Header(ks, i, width, height).1 == LastHeight(ks[i..Header(ks, i, width, height).2], height)
    decreases |ks| - i
  {
    if i < |ks| {
      var next := Header(ks, i, width, height).2;
      if ks[i] == MapLine {
        assert ks[i..next] == [MapLine] + [];
        LastFrom(MapLine, [], width, height);
      } else {
        var w := if ks[i].WidthLine? then ks[i].n else width;
        var h := if ks[i].HeightLine? then ks[i].n else height;
        HeaderSpec(ks, i + 1, w, h);
        assert ks[i..next] == [ks[i]] + ks[i + 1..next];
        LastFrom(ks[i], ks[i + 1..next], width, height);
      }
    }
  }

  /** The header loop of `get_grid`, over the lines as classified. */
  method ScanHeader(ks: seq<LineKind>) returns (width: nat, height: nat, next: nat)
    ensures (width, height, next) == Header(ks, 0, 0, 0)
  {
    width, height := 0, 0;
    var i := 0;
    while i < |ks|
      invariant i <= |ks|
      invariant Header(ks, i, width, height) == Header(ks, 0, 0, 0)
    {
      match ks[i] {
        case WidthLine(w) => width := w;
        case HeightLine(h) => height := h;
        case MapLine => return width, height, i + 1;
        case OtherLine =>
      }
      i := i + 1;
    }
    next := i;
  }

  /** `height` calls of `readline()` from line `next`: the empty string past the end of the file. */
  function RowsFrom(lines: seq<string>, next: nat, height: nat): (rows: seq<string>)
    ensures |rows| == height
    ensures forall j :: 0 <= j < height ==> rows[j] == if next + j < |lines| then lines[next + j] else ""
  {
    seq(height, j requires 0 <= j < height => if next + j < |lines| then lines[next + j] else "")
  }

  /** The `@` cells `x < n` of row `y`, left to right. */
  function RowObstacles(row: string, y: int, n: nat): (r: seq<(int, int)>)
    requires n <= |row|
    ensures forall k :: 0 <= k < |r| ==> r[k].1 == y && 0 <= r[k].0 < n && row[r[k].0] == '@'
    ensures forall x :: 0 <= x < n && row[x] == '@' ==> (x, y) in r
    ensures forall a, b :: 0 <= a < b < |r| ==> r[a].0 < r[b].0
  {
    if n == 0 then []
    else RowObstacles(row, y, n - 1) + (if row[n - 1] == '@' then [(n - 1, y)] else [])
  }

  /** The `@` cells of the first `m` rows, row by row. */
  function Obstacles(rows: seq<string>, m: nat): (r: seq<(int, int)>)
    requires m <= |rows|
    ensures forall k :: 0 <= k < |r| ==> 0 <= r[k].1 < m && 0 <= r[k].0 < |rows[r[k].1]| && rows[r[k].1][r[k].0] == '@'
    ensures forall x, y :: 0 <= y < m && 0 <= x < |rows[y]| && rows[y][x] == '@' ==> (x, y) in r
  {
    if m == 0 then []
    else
      var row := RowObstacles(rows[m - 1], m - 1, |rows[m - 1]|);
      Obstacles(rows, m - 1) + row
  }

  /** By row, then by column, without repetition. */
  predicate RowMajor(r: seq<(int, int)>)
  {
    forall a, b :: 0 <= a < b < |r| ==> r[a].1 < r[b].1 || (r[a].1 == r[b].1 && r[a].0 < r[b].0)
  }

  /** Obstacles are listed in row-major order. */
  lemma {:induction false} ObstaclesOrdered(rows: seq<string>, m: nat)
    requires m <= |rows|
    ensures RowMajor(Obstacles(rows, m))
  {
    if m > 0 {
      ObstaclesOrdered(rows, m - 1);
      var prev := Obstacles(rows, m - 1);
      var row := RowObstacles(rows[m - 1], m - 1, |rows[m - 1]|);
      var r := prev + row;
      forall a, b | 0 <= a < b < |r|
        ensures r[a].1 < r[b].1 || (r[a].1 == r[b].1 && r[a].0 < r[b].0)
      {
        if b < |prev| {
          assert r[a] == prev[a] && r[b] == prev[b];
        } else if a < |prev| {
          assert r[a] == prev[a] && r[b] == row[b - |prev|];
        } else {
          assert r[a] == row[a - |prev|] && r[b] == row[b - |prev|];
        }
      }
    }
  }

  /** What `get_grid` returns for a file with the given lines. */
  function GridOf(lines: seq<string>): Result<GridInfo>
  {
    var (w, h, next) := Header(Kinds(lines), 0, 0, 0);
    var rows := RowsFrom(lines, next, h);
    if exists y :: 0 <= y < h && |rows[y]| != w then Failure("row width mismatch")
    else Success(GridInfo(w, h, Obstacles(rows, h)))
  }

  /** The obstacle loop of `get_grid`: the `@` cells row by row, or an error at the first row of another length. */
  method CollectObstacles(rows: seq<string>, width: nat) returns (r: Result<seq<(int, int)>>)
    ensures r.Failure? <==> exists y :: 0 <= y < |rows| && |rows[y]| != width
    ensures r.Failure? ==> r.error == "row width mismatch"
    ensures r.Success? ==> r.value == Obstacles(rows, |rows|)
  {
    var obstacles: seq<(int, int)> := [];
    for y := 0 to |rows|
      invariant forall j :: 0 <= j < y ==> |rows[j]| == width
      invariant obstacles == Obstacles(rows, y)
    {
      if |rows[y]| != width {
        return Failure("row width mismatch");
      }
      var found: seq<(int, int)> := [];
      for x := 0 to |rows[y]|
        invariant found == RowObstacles(rows[y], y, x)
      {
        if rows[y][x] == '@' {
          found := found + [(x, y)];
        }
      }
      obstacles := obstacles + found;
    }
    r := Success(obstacles);
  }

  /** The row loop of `get_grid`: `height` lines read after the header. */
  method ReadRows(lines: seq<string>, next: nat, height: nat) returns (rows: seq<string>)
    ensures rows == RowsFrom(lines, next, height)
  {
    rows := [];
    for j := 0 to height
      invariant |rows| == j
      invariant forall k :: 0 <= k < j ==> rows[k] == if next + k < |lines| then lines[next + k] else ""
    {
      var row := if next + j < |lines| then lines[next + j] else "";
      rows := rows + [row];
    }
  }

  /**
   * `get_grid`: the header scan, `height` rows read after it, then every row checked against
   * the width and its `@` cells collected; a row of another length raises.
   */
  method GetGrid(lines: seq<string>) returns (r: Result<GridInfo>)
    ensures r == GridOf(lines)
  {
    var width, height, next := ScanHeader(Kinds(lines));
    var rows := ReadRows(lines, next, height);
    var found := CollectObstacles(rows, width);
    if found.Failure? {
      r := Failure(found.error);
    } else {
      r := Success(GridInfo(width, height, found.value));
    }
    assert GridOf(lines) == if exists y :: 0 <= y < height && |rows[y]| != width then Failure("row width mismatch")
      else Success(GridInfo(width, height, Obstacles(rows, height)));
  }

  /**
   * A successful read lists exactly the `@` cells of the rows read, in row-major order; it fails
   * iff one of those rows is not `width` long.
   */
  lemma GridOfSpec(lines: seq<string>, x: int, y: int)
    ensures var (w, h, next) := Header(Kinds(lines), 0, 0, 0);
      && (GridOf(lines).Failure? <==> exists j :: 0 <= j < h && |RowsFrom(lines, next, h)[j]| != w)
      && (GridOf(lines).Success? ==> GridOf(lines).value.width == w && GridOf(lines).value.height == h)
      && (GridOf(lines).Success? ==> RowMajor(GridOf(lines).value.obstacles))
      && (GridOf(lines).Success? ==> ((x, y) in GridOf(lines).value.obstacles <==>
            0 <= y < h && 0 <= x < w && RowsFrom(lines, next, h)[y][x] == '@'))
  {
    var (w, h, next) := Header(Kinds(lines), 0, 0, 0);
    ObstaclesOrdered(RowsFrom(lines, next, h), h);
  }
}
