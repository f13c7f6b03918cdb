/**
 * The recorded-solution parser of the visualizer: one line per timestep, each holding the
 * agents' poses as parenthesised groups `(x,y)` or `(x,y,ORIENTATION)`.
 */
module Solutions {
  import opened Wrappers
  import opened Decimal

  datatype Orientation = NONE | X_MINUS | X_PLUS | Y_MINUS | Y_PLUS

  /** A position; `y` is undefined when a group holds a single number. */
  datatype Coordinate = Coordinate(x: Number, y: Option<Number>)

  datatype Pose = Pose(position: Coordinate, orientation: Orientation)

  /** `orientationFromString`: the four exact names; anything else, undefined included, is NONE. */
  function OrientationFromString(s: Option<string>): (r: Orientation)
    ensures r == X_MINUS <==> s == Some("X_MINUS")
    ensures r == X_PLUS <==> s == Some("X_PLUS")
    ensures r == Y_MINUS <==> s == Some("Y_MINUS")
    ensures r == Y_PLUS <==> s == Some("Y_PLUS")
  {
    if s == Some("X_MINUS") then X_MINUS
    else if s == Some("X_PLUS") then X_PLUS
    else if s == Some("Y_MINUS") then Y_MINUS
    else if s == Some("Y_PLUS") then Y_PLUS
    else NONE
  }

  /** The `Pose` constructor: an undefined argument takes its default, the origin or NONE. */
  function NewPose(position: Option<Coordinate>, orientation: Option<Orientation>): (r: Pose)
    ensures position.None? ==> r.position == Coordinate(Num(0), Some(Num(0)))
    ensures position.Some? ==> r.position == position.value
    ensures orientation.None? ==> r.orientation == NONE
    ensures orientation.Some? ==> r.orientation == orientation.value
  {
    Pose(if position.None? then Coordinate(Num(0), Some(Num(0))) else position.value,
         if orientation.None? then NONE else orientation.value)
  }

  /** A match of `/\(([^)]*)\)/`: a `(`, text without `)`, and a `)`. */
  predicate IsGroup(g: string)
  {
    |g| >= 2 && g[0] == '(' && g[|g| - 1] == ')' && ')' !in g[1..|g| - 1]
  }

  /**
   * `line.match(/\(([^)]*)\)/g)`: from the leftmost `(` that has a `)` after it, up to the first
   * such `)`, then again after it.
   */
  function Groups(line: string): (r: seq<string>)
    ensures forall k :: 0 <= k < |r| ==> IsGroup(r[k])
    decreases |line|
  {
    match IndexOf(line, '(')
    case None => []
    case Some(p) =>
      match IndexOf(line[p + 1..], ')')
      case None => []
      case Some(q) =>
        var g := line[p..p + q + 2];
        GroupAt(line, p, q);
        [g] + Groups(line[p + q + 2..])
  }

  lemma GroupAt(line: string, p: nat, q: nat)
    requires p < |line| && line[p] == '('
    requires q < |line| - p - 1 && line[p + 1..][q] == ')' && ')' !in line[p + 1..][..q]
    ensures IsGroup(line[p..p + q + 2])
  {
    var g := line[p..p + q + 2];
    assert |g| == q + 2;
    var inner, head := g[1..|g| - 1], line[p + 1..][..q];
    assert forall i :: 0 <= i < q ==> inner[i] == head[i];
    assert g[1..|g| - 1] == line[p + 1..][..q];
  }

  /** A line has no group iff no `(` comes before a `)`. */
  lemma {:induction false} GroupsEmpty(line: string)
    ensures Groups(line) == [] <==> forall i, j :: 0 <= i < j < |line| && line[i] == '(' ==> line[j] != ')'
  {
    match IndexOf(line, '(')
    case None =>
    case Some(p) =>
      match IndexOf(line[p + 1..], ')') {
        case None =>
          forall i, j | 0 <= i < j < |line| && line[i] == '('
            ensures line[j] != ')'
          {
            assert '(' !in line[..p];
            assert forall k :: 0 <= k < p ==> line[..p][k] == line[k];
            assert i >= p;
            assert line[p + 1..][j - p - 1] == line[j];
          }
        case Some(q) =>
          assert line[p + q + 1] == line[p + 1..][q];
      }
  }

  /** A pose group's text without the parentheses. */
  function Inner(g: string): string
    requires |g| >= 2
  {
    g[1..|g| - 1]
  }

  /** `xs.map(f)` where `f` may throw: the results in order, or the first element's error. */
  function Traverse<A, B>(xs: seq<A>, f: A --> Result<B>): (r: Result<seq<B>>)
    requires forall k :: 0 <= k < |xs| ==> f.requires(xs[k])
    ensures r.Success? ==> |r.value| == |xs| && forall k :: 0 <= k < |xs| ==> f(xs[k]) == Success(r.value[k])
    ensures r.Failure? ==> exists k :: (0 <= k < |xs| && f(xs[k]) == Failure(r.error) && forall j :: 0 <= j < k ==> f(xs[j]).Success?)
  {
    if xs == [] then Success([])
    else
      match f(xs[0])
      case Failure(e) => Failure(e)
      case Success(b) =>
        match Traverse(xs[1..], f)
        case Failure(e) =>
          var k :| 0 <= k < |xs[1..]| && f(xs[1..][k]) == Failure(e) && forall j :: 0 <= j < k ==> f(xs[1..][j]).Success?;
          assert f(xs[k + 1]) == Failure(e);
          assert forall j :: 1 <= j < k + 1 ==> f(xs[j]) == f(xs[1..][j - 1]);
          Failure(e)
        case Success(bs) =>
          assert forall k :: 1 <= k < |xs| ==> f(xs[k]) == f(xs[1..][k - 1]);
          Success([b] + bs)
  }

  function ExtraPartMessage(part: string): string
  {
    "Unexpected extra part in pose string: \"" + part + "\""
  }

  /**
   * One pose from its comma-separated parts: x, y and the orientation; a fourth part throws.
   */
  function PoseOfParts(parts: seq<string>): (r: Result<Pose>)
    requires |parts| >= 1
    ensures r.Failure? <==> |parts| > 3
    ensures r.Failure? ==> r.error == ExtraPartMessage(parts[3])
    ensures r.Success? ==> r.value.position.x == JsNumber(parts[0])
    ensures r.Success? ==> (r.value.position.y.Some? <==> |parts| >= 2)
    ensures r.Success? && |parts| >= 2 ==> r.value.position.y == Some(JsNumber(parts[1]))
    ensures r.Success? && |parts| < 3 ==> r.value.orientation == NONE
    ensures r.Success? && |parts| == 3 ==> r.value.orientation == OrientationFromString(Some(parts[2]))
  {
    if |parts| > 3 then Failure(ExtraPartMessage(parts[3]))
    else
      var x := JsNumber(parts[0]);
      var y := if |parts| >= 2 then Some(JsNumber(parts[1])) else None;
      var o := if |parts| == 3 then Some(OrientationFromString(Some(parts[2]))) else None;
      Success(NewPose(Some(Coordinate(x, y)), o))
  }

  /** One pose group `(x,y,o)`: its inner text split at commas. */
  function ParsePose(g: string): Result<Pose>
    requires |g| >= 2
  {
    PoseOfParts(Split(Inner(g), ','))
  }

  /**
   * One line: pose k is the parse of group k, or the error of the first group with extra
   * parts, or "Invalid solution" when there is no group.
   */
  function ParseLine(line: string): (r: Result<seq<Pose>>)
    ensures Groups(line) == [] ==> r == Failure("Invalid solution")
    ensures r.Success? ==> |r.value| == |Groups(line)| >= 1
    ensures r.Success? ==> forall k :: 0 <= k < |r.value| ==> ParsePose(Groups(line)[k]) == Success(r.value[k])
    ensures r.Failure? && Groups(line) != [] ==>
      exists k :: 0 <= k < |Groups(line)| && ParsePose(Groups(line)[k]) == Failure(r.error) &&
        forall j :: 0 <= j < k ==> ParsePose(Groups(line)[j]).Success?
  {
    var gs := Groups(line);
    match Traverse(gs, ParsePose)
    case Failure(e) => Failure(e)
    case Success(ps) => if ps == [] then Failure("Invalid solution") else Success(ps)
  }

  /** `split(/\r?\n/)`: pieces between newlines, a `\r` just before a newline dropped. */
  function Lines(text: string): (r: seq<string>)
    ensures |r| == |Split(text, '\n')|
  {
    var pieces := Split(text, '\n');
    seq(|pieces|, k requires 0 <= k < |pieces| =>
      var p := pieces[k];
      if k < |pieces| - 1 && p != [] && p[|p| - 1] == '\r' then p[..|p| - 1] else p)
  }

  /** `parseSolution`: one entry of poses per line of the trimmed text. */
  function ParseSolution(text: string): (r: Result<seq<seq<Pose>>>)
    ensures r.Success? ==> |r.value| == |SolutionLines(text)|
    ensures r.Success? ==> forall k :: 0 <= k < |SolutionLines(text)| ==> ParseLine(SolutionLines(text)[k]) == Success(r.value[k])
    ensures r.Failure? ==>
      exists k :: 0 <= k < |SolutionLines(text)| && ParseLine(SolutionLines(text)[k]) == Failure(r.error) &&
        forall j :: 0 <= j < k ==> ParseLine(SolutionLines(text)[j]).Success?
  {
    Traverse(SolutionLines(text), ParseLine)
  }

  /** The lines of the trimmed text. */
  function SolutionLines(text: string): seq<string>
  {
    Lines(Trim(JavaScript, text))
  }

  /** Blank text has no pose on its only line. */
  lemma BlankTextFails(text: string)
    requires Trim(JavaScript, text) == []
    ensures ParseSolution(text) == Failure("Invalid solution")
  {
    BlankLines(text);
    BlankLine();
    TraverseHeadFails(SolutionLines(text), ParseLine);
  }

  /** Blank text is one empty line. */
  lemma BlankLines(text: string)
    requires Trim(JavaScript, text) == []
    ensures SolutionLines(text) == [[]]
  {
    assert Split([], '\n') == [[]];
  }

  /** An empty line has no pose. */
  lemma BlankLine()
    ensures ParseLine([]) == Failure("Invalid solution")
  {
    assert Groups([]) == [];
  }

  /** A traversal whose first element fails fails with that element's error. */
  lemma TraverseHeadFails<A, B>(xs: seq<A>, f: A --> Result<B>)
    requires forall k :: 0 <= k < |xs| ==> f.requires(xs[k])
    requires xs != [] && f(xs[0]).Failure?
    ensures Traverse(xs, f) == Failure(f(xs[0]).error)
  {
  }

  /** The name `orientationFromString` reads back, `NONE` for NONE. */
  function Name(o: Orientation): (r: string)
    ensures ',' !in r && ')' !in r
  {
    match o
    case NONE => "NONE"
    case X_MINUS => "X_MINUS"
    case X_PLUS => "X_PLUS"
    case Y_MINUS => "Y_MINUS"
    case Y_PLUS => "Y_PLUS"
  }

  /** The text of a pose with integer coordinates: `(x,y,NAME)`. */
  function PoseText(x: int, y: int, o: Orientation): (r: string)
  {
    "(" + IntToString(x) + "," + IntToString(y) + "," + Name(o) + ")"
  }

  /** A written pose reads back as itself. */
  lemma PoseRoundTrip(x: int, y: int, o: Orientation)
    ensures var g := PoseText(x, y, o);
      |g| >= 2 && ParsePose(g) == Success(Pose(Coordinate(Num(x), Some(Num(y))), o))
  {
    var parts := [IntToString(x), IntToString(y), Name(o)];
    PoseParts(x, y, o);
    SplitJoin(parts, ',');
    assert Split(Inner(PoseText(x, y, o)), ',') == parts;
    WrittenParts(x, y, o);
  }

  /** The three written parts of a pose read back as that pose. */
  lemma WrittenParts(x: int, y: int, o: Orientation)
    ensures PoseOfParts([IntToString(x), IntToString(y), Name(o)]) == Success(Pose(Coordinate(Num(x), Some(Num(y))), o))
  {
    IntRoundTrip(x);
    IntRoundTrip(y);
    assert OrientationFromString(Some(Name(o))) == o;
  }

  /** Between its parentheses a written pose is its three parts joined by commas. */
  lemma PoseParts(x: int, y: int, o: Orientation)
    ensures var g := PoseText(x, y, o);
      |g| >= 2 && Inner(g) == Join([IntToString(x), IntToString(y), Name(o)], ',')
  {
    var g := PoseText(x, y, o);
    var parts := [IntToString(x), IntToString(y), Name(o)];
    assert parts[1..][1..] == [Name(o)];
    assert Join(parts[1..], ',') == IntToString(y) + "," + Name(o);
    assert Join(parts, ',') == IntToString(x) + "," + IntToString(y) + "," + Name(o);
    assert g == "(" + Join(parts, ',') + ")";
  }
}
