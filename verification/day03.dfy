/**
 * The crossed wires of src/y2019/day03.rs: a wire is a comma-separated list of moves such
 * as `R8,U5`; walking it from the origin lists every grid point it covers, and the puzzle
 * asks for the crossing nearest to the origin and for the crossing the wires reach first.
 * Points are pairs of unbounded integers (the source's `(i32, i32)`).
 */
module Day03Wires {

  type Point = (int, int)

  const Origin: Point := (0, 0)

  /** `Direction`: a letter and a step count. */
  datatype Direction = Up(n: int) | Left(n: int) | Down(n: int) | Right(n: int)

  // ---------------------------------------------------------------- parsing

  /** Why parsing panics: the text is not a letter and digits, or the number overflows `i32`. */
  datatype ParseError = NoMatch | Overflow

  datatype Parsed<T> = Ok(value: T) | Panic(why: ParseError)

  const I32_MAX: int := 0x7fff_ffff

  predicate IsDigit(c: char)
  {
    '0' <= c <= '9'
  }

  predicate AllDigits(s: string)
  {
    forall i | 0 <= i < |s| :: IsDigit(s[i])
  }

  /** The decimal value of a run of digits, leading zeros allowed. */
  function DigitsValue(s: string): nat
    requires AllDigits(s)
  {
    if |s| == 0 then 0 else 10 * DigitsValue(s[..|s| - 1]) + (s[|s| - 1] - '0') as nat
  }

  /** The letter of a direction. */
  function Letter(d: Direction): char
  {
    match d
    case Up(_) => 'U'
    case Left(_) => 'L'
    case Down(_) => 'D'
    case Right(_) => 'R'
  }

  /**
   * `parse_direction`: the whole text must be one of U, L, D, R followed by one or more
   * digits, and the number must fit an `i32`; otherwise the source panics (an `unwrap`).
   */
  function ParseDirection(raw: string): (r: Parsed<Direction>)
    ensures r.Ok? <==> |raw| >= 2 && raw[0] in {'U', 'L', 'D', 'R'} && AllDigits(raw[1..])
                       && DigitsValue(raw[1..]) <= I32_MAX
    ensures r.Ok? ==> Letter(r.value) == raw[0] && r.value.n == DigitsValue(raw[1..])
    ensures r == Panic(Overflow) ==> |raw| >= 1 && AllDigits(raw[1..]) && DigitsValue(raw[1..]) > I32_MAX
  {
    if |raw| < 2 || raw[0] !in {'U', 'L', 'D', 'R'} || !AllDigits(raw[1..]) then Panic(NoMatch)
    else
      var num := DigitsValue(raw[1..]);
      if num > I32_MAX then Panic(Overflow)
      else if raw[0] == 'U' then Ok(Up(num))
      else if raw[0] == 'L' then Ok(Left(num))
      else if raw[0] == 'D' then Ok(Down(num))
      else Ok(Right(num))
  }

  /** The pieces of a text between commas (one piece when there is no comma). */
  function Split(s: string): (r: seq<string>)
    ensures |r| >= 1
    ensures forall i | 0 <= i < |r| :: ',' !in r[i]
    decreases |s|
  {
    if |s| == 0 then [""]
    else
      var rest := Split(s[1..]);
      if s[0] == ',' then [""] + rest else [[s[0]] + rest[0]] + rest[1..]
  }

  /** The pieces joined with commas. */
  function Join(pieces: seq<string>): string
    requires |pieces| >= 1
    decreases |pieces|
  {
    if |pieces| == 1 then pieces[0] else pieces[0] + "," + Join(pieces[1..])
  }

  /** Parse every piece in order; the first piece that panics stops the parse. */
  function ParseAll(pieces: seq<string>): (r: Parsed<seq<Direction>>)
    ensures r.Ok? ==> |r.value| == |pieces|
    ensures r.Ok? ==> forall i | 0 <= i < |pieces| :: ParseDirection(pieces[i]) == Ok(r.value[i])
    decreases |pieces|
  {
    if |pieces| == 0 then Ok([])
    else match ParseDirection(pieces[0])
      case Panic(e) => Panic(e)
      case Ok(d) =>
        match ParseAll(pieces[1..])
        case Panic(e) => Panic(e)
        case Ok(ds) => Ok([d] + ds)
  }

  /** `parse_path`: split on commas and parse the pieces in order. */
  function ParsePath(path: string): Parsed<seq<Direction>>
  {
    ParseAll(Split(path))
  }

  /** The digits of n, most significant first, without leading zeros. */
  function Decimal(n: nat): (s: string)
    ensures |s| >= 1 && AllDigits(s)
  {
    if n < 10 then ['0' + n as char] else Decimal(n / 10) + ['0' + (n % 10) as char]
  }

  /** The text a direction is written as. */
  function Show(d: Direction): string
    requires d.n >= 0
  {
    [Letter(d)] + Decimal(d.n)
  }

  /** A wire written out: its moves joined with commas. */
  function ShowPath(ds: seq<Direction>): string
    requires |ds| >= 1 && forall i | 0 <= i < |ds| :: ds[i].n >= 0
  {
    Join(seq(|ds|, i requires 0 <= i < |ds| => Show(ds[i])))
  }

  lemma {:induction false} DecimalValue(n: nat)
    ensures DigitsValue(Decimal(n)) == n
  {
    if n >= 10 {
      DecimalValue(n / 10);
      var s := Decimal(n);
      assert s[..|s| - 1] == Decimal(n / 10);
    }
  }

  /** A direction written out parses back to itself. */
  lemma ParseShow(d: Direction)
    requires 0 <= d.n <= I32_MAX
    ensures ParseDirection(Show(d)) == Ok(d)
  {
    var s := Show(d);
    assert s[1..] == Decimal(d.n);
    DecimalValue(d.n);
  }

  /** Joining pieces that hold no comma and splitting again gives the pieces back. */
  lemma {:induction false} SplitJoin(pieces: seq<string>)
    requires |pieces| >= 1 && forall i | 0 <= i < |pieces| :: ',' !in pieces[i]
    ensures Split(Join(pieces)) == pieces
    decreases |pieces|, |pieces[0]|, 1
  {
    if |pieces| == 1 {
      SplitNoComma(pieces[0]);
    } else if |pieces[0]| == 0 {
      SplitJoinEmptyHead(pieces);
    } else {
      SplitJoinLetterHead(pieces);
    }
  }

  /** An empty first piece: the text starts with the comma that ends it. */
  lemma {:induction false} SplitJoinEmptyHead(pieces: seq<string>)
    requires |pieces| >= 2 && |pieces[0]| == 0 && forall i | 0 <= i < |pieces| :: ',' !in pieces[i]
    ensures Split(Join(pieces)) == pieces
    decreases |pieces|, 0, 0
  {
    assert Join(pieces) == [','] + Join(pieces[1..]);
    SplitComma(Join(pieces[1..]));
    SplitJoin(pieces[1..]);
    assert [""] + pieces[1..] == pieces;
  }

  /** A first piece with a letter: the text starts with that letter. */
  lemma {:induction false} SplitJoinLetterHead(pieces: seq<string>)
    requires |pieces| >= 2 && |pieces[0]| > 0 && forall i | 0 <= i < |pieces| :: ',' !in pieces[i]
    ensures Split(Join(pieces)) == pieces
    decreases |pieces|, |pieces[0]|, 0
  {
    var p := pieces[0];
    var shorter := [p[1..]] + pieces[1..];
    JoinShift(pieces);
    SplitChar(p[0], Join(shorter));
    assert shorter[0] == p[1..] && shorter[1..] == pieces[1..];
    SplitJoin(shorter);
    assert [p[0]] + p[1..] == p;
    assert [p] + pieces[1..] == pieces;
  }

  /** A comma in front starts a new, empty piece. */
  lemma SplitComma(rest: string)
    ensures Split([','] + rest) == [""] + Split(rest)
  {
    assert ([','] + rest)[1..] == rest;
  }

  /** Any other character in front joins the first piece. */
  lemma SplitChar(c: char, rest: string)
    requires c != ','
    ensures Split([c] + rest) == [[c] + Split(rest)[0]] + Split(rest)[1..]
  {
    assert ([c] + rest)[1..] == rest;
  }

  /** The joined text starts with the first letter of the first piece, when there is one. */
  lemma JoinShift(pieces: seq<string>)
    requires |pieces| >= 2 && |pieces[0]| > 0
    ensures Join(pieces) == [pieces[0][0]] + Join([pieces[0][1..]] + pieces[1..])
  {
    var p, shorter := pieces[0], [pieces[0][1..]] + pieces[1..];
    assert shorter[0] == p[1..] && shorter[1..] == pieces[1..];
    assert p == [p[0]] + p[1..];
  }

  lemma {:induction false} SplitNoComma(s: string)
    requires ',' !in s
    ensures Split(s) == [s]
    decreases |s|
  {
    if |s| > 0 {
      SplitNoComma(s[1..]);
      assert [s[0]] + s[1..] == s;
    }
  }

  /** A wire written out parses back to its moves. */
  lemma ParsePathShow(ds: seq<Direction>)
    requires |ds| >= 1 && forall i | 0 <= i < |ds| :: 0 <= ds[i].n <= I32_MAX
    ensures ParsePath(ShowPath(ds)) == Ok(ds)
  {
    var pieces := seq(|ds|, i requires 0 <= i < |ds| => Show(ds[i]));
    forall i | 0 <= i < |ds| ensures ',' !in pieces[i] {
      assert pieces[i][1..] == Decimal(ds[i].n);
      assert pieces[i] == [pieces[i][0]] + pieces[i][1..];
    }
    SplitJoin(pieces);
    ParseAllShown(ds, pieces);
  }

  lemma {:induction false} ParseAllShown(ds: seq<Direction>, pieces: seq<string>)
    requires forall i | 0 <= i < |ds| :: 0 <= ds[i].n <= I32_MAX
    requires |pieces| == |ds| && forall i | 0 <= i < |ds| :: pieces[i] == Show(ds[i])
    ensures ParseAll(pieces) == Ok(ds)
    decreases |ds|
  {
    if |ds| > 0 {
      ParseShow(ds[0]);
      ParseAllShown(ds[1..], pieces[1..]);
      assert [ds[0]] + ds[1..] == ds;
    }
  }

  /** The tests of `parse_direction`. */
  lemma ParseDirectionTests()
    ensures ParseDirection("U12") == Ok(Up(12))
    ensures ParseDirection("L1") == Ok(Left(1))
    ensures ParseDirection("D123") == Ok(Down(123))
    ensures ParseDirection("R42") == Ok(Right(42))
  {
    assert Show(Up(12)) == "U12";
    ParseShow(Up(12));
    assert Show(Left(1)) == "L1";
    ParseShow(Left(1));
    assert Show(Down(123)) == "D123";
    ParseShow(Down(123));
    assert Show(Right(42)) == "R42";
    ParseShow(Right(42));
  }

  /** The test of `parse_path`. */
  lemma ParsePathTest()
    ensures ParsePath("U7,R6") == Ok([Up(7), Right(6)])
  {
    assert Show(Up(7)) == "U7" && Show(Right(6)) == "R6";
    assert Join(["U7", "R6"]) == "U7,R6";
    assert seq(2, i requires 0 <= i < 2 => Show([Up(7), Right(6)][i])) == ["U7", "R6"];
    ParsePathShow([Up(7), Right(6)]);
  }

  // ---------------------------------------------------------------- walking

  /** The unit step of a direction: Up (1,0), Left (0,-1), Down (-1,0), Right (0,1). */
  function StepOf(d: Direction): Point
  {
    match d
    case Up(_) => (1, 0)
    case Left(_) => (0, -1)
    case Down(_) => (-1, 0)
    case Right(_) => (0, 1)
  }

  /** How many times the loop `for _ in 0..n` runs. */
  function Count(d: Direction): nat
  {
    if d.n > 0 then d.n else 0
  }

  /** `add` on pairs. */
  function Add(a: Point, b: Point): Point
  {
    (a.0 + b.0, a.1 + b.1)
  }

  /** The point i steps from p. */
  function Offset(p: Point, step: Point, i: int): Point
  {
    (p.0 + i * step.0, p.1 + i * step.1)
  }

  /** The points a move covers from s: s itself and each point before the endpoint. */
  function Segment(s: Point, d: Direction): seq<Point>
  {
    seq(Count(d), i => Offset(s, StepOf(d), i))
  }

  function EndOf(s: Point, d: Direction): Point
  {
    Offset(s, StepOf(d), Count(d))
  }

  /**
   * `walk_direction`: the points s, s+step, ..., s+(n-1)·step, and the endpoint s+n·step, one
   * past the last point.
   */
  method WalkDirection(startPoint: Point, dir: Direction) returns (end: Point, v: seq<Point>)
    ensures v == Segment(startPoint, dir) && end == EndOf(startPoint, dir)
  {
    var step, n;
    match dir {
      case Up(k) => step, n := (1, 0), k;
      case Left(k) => step, n := (0, -1), k;
      case Down(k) => step, n := (-1, 0), k;
      case Right(k) => step, n := (0, 1), k;
    }
    v := [];
    var x := startPoint;
    var i := 0;
    while i < n
      invariant 0 <= i <= Count(dir)
      invariant x == Offset(startPoint, step, i)
      invariant |v| == i && forall j | 0 <= j < i :: v[j] == Offset(startPoint, step, j)
    {
      v := v + [x];
      x := Add(x, step);
      i := i + 1;
    }
    end := x;
    WalkIsSegment(startPoint, dir, end, v);
  }

  /**
   * A move's segment holds start + i·step for each i below the count, and it ends one step
   * before the endpoint.
   */
  lemma SegmentPoints(p: Point, d: Direction)
    ensures var v := Segment(p, d);
      && |v| == Count(d) && (forall i | 0 <= i < |v| :: v[i] == Offset(p, StepOf(d), i))
      && (|v| > 0 ==> v[0] == p && EndOf(p, d) == Add(v[|v| - 1], StepOf(d)))
  {
  }

  /** The points a wire covers from p, move after move. */
  function PathFrom(p: Point, ds: seq<Direction>): seq<Point>
    decreases |ds|
  {
    if |ds| == 0 then [] else Segment(p, ds[0]) + PathFrom(EndOf(p, ds[0]), ds[1..])
  }

  /** Where a wire ends, walked from p. */
  function EndFrom(p: Point, ds: seq<Direction>): Point
    decreases |ds|
  {
    if |ds| == 0 then p else EndFrom(EndOf(p, ds[0]), ds[1..])
  }

  function Path(ds: seq<Direction>): seq<Point>
  {
    PathFrom(Origin, ds)
  }

  /** The total of the step counts. */
  function TotalSteps(ds: seq<Direction>): nat
    decreases |ds|
  {
    if |ds| == 0 then 0 else Count(ds[0]) + TotalSteps(ds[1..])
  }

  /** The points from move i on: move i's segment, then the moves after it from its endpoint. */
  lemma PathFromAt(p: Point, ds: seq<Direction>, i: nat)
    requires i < |ds|
    ensures PathFrom(p, ds[i..]) == Segment(p, ds[i]) + PathFrom(EndOf(p, ds[i]), ds[i + 1..])
  {
    assert ds[i..][0] == ds[i] && ds[i..][1..] == ds[i + 1..];
  }

  /** What `walk_direction` returns is the move's segment and its endpoint. */
  lemma WalkIsSegment(p: Point, d: Direction, end: Point, v: seq<Point>)
    requires |v| == Count(d) && forall i | 0 <= i < |v| :: v[i] == Offset(p, StepOf(d), i)
    requires end == Offset(p, StepOf(d), Count(d))
    ensures v == Segment(p, d) && end == EndOf(p, d)
  {
  }

  /** `walk_path`: the segments of the moves one after the other, from the origin. */
  method WalkPath(path: seq<Direction>) returns (s: seq<Point>)
    ensures s == Path(path)
  {
    s := [];
    var x := Origin;
    for i := 0 to |path|
      invariant s + PathFrom(x, path[i..]) == Path(path)
    {
      var newX, newS := WalkDirection(x, path[i]);
      PathFromAt(x, path, i);
      assert s + PathFrom(x, path[i..]) == (s + newS) + PathFrom(newX, path[i + 1..]);
      s := s + newS;
      x := newX;
    }
    assert path[|path|..] == [];
  }


  /** A wire covers as many points as its moves have steps. */
  lemma {:induction false} PathLength(p: Point, ds: seq<Direction>)
    ensures |PathFrom(p, ds)| == TotalSteps(ds)
    decreases |ds|
  {
    if |ds| > 0 {
      PathLength(EndOf(p, ds[0]), ds[1..]);
    }
  }

  /** Walking a + b is walking a, then walking b from where a ends. */
  lemma {:induction false} PathAppend(p: Point, a: seq<Direction>, b: seq<Direction>)
    ensures PathFrom(p, a + b) == PathFrom(p, a) + PathFrom(EndFrom(p, a), b)
    ensures EndFrom(p, a + b) == EndFrom(EndFrom(p, a), b)
    decreases |a|
  {
    if |a| == 0 {
      assert a + b == b;
    } else {
      assert (a + b)[0] == a[0] && (a + b)[1..] == a[1..] + b;
      PathAppend(EndOf(p, a[0]), a[1..], b);
    }
  }

  /** A wire that covers any point covers its starting point first. */
  lemma {:induction false} PathStartsAtStart(p: Point, ds: seq<Direction>)
    requires |PathFrom(p, ds)| > 0
    ensures PathFrom(p, ds)[0] == p
    decreases |ds|
  {
    if Count(ds[0]) == 0 {
      assert EndOf(p, ds[0]) == p;
      PathStartsAtStart(p, ds[1..]);
    }
  }

  // ---------------------------------------------------------------- distance

  function Abs(x: int): nat
  {
    if x < 0 then -x else x
  }

  /** `distance`: the Manhattan distance to the origin, zero only at the origin. */
  function Distance(p: Point): (r: int)
    ensures r >= 0 && (r == 0 <==> p == Origin)
  {
    Abs(p.0) + Abs(p.1)
  }

  // ---------------------------------------------------------------- crossings

  /** The order of a `BTreeSet` of pairs: first coordinate, then second. */
  predicate LexLess(a: Point, b: Point)
  {
    a.0 < b.0 || (a.0 == b.0 && a.1 < b.1)
  }

  ghost predicate StrictlyIncreasing(s: seq<Point>)
  {
    forall i, j | 0 <= i < j < |s| :: LexLess(s[i], s[j])
  }

  /** x added to a strictly increasing sequence, in its place, unless it is already there. */
  function InsertUnique(x: Point, t: seq<Point>): (r: seq<Point>)
    requires StrictlyIncreasing(t)
    ensures StrictlyIncreasing(r)
    ensures forall y :: y in r <==> y == x || y in t
    decreases |t|
  {
    if |t| == 0 then [x]
    else if x == t[0] then t
    else if LexLess(x, t[0]) then [x] + t
    else
      var rest := InsertUnique(x, t[1..]);
      assert forall y | y in rest :: LexLess(t[0], y);
      [t[0]] + rest
  }

  /** Collecting points into a `BTreeSet`: its elements in increasing order, each once. */
  function SortedUnique(s: seq<Point>): (r: seq<Point>)
    ensures StrictlyIncreasing(r)
    ensures forall y :: y in r <==> y in s
    decreases |s|
  {
    if |s| == 0 then [] else InsertUnique(s[|s| - 1], SortedUnique(s[..|s| - 1]))
  }

  /** The elements of s that p2 also covers, in the order of s. */
  function Filter(s: seq<Point>, p2: seq<Point>): (r: seq<Point>)
    ensures forall y :: y in r <==> y in s && y in p2
    ensures StrictlyIncreasing(s) ==> StrictlyIncreasing(r)
    decreases |s|
  {
    if |s| == 0 then []
    else
      var rest := Filter(s[1..], p2);
      assert StrictlyIncreasing(s) ==> forall y | y in rest :: LexLess(s[0], y) by {
        if StrictlyIncreasing(s) {
          forall y | y in rest ensures LexLess(s[0], y) {
            var k :| 0 <= k < |s[1..]| && s[1..][k] == y;
            assert s[k + 1] == y;
          }
        }
      }
      if s[0] in p2 then [s[0]] + rest else rest
  }

  /** `s1.intersection(&s2)` of the two sets of covered points, in set order. */
  function Intersections(p1: seq<Point>, p2: seq<Point>): (r: seq<Point>)
    ensures StrictlyIncreasing(r)
    ensures forall y :: y in r <==> y in p1 && y in p2
  {
    Filter(SortedUnique(p1), p2)
  }

  ghost predicate ByDistance(s: seq<Point>)
  {
    forall i, j | 0 <= i < j < |s| :: Distance(s[i]) <= Distance(s[j])
  }

  /** x placed after every element not farther than it: the stable insertion of `sort_by`. */
  function InsertByDistance(x: Point, t: seq<Point>): (r: seq<Point>)
    requires ByDistance(t)
    ensures ByDistance(r)
    ensures |r| == |t| + 1 && (r[0] == x || (|t| > 0 && r[0] == t[0]))
    ensures multiset(r) == multiset(t) + multiset{x}
    decreases |t|
  {
    if |t| == 0 then [x]
    else if Distance(x) < Distance(t[0]) then [x] + t
    else
      var rest := InsertByDistance(x, t[1..]);
      ConsByDistance(t[0], rest);
      assert t == [t[0]] + t[1..];
      [t[0]] + rest
  }

  /** A point no farther than the head of a sorted sequence can go in front of it. */
  lemma ConsByDistance(a: Point, rest: seq<Point>)
    requires ByDistance(rest) && (|rest| > 0 ==> Distance(a) <= Distance(rest[0]))
    ensures ByDistance([a] + rest)
  {
    var r := [a] + rest;
    forall i, j | 0 <= i < j < |r|
      ensures Distance(r[i]) <= Distance(r[j])
    {
      if i == 0 {
        assert r[j] == rest[j - 1];
        if j > 1 {
          assert Distance(rest[0]) <= Distance(rest[j - 1]);
        }
      } else {
        assert r[i] == rest[i - 1] && r[j] == rest[j - 1];
      }
    }
  }

  /** `sort_by` on distance: stable, non-decreasing, a permutation. */
  function SortByDistance(s: seq<Point>): (r: seq<Point>)
    ensures ByDistance(r)
    ensures multiset(r) == multiset(s)
    decreases |s|
  {
    if |s| == 0 then []
    else
      assert s == s[..|s| - 1] + [s[|s| - 1]];
      InsertByDistance(s[|s| - 1], SortByDistance(s[..|s| - 1]))
  }

  /** What `closest_intersection` returns: element 1 of the sorted crossings, or a panic. */
  datatype Crossing = Crossing(point: Point) | IndexPanic

  /** `closest_intersection`. */
  function ClosestIntersection(wire1: seq<Direction>, wire2: seq<Direction>): Crossing
  {
    var sorted := SortByDistance(Intersections(Path(wire1), Path(wire2)));
    if |sorted| < 2 then IndexPanic else Crossing(sorted[1])
  }

  /** A point both wires cover, other than the origin. */
  ghost predicate IsCrossing(c: Point, p1: seq<Point>, p2: seq<Point>)
  {
    c in p1 && c in p2 && c != Origin
  }

  /** A strictly increasing sequence holds each element once. */
  lemma UniqueCounts(s: seq<Point>, x: Point)
    requires StrictlyIncreasing(s)
    ensures multiset(s)[x] <= 1
    decreases |s|
  {
    if |s| > 0 {
      UniqueCounts(s[1..], x);
      assert s == [s[0]] + s[1..];
      if x == s[0] {
        assert x !in s[1..];
      }
    }
  }

  /** Sorting keeps the same elements. */
  lemma SortedSameElements(s: seq<Point>)
    ensures forall y :: y in SortByDistance(s) <==> y in s
  {
    var sorted := SortByDistance(s);
    forall y ensures y in sorted <==> y in s {
      assert y in sorted <==> y in multiset(sorted);
      assert y in s <==> y in multiset(s);
    }
  }

  /** In a sequence sorted by distance that holds the origin, the origin comes first. */
  lemma OriginFirst(sorted: seq<Point>)
    requires ByDistance(sorted) && Origin in sorted
    ensures sorted[0] == Origin
  {
    var k :| 0 <= k < |sorted| && sorted[k] == Origin;
    if k > 0 {
      assert Distance(sorted[0]) <= Distance(sorted[k]);
    }
  }

  /** After sorting, the origin is first and element 1, if any, is another common point. */
  lemma SortedHead(common: seq<Point>)
    requires StrictlyIncreasing(common) && Origin in common
    ensures var sorted := SortByDistance(common);
      |sorted| > 0 && sorted[0] == Origin && (|sorted| >= 2 ==> sorted[1] in common && sorted[1] != Origin)
  {
    var sorted := SortByDistance(common);
    assert Origin in multiset(common);
    OriginFirst(sorted);
    if |sorted| >= 2 {
      UniqueCounts(common, Origin);
      if sorted[1] == Origin {
        EqualHeads(sorted);
      }
      assert sorted[1] in multiset(sorted);
    }
  }

  /** Two equal leading elements occur at least twice. */
  lemma EqualHeads<T>(s: seq<T>)
    requires |s| >= 2 && s[0] == s[1]
    ensures multiset(s)[s[0]] >= 2
  {
    assert s == [s[0], s[1]] + s[2..];
  }

  /** Element 1 exists after sorting exactly when some point other than the origin is common. */
  lemma SecondExists(common: seq<Point>)
    requires StrictlyIncreasing(common) && Origin in common
    ensures |SortByDistance(common)| >= 2 <==> exists c :: c in common && c != Origin
  {
    var sorted := SortByDistance(common);
    SortedHead(common);
    if exists c :: c in common && c != Origin {
      var c :| c in common && c != Origin;
      assert c in multiset(sorted);
      assert c in sorted && c != sorted[0];
    }
  }

  /** Element 1 after sorting is a common point other than the origin, at the least distance. */
  lemma SecondLeast(common: seq<Point>)
    requires StrictlyIncreasing(common) && Origin in common && |SortByDistance(common)| >= 2
    ensures var sorted := SortByDistance(common);
      sorted[1] in common && sorted[1] != Origin
      && forall c | c in common && c != Origin :: Distance(sorted[1]) <= Distance(c)
  {
    var sorted := SortByDistance(common);
    SortedHead(common);
    SortedSameElements(common);
    forall c | c in common && c != Origin
      ensures Distance(sorted[1]) <= Distance(c)
    {
      var k :| 0 <= k < |sorted| && sorted[k] == c;
      if k > 1 {
        assert Distance(sorted[1]) <= Distance(sorted[k]);
      }
    }
  }

  /**
   * Sorting a set of points that holds the origin by distance puts the origin first, so
   * element 1, when there is one, is a point other than the origin at the least distance.
   */
  lemma SecondIsNearest(common: seq<Point>)
    requires StrictlyIncreasing(common) && Origin in common
    ensures var sorted := SortByDistance(common);
      |sorted| >= 2 <==> exists c :: c in common && c != Origin
    ensures var sorted := SortByDistance(common);
      |sorted| >= 2 ==> sorted[1] in common && sorted[1] != Origin
                        && forall c | c in common && c != Origin :: Distance(sorted[1]) <= Distance(c)
  {
    SecondExists(common);
    if |SortByDistance(common)| >= 2 {
      SecondLeast(common);
    }
  }

  /** A sequence is empty or holds its first element. */
  lemma EmptyOrHead<T>(s: seq<T>)
    ensures s == [] || s[0] in s
  {
  }

  /**
   * When both wires cover some point, the origin is the one crossing at distance 0 and is
   * sorted first, so element 1 is a crossing other than the origin at the least distance;
   * the source panics exactly when there is no such crossing.  A wire that covers no point
   * (every move of count 0) shares nothing, and indexing element 1 panics.
   */
  lemma ClosestIsNearest(wire1: seq<Direction>, wire2: seq<Direction>)
    ensures var p1, p2 := Path(wire1), Path(wire2);
      ClosestIntersection(wire1, wire2).Crossing? <==> exists c :: IsCrossing(c, p1, p2)
    ensures var p1, p2, r := Path(wire1), Path(wire2), ClosestIntersection(wire1, wire2);
      r.Crossing? ==> IsCrossing(r.point, p1, p2) && forall c | IsCrossing(c, p1, p2) :: Distance(r.point) <= Distance(c)
  {
    var p1, p2 := Path(wire1), Path(wire2);
    var common := Intersections(p1, p2);
    if |p1| > 0 && |p2| > 0 {
      PathStartsAtStart(Origin, wire1);
      PathStartsAtStart(Origin, wire2);
      assert Origin in common;
      SecondIsNearest(common);
      assert forall c :: IsCrossing(c, p1, p2) <==> c in common && c != Origin;
    } else {
      EmptyOrHead(common);
      assert common == [];
      assert |SortByDistance(common)| == |multiset(common)| == 0;
    }
  }

  // ---------------------------------------------------------------- fewest steps

  /** Where a point first appears in a wire's list. */
  function FirstIndex(p: seq<Point>, c: Point): (i: nat)
    requires c in p
    ensures i < |p| && p[i] == c && c !in p[..i]
  {
    if p[0] == c then 0 else 1 + FirstIndex(p[1..], c)
  }

  /** The steps both wires take to reach c for the first time. */
  function Cost(p1: seq<Point>, p2: seq<Point>, c: Point): nat
    requires c in p1 && c in p2
  {
    FirstIndex(p1, c) + FirstIndex(p2, c)
  }

  /** The first index of c in p, by the source's `enumerate` loop with `break`. */
  method FindFirst(p: seq<Point>, c: Point, previous: nat) returns (step: nat)
    ensures c in p ==> step == FirstIndex(p, c)
    ensures c !in p ==> step == previous
  {
    step := previous;
    var i := 0;
    while i < |p|
      invariant 0 <= i <= |p| && c !in p[..i]
    {
      if p[i] == c {
        step := i;
        assert c !in p[..i];
        return;
      }
      assert p[..i + 1] == p[..i] + [p[i]];
      i := i + 1;
    }
    assert p[..i] == p;
  }

  /** The least cost over the crossings, or 0 when there are none. */
  ghost predicate IsShortest(minStep: nat, p1: seq<Point>, p2: seq<Point>)
  {
    && (minStep == 0 <==> forall c :: !IsCrossing(c, p1, p2))
    && (minStep != 0 ==> exists c | IsCrossing(c, p1, p2) :: minStep == Cost(p1, p2, c))
    && (forall c | IsCrossing(c, p1, p2) :: minStep <= Cost(p1, p2, c))
  }

  /**
   * `shortest_intersection`: over the crossings other than the origin, the least number of
   * steps both wires take to reach it, or 0 when the wires only meet at the origin.
   */
  method ShortestIntersection(wire1: seq<Direction>, wire2: seq<Direction>) returns (minStep: nat)
    ensures IsShortest(minStep, Path(wire1), Path(wire2))
  {
    var p1 := WalkPath(wire1);
    var p2 := WalkPath(wire2);
    var all := Intersections(p1, p2);
    assert Common(all, p1, p2);
    minStep := MinCost(all, p1, p2);
    if |p1| > 0 {
      PathStartsAtStart(Origin, wire1);
    }
    BestUpToBounds(all, p1, p2, |all|);
    ShortestFromList(minStep, p1, p2, all);
  }

  /** The loop of `shortest_intersection` over the common points of two walked wires. */
  method MinCost(all: seq<Point>, p1: seq<Point>, p2: seq<Point>) returns (minStep: nat)
    requires Common(all, p1, p2)
    ensures minStep == BestUpTo(all, p1, p2, |all|)
  {
    var step1: nat, step2: nat := 0, 0;
    minStep := 0;
    for k := 0 to |all|
      invariant minStep == BestUpTo(all, p1, p2, k)
    {
      var intersection := all[k];
      if intersection == Origin {
        continue;
      }
      step1 := FindFirst(p1, intersection, step1);
      step2 := FindFirst(p2, intersection, step2);
      if minStep == 0 || step1 + step2 < minStep {
        minStep := step1 + step2;
      }
    }
  }

  ghost predicate Common(all: seq<Point>, p1: seq<Point>, p2: seq<Point>)
  {
    forall j | 0 <= j < |all| :: all[j] in p1 && all[j] in p2
  }

  /** The value the loop holds after the first k common points. */
  ghost function BestUpTo(all: seq<Point>, p1: seq<Point>, p2: seq<Point>, k: nat): nat
    requires k <= |all| && Common(all, p1, p2)
  {
    if k == 0 then 0
    else
      var prev, c := BestUpTo(all, p1, p2, k - 1), all[k - 1];
      if c == Origin then prev
      else if prev == 0 || Cost(p1, p2, c) < prev then Cost(p1, p2, c)
      else prev
  }

  /**
   * After k points, the loop holds 0 exactly when they are all the origin, and otherwise the
   * cost of one of the other points, no larger than the cost of any of them; a cost is never
   * 0 because a walked wire starts at the origin.
   */
  lemma {:induction false} BestUpToBounds(all: seq<Point>, p1: seq<Point>, p2: seq<Point>, k: nat)
    requires k <= |all| && Common(all, p1, p2) && (|p1| > 0 ==> p1[0] == Origin)
    ensures var m := BestUpTo(all, p1, p2, k);
      && (m == 0 <==> forall j | 0 <= j < k :: all[j] == Origin)
      && (m != 0 ==> exists j | 0 <= j < k :: all[j] != Origin && m == Cost(p1, p2, all[j]))
      && (forall j | 0 <= j < k && all[j] != Origin :: m <= Cost(p1, p2, all[j]))
  {
    if k > 0 {
      BestUpToBounds(all, p1, p2, k - 1);
      var m, prev, c := BestUpTo(all, p1, p2, k), BestUpTo(all, p1, p2, k - 1), all[k - 1];
      if c != Origin {
        var cost := Cost(p1, p2, c);
        assert FirstIndex(p1, c) > 0;
        if m == cost {
          assert all[k - 1] != Origin && m == Cost(p1, p2, all[k - 1]);
        } else {
          assert m == prev && prev != 0 && prev <= cost;
        }
      }
    }
  }

  /** The least cost over a list of the common points is the least cost over the crossings. */
  lemma ShortestFromList(minStep: nat, p1: seq<Point>, p2: seq<Point>, all: seq<Point>)
    requires forall y :: y in all <==> y in p1 && y in p2
    requires minStep == 0 <==> forall j | 0 <= j < |all| :: all[j] == Origin
    requires minStep != 0 ==> exists j | 0 <= j < |all| :: all[j] != Origin && minStep == Cost(p1, p2, all[j])
    requires forall j | 0 <= j < |all| && all[j] != Origin :: minStep <= Cost(p1, p2, all[j])
    ensures IsShortest(minStep, p1, p2)
  {
    forall c | IsCrossing(c, p1, p2) ensures exists j | 0 <= j < |all| :: all[j] == c {
      assert c in all;
    }
    if minStep != 0 {
      var j :| 0 <= j < |all| && all[j] != Origin && minStep == Cost(p1, p2, all[j]);
      assert IsCrossing(all[j], p1, p2);
    }
  }
}
